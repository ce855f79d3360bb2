/** Range headers and the byte-range responses served from encrypted blobs. */
module ByteRange {
  import opened Arithmetic
  import opened ChunkStore
  import opened Options
  import opened Text

  // ---- strconv.ParseInt(s, 10, 64) ----

  predicate IsDigit(c: char) {
    '0' <= c <= '9'
  }

  function DigitValue(c: char): nat
    requires IsDigit(c)
  {
    c as int - '0' as int
  }

  function Digits(s: string): (r: Option<int>)
    ensures r.Some? ==> r.value >= 0
  {
    if s == [] then Some(0)
    else if !IsDigit(s[|s|-1]) then None
    else
      var high := Digits(s[..|s|-1]);
      if high.None? then None else Some(high.value * 10 + DigitValue(s[|s|-1]))
  }

  function ParseInt(s: string): Option<int> {
    var body := if s != [] && (s[0] == '+' || s[0] == '-') then s[1..] else s;
    if body == [] || Digits(body).None? then None
    else
      var n := if s[0] == '-' then -Digits(body).value else Digits(body).value;
      if IsInt64(n) then Some(n) else None
  }

  lemma DigitCharacters(c: char)
    ensures IsDigit(c) <==> c in {'0', '1', '2', '3', '4', '5', '6', '7', '8', '9'}
  {
  }

  // ---- parseByteRange ----

  datatype Parsed = Full | Ok(start: int, end: int) | Unsatisfiable

  // strings.IndexByte: -1 when absent.
  function IndexOf(s: string, c: char): int {
    if s == [] then -1
    else if s[0] == c then 0
    else
      var i := IndexOf(s[1..], c);
      if i < 0 then -1 else i + 1
  }

  lemma {:induction false} IndexOfIsFirst(s: string, c: char)
    ensures var i := IndexOf(s, c);
            if i < 0 then i == -1 && c !in s else i < |s| && s[i] == c && c !in s[..i]
  {
    if s != [] && s[0] != c {
      IndexOfIsFirst(s[1..], c);
      assert s == [s[0]] + s[1..];
      var i := IndexOf(s[1..], c);
      if i >= 0 { assert s[..i+1] == [s[0]] + s[1..][..i]; }
    }
  }

  const PREFIX := "bytes="

  function ParseByteRange(header: string, size: int): Parsed {
    if !(PREFIX <= header) then Full
    else
      var spec := TrimSpace(header[|PREFIX|..]);
      if spec == "" || ',' in spec then Full
      else
        var dash := IndexOf(spec, '-');
        IndexOfIsFirst(spec, '-');
        if dash < 0 then Full
        else ParseSpec(TrimSpace(spec[..dash]), TrimSpace(spec[dash+1..]), size)
  }

  function ParseSpec(startStr: string, endStr: string, size: int): Parsed {
    if size <= 0 then Unsatisfiable
    else if startStr == "" then
      var n := ParseInt(endStr);
      if n.None? || n.value <= 0 then Full
      else Ok(size - Least(n.value, size), size - 1)
    else
      var s := ParseInt(startStr);
      if s.None? || s.value < 0 then Full
      else if s.value >= size then Unsatisfiable
      else if endStr == "" then Ok(s.value, size - 1)
      else
        var e := ParseInt(endStr);
        if e.None? || e.value < s.value then Full
        else Ok(s.value, if e.value >= size then size - 1 else e.value)
  }

  // A satisfiable range is a non-empty range of the representation.
  lemma OkIsInBounds(header: string, size: int)
    ensures var r := ParseByteRange(header, size);
            r.Ok? ==> 0 <= r.start <= r.end < size && InBounds(r.start, r.end - r.start + 1, size)
  {
  }

  // ---- the range forms of RFC 9110, section 14.1.2 ----

  function Decimal(n: nat): (s: string)
    ensures |s| > 0
  {
    (if n < 10 then [] else Decimal(n / 10)) + [DigitChar(n % 10)]
  }

  function DigitChar(d: nat): (c: char)
    requires d < 10
    ensures IsDigit(c) && DigitValue(c) == d
  {
    (d + 48) as char
  }

  predicate AllDigits(s: string) {
    forall i :: 0 <= i < |s| ==> IsDigit(s[i])
  }

  lemma {:induction false} DecimalDigits(n: nat)
    ensures AllDigits(Decimal(n)) && Digits(Decimal(n)) == Some(n)
  {
    var s: string, c := if n < 10 then [] else Decimal(n / 10), DigitChar(n % 10);
    assert Digits([]) == Some(0);
    if n >= 10 { DecimalDigits(n / 10); }
    assert AllDigits(s) && Digits(s) == Some(n / 10);
    DigitsSnoc(s, c);
    AllDigitsSnoc(s, c);
  }

  lemma AllDigitsSnoc(s: string, c: char)
    requires AllDigits(s) && IsDigit(c)
    ensures AllDigits(s + [c])
  {
  }

  lemma DigitsSnoc(s: string, c: char)
    requires IsDigit(c) && Digits(s).Some?
    ensures Digits(s + [c]) == Some(Digits(s).value * 10 + DigitValue(c))
  {
    assert (s + [c])[..|s|] == s;
  }

  // The value of a string of digits, leading zeros included; nothing has the value 0.
  function Value(s: string): (n: nat)
    requires AllDigits(s)
  {
    DigitsHaveValue(s);
    Digits(s).value
  }

  lemma {:induction false} DigitsHaveValue(s: string)
    requires AllDigits(s)
    ensures Digits(s).Some?
    decreases |s|
  {
    if s != [] { DigitsHaveValue(s[..|s|-1]); }
  }

  lemma ParseDigits(s: string)
    requires AllDigits(s)
    ensures ParseInt(s) == if s != "" && Value(s) < INT64_LIMIT then Some(Value(s)) else None
  {
    DigitsHaveValue(s);
    if s != "" { assert IsDigit(s[0]); }
  }

  lemma ParseDecimal(n: nat)
    requires n < INT64_LIMIT
    ensures ParseInt(Decimal(n)) == Some(n)
  {
    DecimalDigits(n);
    ParseDigits(Decimal(n));
  }

  // A minus sign gives the negative number, down to -2^63.
  lemma ParseNegative(s: string)
    requires AllDigits(s) && s != ""
    ensures ParseInt("-" + s).Some? <==> Value(s) <= INT64_LIMIT
    ensures ParseInt("-" + s).Some? ==> ParseInt("-" + s).value + Value(s) == 0
  {
    DigitsHaveValue(s);
    var t := "-" + s;
    assert t[1..] == s;
  }

  // Text that starts and ends with non-blanks is not trimmed.
  lemma TrimKeeps(s: string)
    requires s == [] || (!IsSpace(s[0]) && !IsSpace(s[|s|-1]))
    ensures TrimSpace(s) == s
  {
  }

  lemma {:induction false} IndexAfterDigits(a: string, rest: string)
    requires AllDigits(a)
    ensures IndexOf(a + ['-'] + rest, '-') == |a|
  {
    var s := a + ['-'] + rest;
    if a == [] {
    } else {
      IndexAfterDigits(a[1..], rest);
      assert s[1..] == a[1..] + ['-'] + rest;
      assert IsDigit(s[0]);
    }
  }

  // A header of decimal positions, either side possibly left out, reads as its two positions.
  lemma HeaderParts(a: string, b: string, size: int)
    requires AllDigits(a) && AllDigits(b)
    ensures ParseByteRange(PREFIX + a + "-" + b, size) == ParseSpec(a, b, size)
  {
    var spec := a + ['-'] + b;
    var header := PREFIX + a + "-" + b;
    assert header == PREFIX + spec;
    assert header[|PREFIX|..] == spec;
    TrimKeeps(spec);
    IndexAfterDigits(a, b);
    assert spec[..|a|] == a && spec[|a|+1..] == b;
    TrimKeeps(a);
    TrimKeeps(b);
    forall i | 0 <= i < |spec| ensures spec[i] != ',' {
      if i < |a| { assert IsDigit(a[i]); } else if i > |a| { assert IsDigit(b[i-|a|-1]); }
    }
  }

  // What the standard makes of one range of two digit strings, either of which may be missing. An
  // int-range whose last position is less than its first is invalid and ignored; positions may be as
  // large as one likes; a suffix of no bytes is unsatisfiable; and of nothing any other suffix is all.
  function RangeOf(first: string, last: string, size: nat): Parsed
    requires AllDigits(first) && AllDigits(last)
  {
    if first == "" then
      if last == "" then Full
      else if Value(last) == 0 then Unsatisfiable
      else if size == 0 then Full
      else Ok(size - Least(Value(last), size), size - 1)
    else if Reversed(first, last) then Full
    else if Value(first) >= size then Unsatisfiable
    else Ok(Value(first), if last == "" then size - 1 else Least(Value(last), size - 1))
  }

  predicate Reversed(first: string, last: string)
    requires AllDigits(first) && AllDigits(last)
  {
    first != "" && last != "" && Value(last) < Value(first)
  }

  // When the program agrees: no suffix of zero bytes, no position too large for 64 bits, and no
  // reversed range that starts beyond the end, unless two of these cancel out.
  predicate Conforms(first: string, last: string, size: nat)
    requires AllDigits(first) && AllDigits(last)
  {
    if first == "" && last == "" then size > 0
    else if first == "" then if size == 0 then Value(last) == 0 else 0 < Value(last) < INT64_LIMIT
    else if Value(first) < size then Value(last) < INT64_LIMIT
    else if size == 0 || Value(first) < INT64_LIMIT then !Reversed(first, last)
    else Reversed(first, last)
  }

  lemma SpecForms(first: string, last: string, size: nat)
    requires AllDigits(first) && AllDigits(last) && size < INT64_LIMIT
    ensures ParseSpec(first, last, size) == RangeOf(first, last, size) <==> Conforms(first, last, size)
    ensures !Conforms(first, last, size) ==>
              ParseSpec(first, last, size) ==
                if size == 0 || (first != "" && size <= Value(first) < INT64_LIMIT) then Unsatisfiable else Full
  {
    ParseDigits(first);
    ParseDigits(last);
  }

  // For all digit strings and all sizes: the range is read as section 14.1.2 has it if and only if the
  // condition holds, and otherwise it is taken for unsatisfiable or for the whole.
  lemma RangeForms(first: string, last: string, size: nat)
    requires AllDigits(first) && AllDigits(last) && size < INT64_LIMIT
    ensures var r := ParseByteRange(PREFIX + first + "-" + last, size);
            && (r == RangeOf(first, last, size) <==> Conforms(first, last, size))
            && (!Conforms(first, last, size) ==>
                  r == if size == 0 || (first != "" && size <= Value(first) < INT64_LIMIT) then Unsatisfiable else Full)
  {
    HeaderParts(first, last, size);
    SpecForms(first, last, size);
  }

  // ---- all headers ----

  // Names of range units do not depend on case.
  function Lower(s: string): string {
    seq(|s|, i requires 0 <= i < |s| => LowerChar(s[i]))
  }

  function LowerChar(c: char): char {
    if 'A' <= c <= 'Z' then (c as int + 32) as char else c
  }

  // The value of the field, without the blanks around it: a unit and the two sides of a range.
  datatype Parts = NoParts | Parts(unit: string, first: string, last: string)

  // A range unit and one int-range or suffix-range, as the grammar has them.
  function PartsOf(header: string): (p: Parts)
    ensures p.Parts? ==> AllDigits(p.first) && AllDigits(p.last) && (p.first != "" || p.last != "")
    ensures p.Parts? ==> '=' !in p.unit
  {
    var i := IndexOf(header, '=');
    IndexOfIsFirst(header, '=');
    if i < 0 then NoParts
    else
      var spec := header[i+1..];
      var j := IndexOf(spec, '-');
      IndexOfIsFirst(spec, '-');
      if j < 0 then NoParts
      else
        var first, last := spec[..j], spec[j+1..];
        if AllDigits(first) && AllDigits(last) && (first != "" || last != "") then Parts(header[..i], first, last)
        else NoParts
  }

  lemma CutAt(s: string, i: nat)
    requires i < |s|
    ensures s == s[..i] + [s[i]] + s[i+1..]
  {
  }

  lemma PartsJoin(header: string)
    requires PartsOf(header).Parts?
    ensures var p := PartsOf(header); header == p.unit + "=" + p.first + "-" + p.last
  {
    var i := IndexOf(header, '=');
    IndexOfIsFirst(header, '=');
    var spec := header[i+1..];
    IndexOfIsFirst(spec, '-');
    CutAt(header, i);
    CutAt(spec, IndexOf(spec, '-'));
    var p := PartsOf(header);
    assert p.unit + "=" + (p.first + "-" + p.last) == p.unit + "=" + p.first + "-" + p.last;
  }

  lemma FirstIndex(s: string, c: char, i: nat)
    requires i < |s| && s[i] == c && c !in s[..i]
    ensures IndexOf(s, c) == i
  {
    IndexOfIsFirst(s, c);
  }

  // A header of these parts is taken apart into them.
  lemma PartsOfJoined(unit: string, first: string, last: string)
    requires '=' !in unit && AllDigits(first) && AllDigits(last) && (first != "" || last != "")
    ensures PartsOf(unit + "=" + first + "-" + last) == Parts(unit, first, last)
  {
    var spec := first + "-" + last;
    var header := unit + "=" + first + "-" + last;
    assert header == unit + "=" + spec && header[..|unit|] == unit;
    FirstIndex(header, '=', |unit|);
    assert header[|unit|+1..] == spec && spec[..|first|] == first && spec[|first|+1..] == last;
    forall k | 0 <= k < |first| ensures first[k] != '-' { assert IsDigit(first[k]); }
    FirstIndex(spec, '-', |first|);
  }

  // What the standard makes of a header: one range of bytes, the unit in any spelling; several ranges, other
  // units and anything malformed are ignored.
  function Standard(header: string, size: nat): Parsed {
    var p := PartsOf(header);
    if p.Parts? && Lower(p.unit) == "bytes" then RangeOf(p.first, p.last, size) else Full
  }

  // The standard ignores a reversed range, and has nothing but the whole to give of nothing.
  predicate IgnoredRange(first: string, last: string, size: nat)
    requires AllDigits(first) && AllDigits(last)
  {
    Reversed(first, last) || (first == "" && last != "" && Value(last) > 0 && size == 0)
  }

  // The program's integer parser accepts both sides as positions, signs and all.
  predicate Positions(first: string, last: string, size: nat) {
    if first == "" then ParseInt(last).Some? && ParseInt(last).value > 0
    else
      && ParseInt(first).Some? && ParseInt(first).value >= 0
      && (ParseInt(first).value >= size || last == ""
          || (ParseInt(last).Some? && ParseInt(first).value <= ParseInt(last).value))
  }

  // The program takes what the standard ignores for a range: the two sides of the first dash, stripped of
  // blanks, are positions, or the file is empty.
  predicate TakenForRange(header: string, size: nat) {
    PREFIX <= header &&
    var spec := TrimSpace(header[|PREFIX|..]);
    var dash := IndexOf(spec, '-');
    IndexOfIsFirst(spec, '-');
    ',' !in spec && dash >= 0 && (size == 0 || Positions(TrimSpace(spec[..dash]), TrimSpace(spec[dash+1..]), size))
  }

  predicate Agrees(header: string, size: nat) {
    var p := PartsOf(header);
    if p.Parts? && p.unit == "bytes" then Conforms(p.first, p.last, size)
    else if p.Parts? && Lower(p.unit) == "bytes" then IgnoredRange(p.first, p.last, size)
    else !TakenForRange(header, size)
  }

  lemma SpecTaken(first: string, last: string, size: nat)
    ensures ParseSpec(first, last, size) != Full <==> size == 0 || Positions(first, last, size)
  {
  }

  lemma IgnoredIsFull(first: string, last: string, size: nat)
    requires AllDigits(first) && AllDigits(last) && (first != "" || last != "")
    ensures RangeOf(first, last, size) == Full <==> IgnoredRange(first, last, size)
  {
  }

  // The unit is spelt as the program wants it exactly when the prefix is there.
  lemma UnitIsPrefix(header: string)
    requires PartsOf(header).Parts?
    ensures PartsOf(header).unit == "bytes" <==> PREFIX <= header
  {
    var p := PartsOf(header);
    PartsJoin(header);
    if PREFIX <= header {
      assert header[5] == '=' && header[..5] == "bytes";
      assert header == p.unit + "=" + p.first + "-" + p.last;
      assert header[|p.unit|] == '=';
      assert p.unit == header[..|p.unit|];
    }
  }

  lemma LowerKeeps()
    ensures Lower("bytes") == "bytes" == Lower("Bytes")
  {
  }

  // For every header and every size: the program reads what the standard has, if and only if a range in
  // lower-case spelling conforms, one in another spelling asks for nothing, and anything else is not taken
  // for a range.
  lemma HeaderForms(header: string, size: nat)
    requires size < INT64_LIMIT
    ensures ParseByteRange(header, size) == Standard(header, size) <==> Agrees(header, size)
  {
    var p := PartsOf(header);
    LowerKeeps();
    if p.Parts? {
      PartsJoin(header);
      UnitIsPrefix(header);
      if p.unit == "bytes" {
        assert header == PREFIX + p.first + "-" + p.last;
        RangeForms(p.first, p.last, size);
      } else {
        IgnoredIsFull(p.first, p.last, size);
      }
    } else {
      OtherHeaders(header, size);
    }
  }

  lemma OtherHeaders(header: string, size: nat)
    ensures ParseByteRange(header, size) != Full <==> TakenForRange(header, size)
  {
    if PREFIX <= header {
      var spec := TrimSpace(header[|PREFIX|..]);
      var dash := IndexOf(spec, '-');
      IndexOfIsFirst(spec, '-');
      if dash >= 0 { SpecTaken(TrimSpace(spec[..dash]), TrimSpace(spec[dash+1..]), size); }
    }
  }

  lemma ParseSigned(s: string)
    requires AllDigits(s) && s != ""
    ensures ParseInt("+" + s) == ParseInt(s)
  {
    var t := "+" + s;
    assert t[1..] == s && IsDigit(s[0]);
  }

  // A plus sign before the last position makes no difference to the program; the standard ignores the range.
  lemma SignIsAccepted(first: string, last: string, size: nat)
    requires AllDigits(first) && AllDigits(last) && last != ""
    ensures ParseByteRange(PREFIX + first + "-" + ("+" + last), size)
            == ParseByteRange(PREFIX + first + "-" + last, size)
    ensures Standard(PREFIX + first + "-" + ("+" + last), size) == Full
  {
    HeaderParts(first, last, size);
    SignedParts(first, last, size);
    ParseSigned(last);
    SignedIsMalformed(first, last);
  }

  lemma SignedParts(first: string, last: string, size: int)
    requires AllDigits(first) && AllDigits(last) && last != ""
    ensures ParseByteRange(PREFIX + first + "-" + ("+" + last), size) == ParseSpec(first, "+" + last, size)
  {
    var b := "+" + last;
    var spec, header := first + ['-'] + b, PREFIX + first + "-" + b;
    assert header == PREFIX + spec && header[|PREFIX|..] == spec;
    assert IsDigit(last[|last|-1]) && spec[|spec|-1] == last[|last|-1];
    TrimKeeps(spec);
    IndexAfterDigits(first, b);
    assert spec[..|first|] == first && spec[|first|+1..] == b;
    TrimKeeps(first);
    TrimKeeps(b);
    forall i | 0 <= i < |spec| ensures spec[i] != ',' {
      if i < |first| { assert IsDigit(first[i]); } else if i > |first| + 1 { assert IsDigit(last[i-|first|-2]); }
    }
  }

  lemma SignedIsMalformed(first: string, last: string)
    requires AllDigits(first)
    ensures PartsOf(PREFIX + first + "-" + ("+" + last)).NoParts?
  {
    var b := "+" + last;
    var header, spec := PREFIX + first + "-" + b, first + "-" + b;
    assert header == "bytes" + "=" + spec && header[..5] == "bytes" && header[5] == '=' && header[6..] == spec;
    FirstIndex(header, '=', 5);
    forall k | 0 <= k < |first| ensures first[k] != '-' { assert IsDigit(first[k]); }
    FirstIndex(spec, '-', |first|);
    assert spec[|first|+1..] == b && !IsDigit(b[0]);
  }

  // The unit in another spelling is no range to the program.
  lemma SpellingMatters(first: string, last: string, size: nat)
    requires AllDigits(first) && AllDigits(last) && (first != "" || last != "")
    ensures ParseByteRange("Bytes" + "=" + first + "-" + last, size) == Full
    ensures Standard("Bytes" + "=" + first + "-" + last, size) == RangeOf(first, last, size)
  {
    var header := "Bytes" + "=" + first + "-" + last;
    assert header[0] == 'B' && PREFIX[0] == 'b';
    PartsOfJoined("Bytes", first, last);
    LowerKeeps();
  }

  // A suffix of no bytes, a last position of 2^63, a reversed range beyond the end, an empty file, a sign,
  // a capital letter.
  lemma RangesMisread()
    ensures var r := ParseByteRange("bytes=" + "" + "-" + Decimal(0), 10);
            r == Full && RangeOf("", Decimal(0), 10) == Unsatisfiable
    ensures var r := ParseByteRange("bytes=" + Decimal(0) + "-" + Decimal(INT64_LIMIT), 10);
            AllDigits(Decimal(0)) && AllDigits(Decimal(INT64_LIMIT))
            && r == Full && RangeOf(Decimal(0), Decimal(INT64_LIMIT), 10) == Ok(0, 9)
    ensures var r := ParseByteRange("bytes=" + Decimal(20) + "-" + Decimal(5), 10);
            AllDigits(Decimal(20)) && AllDigits(Decimal(5)) && r == Unsatisfiable
              && RangeOf(Decimal(20), Decimal(5), 10) == Full
    ensures var r := ParseByteRange("bytes=" + "" + "-" + Decimal(5), 0);
            AllDigits(Decimal(5)) && r == Unsatisfiable && RangeOf("", Decimal(5), 0) == Full
    ensures var header := PREFIX + Decimal(1) + "-" + ("+" + Decimal(5));
            ParseByteRange(header, 10) == Ok(1, 5) && Standard(header, 10) == Full
    ensures var header := "Bytes" + "=" + Decimal(0) + "-" + Decimal(5);
            ParseByteRange(header, 10) == Full && Standard(header, 10) == Ok(0, 5)
  {
    DecimalDigits(0);
    DecimalDigits(5);
    DecimalDigits(20);
    DecimalDigits(INT64_LIMIT);
    RangeForms("", Decimal(0), 10);
    RangeForms(Decimal(0), Decimal(INT64_LIMIT), 10);
    RangeForms(Decimal(20), Decimal(5), 10);
    RangeForms("", Decimal(5), 0);
    MisreadHeaders();
  }

  lemma MisreadHeaders()
    ensures var header := PREFIX + Decimal(1) + "-" + ("+" + Decimal(5));
            ParseByteRange(header, 10) == Ok(1, 5) && Standard(header, 10) == Full
    ensures var header := "Bytes" + "=" + Decimal(0) + "-" + Decimal(5);
            ParseByteRange(header, 10) == Full && Standard(header, 10) == Ok(0, 5)
  {
    DecimalDigits(0);
    DecimalDigits(1);
    DecimalDigits(5);
    RangeForms(Decimal(1), Decimal(5), 10);
    SignIsAccepted(Decimal(1), Decimal(5), 10);
    SpellingMatters(Decimal(0), Decimal(5), 10);
  }

  // ---- serving a blob ----

  datatype ContentRange = Bytes(start: int, end: int, size: int) | StarSize(size: int)

  class Response {
    var status: nat
    var contentRange: Option<ContentRange>
    var contentLength: Option<int>
    const body: Sink

    constructor ()
      ensures status == 200 && contentRange.None? && contentLength.None? && body.data == [] && fresh(body)
    {
      status, contentRange, contentLength := 200, None, None;
      body := new Sink();
    }
  }

  // Whether the file is what EncryptStream wrote for p.
  ghost predicate BlobOf(k: Cipher, file: seq<byte>, size: nat, p: seq<byte>)
    requires 0 < k.chunkSize < 0x1_0000_0000
  {
    k.Lawful() && file == Encrypted(k, p) && size == |p|
  }

  lemma WholeIsServed(k: Cipher, file: seq<byte>, size: nat)
    requires 0 < k.chunkSize < 0x1_0000_0000
    ensures forall p :: BlobOf(k, file, size, p) ==>
              |file| >= 4 && file[..4] == MAGIC && Plaintext(k, file, 4) == (p, true)
              && |file| == ExpectedEncryptedSize(k.chunkSize, size)
  {
    forall p | BlobOf(k, file, size, p)
      ensures |file| >= 4 && file[..4] == MAGIC && Plaintext(k, file, 4) == (p, true)
              && |file| == ExpectedEncryptedSize(k.chunkSize, size)
    {
      DecryptUndoesEncrypt(k, p);
      EncryptedSize(k, p);
    }
  }

  lemma RangeIsServed(k: Cipher, file: seq<byte>, size: nat, start: nat, length: nat)
    requires 0 < k.chunkSize < 0x1_0000_0000 && 0 < length && start + length <= size
    requires size < INT64_LIMIT && |file| < INT64_LIMIT
    ensures forall p :: BlobOf(k, file, size, p) ==>
              AcceptsLayout(k.chunkSize, file, size)
                && Range64(k, file, start, length) == (p[start..start+length], true)
  {
    forall p | BlobOf(k, file, size, p)
      ensures AcceptsLayout(k.chunkSize, file, size)
              && Range64(k, file, start, length) == (p[start..start+length], true)
    {
      RangeIsSliceOfWhole(k, p, start, length);
      FitsIn64(k, file, start, length, size);
      DecryptUndoesEncrypt(k, p);
    }
  }

  method ServeRange(k: Cipher, file: seq<byte>, start: nat, end: nat, size: nat, w: Response)
    requires 0 < k.chunkSize < 0x1_0000_0000 && w.body.data == [] && start <= end < size
    requires size < INT64_LIMIT && |file| < INT64_LIMIT
    modifies w, w.body
    ensures w.status == 206 && w.contentRange == Some(Bytes(start, end, size))
            && w.contentLength == Some(end - start + 1)
    ensures forall p :: BlobOf(k, file, size, p) ==> w.body.data == p[start..end+1]
  {
    var length := end - start + 1;
    w.contentRange := Some(Bytes(start, end, size));
    w.contentLength := Some(length);
    w.status := 206;
    RangeIsServed(k, file, size, start, length);
    var r := DecryptRangeToWriter(k, file, w.body, start, length, size);
  }

  method ServeWhole(k: Cipher, file: seq<byte>, size: nat, w: Response)
    requires 0 < k.chunkSize < 0x1_0000_0000 && w.body.data == []
    modifies w, w.body
    ensures w.status == old(w.status) && w.contentRange == old(w.contentRange) && w.contentLength == Some(size)
    ensures forall p :: BlobOf(k, file, size, p) ==> w.body.data == p
  {
    w.contentLength := Some(size);
    WholeIsServed(k, file, size);
    var r := DecryptFileToWriter(k, file, w.body);
  }

  // Streams the blob at a path (absent when there is no file there) to a fresh response.
  method ServeDecryptedBlob(k: Cipher, blob: Option<seq<byte>>, rangeHeader: string, size: nat, w: Response)
    requires 0 < k.chunkSize < 0x1_0000_0000 && w.body.data == []
    requires size < INT64_LIMIT && (blob.Some? ==> |blob.value| < INT64_LIMIT)
    requires w.status == 200 && w.contentRange.None? && w.contentLength.None?
    modifies w, w.body
    ensures blob.None? ==> w.status == 500 && w.body.data == []
    ensures forall p :: blob.Some? && BlobOf(k, blob.value, size, p) ==>
              Served(w.status, w.contentRange, w.contentLength, w.body.data, p, rangeHeader)
  {
    if blob.None? {
      w.status := 500;
      return;
    }
    var file := blob.value;
    WholeIsServed(k, file, size);
    if rangeHeader != "" && |file| == ExpectedSize64(k.chunkSize, size) {
      var parsed := ParseByteRange(rangeHeader, size);
      if parsed.Unsatisfiable? {
        w.contentRange := Some(StarSize(size));
        w.status := 416;
        return;
      }
      if parsed.Ok? {
        OkIsInBounds(rangeHeader, size);
        ServeRange(k, file, parsed.start, parsed.end, size, w);
        return;
      }
    }
    ServeWhole(k, file, size, w);
  }

  // The response a client may expect for content p: exactly the advertised number of bytes, and
  // exactly the advertised slice.
  ghost predicate Served(status: nat, contentRange: Option<ContentRange>, contentLength: Option<int>, body: seq<byte>,
                         p: seq<byte>, rangeHeader: string)
  {
    var parsed := if rangeHeader == "" then Full else ParseByteRange(rangeHeader, |p|);
    match parsed
    case Full => status == 200 && contentRange.None? && contentLength == Some(|p|) && body == p
    case Unsatisfiable => status == 416 && contentRange == Some(StarSize(|p|)) && body == []
    case Ok(s, e) =>
      && status == 206 && contentRange == Some(Bytes(s, e, |p|))
      && 0 <= s <= e < |p| && body == p[s..e+1] && contentLength == Some(|body|)
  }
}
