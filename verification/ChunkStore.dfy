/** The encrypted blob format: framed AEAD chunks, the full reader and the seeking reader. */
module ChunkStore {
  import opened Arithmetic
  import opened Options

  type byte = x: int | 0 <= x < 256

  const MAGIC: seq<byte> := [0x4D, 0x43, 0x76, 0x32] // "MCv2"
  const NONCE_SIZE := 12
  const TAG_SIZE := 16
  const OVERHEAD := 4 + NONCE_SIZE + TAG_SIZE

  // The authenticated cipher under one file key, and the random nonces drawn for one blob.
  datatype Cipher = Cipher(seal: (seq<byte>, seq<byte>) -> seq<byte>,
                           unseal: (seq<byte>, seq<byte>) -> Option<seq<byte>>,
                           nonce: nat -> seq<byte>,
                           chunkSize: nat)
  {
    // Opening undoes sealing; the sealed text is longer by the tag. The length prefix has 32 bits.
    ghost predicate Lawful() {
      && (forall n, p {:trigger seal(n, p)} :: |seal(n, p)| == |p| + TAG_SIZE && unseal(n, seal(n, p)) == Some(p))
      && (forall i {:trigger nonce(i)} :: |nonce(i)| == NONCE_SIZE)
      && 0 < chunkSize < 0x1_0000_0000
    }
  }

  // ---- length prefixes ----

  function Le32(n: nat): (b: seq<byte>)
    requires n < 0x1_0000_0000
    ensures |b| == 4
  {
    [Low(n), Low(n / 256), Low(n / 65536), Low(n / 16777216)]
  }

  function Low(n: nat): byte {
    n % 256
  }

  function FromLe32(b: seq<byte>): nat
    requires |b| == 4
  {
    b[0] as int + 256 * (b[1] as int) + 65536 * (b[2] as int) + 16777216 * (b[3] as int)
  }

  lemma Le32RoundTrip(n: nat)
    requires n < 0x1_0000_0000
    ensures FromLe32(Le32(n)) == n
  {
    var a, b, c := n / 256, n / 65536, n / 16777216;
    assert b == a / 256 && c == b / 256;
    assert n == 256 * a + Low(n) as int && a == 256 * b + Low(a) as int && b == 256 * c + Low(b) as int
      && Low(c) as int == c;
  }

  // ---- what EncryptStream writes ----

  function Frame(k: Cipher, i: nat, plain: seq<byte>): seq<byte>
    requires |plain| < 0x1_0000_0000
  {
    Le32(|plain|) + k.nonce(i) + k.seal(k.nonce(i), plain)
  }

  // The frames of p, the first one with nonce i: full chunks, then the rest.
  function Frames(k: Cipher, p: seq<byte>, i: nat): seq<byte>
    requires 0 < k.chunkSize < 0x1_0000_0000
    decreases |p|
  {
    if p == [] then []
    else
      var n := Least(k.chunkSize, |p|);
      Frame(k, i, p[..n]) + Frames(k, p[n..], i + 1)
  }

  function Encrypted(k: Cipher, p: seq<byte>): seq<byte>
    requires 0 < k.chunkSize < 0x1_0000_0000
  {
    MAGIC + Frames(k, p, 0)
  }

  // Plaintext still to come from the caller.
  class Source {
    var data: seq<byte>

    constructor (data: seq<byte>)
      ensures this.data == data
    {
      this.data := data;
    }

    // io.ReadFull: fills the buffer unless the input ends first.
    method ReadFull(n: nat) returns (got: seq<byte>, full: bool)
      requires n > 0
      modifies this
      ensures got == old(data)[..Least(n, |old(data)|)] && data == old(data)[Least(n, |old(data)|)..]
      ensures full <==> |got| == n
    {
      var m := Least(n, |data|);
      got, data := data[..m], data[m..];
      full := m == n;
    }
  }

  class Sink {
    var data: seq<byte>

    constructor ()
      ensures data == []
    {
      data := [];
    }

    method Write(b: seq<byte>)
      modifies this
      ensures data == old(data) + b
    {
      data := data + b;
    }
  }

  method WriteSealedChunk(k: Cipher, dst: Sink, i: nat, plain: seq<byte>)
    requires k.Lawful() && |plain| < 0x1_0000_0000
    modifies dst
    ensures dst.data == old(dst.data) + Frame(k, i, plain)
  {
    var nonce := k.nonce(i);
    var sealed := k.seal(nonce, plain);
    var tagStart := |sealed| - TAG_SIZE;
    dst.Write(Le32(|plain|));
    dst.Write(nonce);
    dst.Write(sealed[..tagStart]);
    dst.Write(sealed[tagStart..]);
    assert sealed[..tagStart] + sealed[tagStart..] == sealed;
    assert dst.data == old(dst.data) + Frame(k, i, plain);
  }

  method EncryptStream(k: Cipher, src: Source, dst: Sink) returns (total: nat)
    requires k.Lawful()
    modifies src, dst
    ensures dst.data == old(dst.data) + Encrypted(k, old(src.data)) && total == |old(src.data)|
  {
    ghost var p := src.data;
    ghost var before := dst.data;
    dst.Write(MAGIC);
    total := 0;
    var i := 0;
    var more := true;
    while more
      invariant total + |src.data| == |p| && (!more ==> src.data == [])
      invariant Sent(k, dst.data, src.data, i) == Sent(k, before + MAGIC, p, 0)
      decreases |src.data|, more
    {
      SendFrame(k, dst.data, src.data, i);
      var chunk, full := src.ReadFull(k.chunkSize);
      if |chunk| > 0 {
        WriteSealedChunk(k, dst, i, chunk);
        total := total + |chunk|;
        i := i + 1;
      }
      more := full;
    }
    AllSent(k, dst.data, before, p, i);
  }

  // What will have been written once the frames of p, from nonce i on, follow data.
  ghost function Sent(k: Cipher, data: seq<byte>, p: seq<byte>, i: nat): seq<byte>
    requires 0 < k.chunkSize < 0x1_0000_0000
  {
    data + Frames(k, p, i)
  }

  lemma SendFrame(k: Cipher, data: seq<byte>, p: seq<byte>, i: nat)
    requires k.Lawful()
    ensures var n := Least(k.chunkSize, |p|);
            p != [] ==> Sent(k, data, p, i) == Sent(k, data + Frame(k, i, p[..n]), p[n..], i + 1)
  {
  }

  lemma AllSent(k: Cipher, data: seq<byte>, before: seq<byte>, p: seq<byte>, i: nat)
    requires k.Lawful() && Sent(k, data, [], i) == Sent(k, before + MAGIC, p, 0)
    ensures data == before + Encrypted(k, p)
  {
    assert data + [] == data;
    assert before + MAGIC + Frames(k, p, 0) == before + (MAGIC + Frames(k, p, 0));
  }

  // ---- reading frames back ----

  datatype Read = End | Corrupt | Chunk(plain: seq<byte>, next: nat)

  // Reads the frame at pos of any file.
  function ReadFrame(k: Cipher, file: seq<byte>, pos: nat): (r: Read)
    ensures r.Chunk? ==> pos + OVERHEAD <= r.next <= |file|
  {
    if pos >= |file| then End
    else if pos + 4 > |file| then Corrupt
    else
      var n := FromLe32(file[pos..pos+4]);
      var next := pos + OVERHEAD + n;
      if next > |file| then Corrupt
      else
        var plain := k.unseal(file[pos+4..pos+4+NONCE_SIZE], file[pos+4+NONCE_SIZE..next]);
        if plain.None? then Corrupt else Chunk(plain.value, next)
  }

  // The plaintext of the frames from pos on, up to the first bad one, and whether none is bad.
  function Plaintext(k: Cipher, file: seq<byte>, pos: nat): (seq<byte>, bool)
    decreases |file| - pos
  {
    match ReadFrame(k, file, pos)
    case End => ([], true)
    case Corrupt => ([], false)
    case Chunk(plain, next) =>
      var (rest, ok) := Plaintext(k, file, next);
      (plain + rest, ok)
  }

  datatype Outcome = Done | IOError | OutOfBounds | NonUniform | LegacyFormat

  method DecryptFileToWriter(k: Cipher, file: seq<byte>, dst: Sink) returns (r: Outcome)
    modifies dst
    ensures |file| < 4 ==> r == IOError && dst.data == old(dst.data)
    ensures |file| >= 4 && file[..4] != MAGIC ==> r == LegacyFormat && dst.data == old(dst.data)
    ensures |file| >= 4 && file[..4] == MAGIC ==>
              dst.data == old(dst.data) + Plaintext(k, file, 4).0
              && r == if Plaintext(k, file, 4).1 then Done else IOError
  {
    if |file| < 4 { return IOError; }
    if file[..4] != MAGIC { return LegacyFormat; }
    var pos := 4;
    while true
      invariant old(dst.data) + Plaintext(k, file, 4).0 == dst.data + Plaintext(k, file, pos).0
      invariant Plaintext(k, file, 4).1 == Plaintext(k, file, pos).1
      decreases |file| - pos
    {
      match ReadFrame(k, file, pos) {
        case End => return Done;
        case Corrupt => return IOError;
        case Chunk(plain, next) =>
          dst.Write(plain);
          pos := next;
      }
    }
  }

  // ---- round trip ----

  lemma FrameParts(k: Cipher, i: nat, plain: seq<byte>, rest: seq<byte>)
    requires k.Lawful() && |plain| < 0x1_0000_0000
    ensures var f := Frame(k, i, plain) + rest;
            && |Frame(k, i, plain)| == OVERHEAD + |plain|
            && FromLe32(f[..4]) == |plain|
            && f[4..4+NONCE_SIZE] == k.nonce(i)
            && f[4+NONCE_SIZE..OVERHEAD+|plain|] == k.seal(k.nonce(i), plain)
  {
    Le32RoundTrip(|plain|);
    var f := Frame(k, i, plain) + rest;
    assert |k.nonce(i)| == NONCE_SIZE && |k.seal(k.nonce(i), plain)| == |plain| + TAG_SIZE;
    assert f[..4] == Le32(|plain|);
    assert f[4..4+NONCE_SIZE] == k.nonce(i);
    assert f[4+NONCE_SIZE..OVERHEAD+|plain|] == k.seal(k.nonce(i), plain);
  }

  lemma SliceShift(file: seq<byte>, pos: nat, a: nat, b: nat)
    requires pos <= |file| && a <= b <= |file| - pos
    ensures file[pos+a..pos+b] == file[pos..][a..b]
  {
  }

  // Reading where a frame starts gives back its plaintext.
  lemma ReadBack(k: Cipher, file: seq<byte>, pos: nat, i: nat, plain: seq<byte>, rest: seq<byte>)
    requires k.Lawful() && |plain| < 0x1_0000_0000
    requires pos <= |file| && file[pos..] == Frame(k, i, plain) + rest
    ensures pos + OVERHEAD + |plain| <= |file|
    ensures ReadFrame(k, file, pos) == Chunk(plain, pos + OVERHEAD + |plain|)
    ensures file[pos+OVERHEAD+|plain|..] == rest
  {
    FrameParts(k, i, plain, rest);
    SliceShift(file, pos, 0, 4);
    SliceShift(file, pos, 4, 4 + NONCE_SIZE);
    SliceShift(file, pos, 4 + NONCE_SIZE, OVERHEAD + |plain|);
    assert k.unseal(k.nonce(i), k.seal(k.nonce(i), plain)) == Some(plain);
    assert file[pos+OVERHEAD+|plain|..] == file[pos..][OVERHEAD+|plain|..];
  }

  // From pos to its end, the file reads as the full chunks of q and then the rest of it.
  ghost predicate Holds(k: Cipher, file: seq<byte>, pos: nat, q: seq<byte>)
    requires k.chunkSize > 0
    decreases |q|
  {
    if q == [] then pos == |file|
    else
      var n := Least(k.chunkSize, |q|);
      && pos + OVERHEAD + n <= |file| && ReadFrame(k, file, pos) == Chunk(q[..n], pos + OVERHEAD + n)
      && Holds(k, file, pos + OVERHEAD + n, q[n..])
  }

  lemma {:induction false} FramesHold(k: Cipher, file: seq<byte>, pos: nat, q: seq<byte>, i: nat)
    requires k.Lawful() && pos <= |file| && file[pos..] == Frames(k, q, i)
    ensures Holds(k, file, pos, q)
    decreases |q|
  {
    if q == [] {
    } else {
      var n := Least(k.chunkSize, |q|);
      ReadBack(k, file, pos, i, q[..n], Frames(k, q[n..], i + 1));
      FramesHold(k, file, pos + OVERHEAD + n, q[n..], i + 1);
    }
  }

  ghost predicate Reads(k: Cipher, file: seq<byte>, pos: nat, text: seq<byte>) {
    Plaintext(k, file, pos) == (text, true)
  }

  lemma ReadsChunk(k: Cipher, file: seq<byte>, pos: nat, plain: seq<byte>, next: nat, rest: seq<byte>)
    requires pos + OVERHEAD <= next <= |file| && ReadFrame(k, file, pos) == Chunk(plain, next)
             && Reads(k, file, next, rest)
    ensures Reads(k, file, pos, plain + rest)
  {
  }

  lemma {:induction false} PlaintextOfFrames(k: Cipher, file: seq<byte>, pos: nat, p: seq<byte>)
    requires k.chunkSize > 0 && Holds(k, file, pos, p)
    ensures Reads(k, file, pos, p)
    decreases |p|
  {
    if p == [] {
    } else {
      var n := Least(k.chunkSize, |p|);
      PlaintextOfFrames(k, file, pos + OVERHEAD + n, p[n..]);
      ReadsChunk(k, file, pos, p[..n], pos + OVERHEAD + n, p[n..]);
      assert p[..n] + p[n..] == p;
    }
  }

  lemma EncryptedHolds(k: Cipher, p: seq<byte>)
    requires k.Lawful()
    ensures Holds(k, Encrypted(k, p), 4, p)
  {
    assert Encrypted(k, p)[4..] == Frames(k, p, 0);
    FramesHold(k, Encrypted(k, p), 4, p, 0);
  }

  // Decrypting a blob EncryptStream wrote gives back the plaintext.
  lemma DecryptUndoesEncrypt(k: Cipher, p: seq<byte>)
    requires k.Lawful()
    ensures |Encrypted(k, p)| >= 4 && Encrypted(k, p)[..4] == MAGIC
    ensures Plaintext(k, Encrypted(k, p), 4) == (p, true)
  {
    EncryptedHolds(k, p);
    PlaintextOfFrames(k, Encrypted(k, p), 4, p);
  }

  // ---- sizes and offsets ----

  function ExpectedEncryptedSize(chunkSize: nat, plaintextSize: nat): nat
    requires chunkSize > 0
  {
    if plaintextSize == 0 then |MAGIC|
    else
      var nFull, rem := plaintextSize / chunkSize, plaintextSize % chunkSize;
      |MAGIC| + nFull * (chunkSize + OVERHEAD) + if rem > 0 then rem + OVERHEAD else 0
  }

  lemma FirstFrame(k: Cipher, p: seq<byte>, i: nat)
    requires k.Lawful() && p != []
    ensures var n := Least(k.chunkSize, |p|);
            && |Frame(k, i, p[..n])| == n + OVERHEAD
            && |Frames(k, p, i)| == n + OVERHEAD + |Frames(k, p[n..], i + 1)|
            && Frames(k, p, i)[n + OVERHEAD..] == Frames(k, p[n..], i + 1)
  {
    var n := Least(k.chunkSize, |p|);
    FrameParts(k, i, p[..n], []);
  }

  lemma {:induction false} FramesSize(k: Cipher, p: seq<byte>, i: nat)
    requires k.Lawful()
    ensures |Frames(k, p, i)| == ExpectedEncryptedSize(k.chunkSize, |p|) - |MAGIC|
    decreases |p|
  {
    var cs := k.chunkSize;
    if p == [] {
    } else if |p| < cs {
      FirstFrame(k, p, i);
      DivIsUnique(|p|, cs, 0, |p|);
    } else {
      FirstFrame(k, p, i);
      FramesSize(k, p[cs..], i + 1);
      SizeOfOneMore(cs, |p| - cs);
    }
  }

  lemma SizeOfOneMore(cs: nat, size: nat)
    requires cs > 0
    ensures ExpectedEncryptedSize(cs, size + cs) == ExpectedEncryptedSize(cs, size) + cs + OVERHEAD
  {
    DivPlusMultiple(size, 1, cs);
    var q := size / cs;
    assert (q + 1) * (cs + OVERHEAD) == q * (cs + OVERHEAD) + cs + OVERHEAD;
    if size == 0 { DivIsUnique(0, cs, 0, 0); }
  }

  // The size on disk is exactly the one the range check expects.
  lemma EncryptedSize(k: Cipher, p: seq<byte>)
    requires k.Lawful()
    ensures |Encrypted(k, p)| == ExpectedEncryptedSize(k.chunkSize, |p|)
  {
    FramesSize(k, p, 0);
  }

  // ---- blobs that were cut short ----

  // What the frames of so many bytes take up.
  ghost function FramesLength(cs: nat, size: nat): nat
    requires cs > 0
  {
    if size == 0 then 0
    else if size <= cs then size + OVERHEAD
    else cs + OVERHEAD + FramesLength(cs, size - cs)
  }

  lemma {:induction false} FramesLengthIsExpected(cs: nat, size: nat)
    requires cs > 0
    ensures |MAGIC| + FramesLength(cs, size) == ExpectedEncryptedSize(cs, size)
  {
    if size > cs {
      FramesLengthIsExpected(cs, size - cs);
      SizeOfOneMore(cs, size - cs);
    } else if size == cs {
      SizeOfOneMore(cs, 0);
    } else if size > 0 {
      DivIsUnique(size, cs, 0, size);
    }
  }

  // What the full reader makes of the first `cut` bytes of the frames of q: whole chunks, as many as fit, and
  // an error exactly when a part of a frame is left.
  ghost predicate CutReads(cs: nat, q: seq<byte>, cut: nat, text: seq<byte>, ok: bool)
    requires cs > 0
  {
    && text <= q && FramesLength(cs, |text|) <= cut && (ok <==> cut == FramesLength(cs, |text|))
    && (text == q || cut < FramesLength(cs, Least(|text| + cs, |q|)))
  }

  // A frame that is not all there is an error.
  lemma PartOfFrame(k: Cipher, file: seq<byte>, pos: nat, i: nat, plain: seq<byte>)
    requires k.Lawful() && |plain| < 0x1_0000_0000 && pos < |file|
    requires |file| - pos < |Frame(k, i, plain)| && file[pos..] == Frame(k, i, plain)[..|file| - pos]
    ensures ReadFrame(k, file, pos) == Corrupt
  {
    FrameParts(k, i, plain, []);
    if pos + 4 <= |file| {
      SliceShift(file, pos, 0, 4);
      assert file[pos..][0..4] == Frame(k, i, plain)[..4] == (Frame(k, i, plain) + [])[..4];
    }
  }

  // One whole frame, and the rest cut.
  lemma CutAfterFrame(cs: nat, q: seq<byte>, cut: nat, rest: seq<byte>, ok: bool)
    requires cs > 0 && q != [] && Least(cs, |q|) + OVERHEAD <= cut
    requires CutReads(cs, q[Least(cs, |q|)..], cut - Least(cs, |q|) - OVERHEAD, rest, ok)
    ensures CutReads(cs, q, cut, q[..Least(cs, |q|)] + rest, ok)
  {
    var n := Least(cs, |q|);
    assert q == q[..n] + q[n..];
  }

  lemma CutInFrame(k: Cipher, file: seq<byte>, pos: nat, q: seq<byte>)
    requires k.chunkSize > 0 && pos < |file| && q != [] && |file| - pos < Least(k.chunkSize, |q|) + OVERHEAD
    requires ReadFrame(k, file, pos) == Corrupt
    ensures CutReads(k.chunkSize, q, |file| - pos, Plaintext(k, file, pos).0, Plaintext(k, file, pos).1)
  {
  }

  lemma CutBehindFrame(k: Cipher, file: seq<byte>, pos: nat, q: seq<byte>, next: nat, rest: seq<byte>, ok: bool)
    requires k.chunkSize > 0 && q != [] && next == pos + OVERHEAD + Least(k.chunkSize, |q|) <= |file|
    requires ReadFrame(k, file, pos) == Chunk(q[..Least(k.chunkSize, |q|)], next)
    requires Plaintext(k, file, next) == (rest, ok)
    requires CutReads(k.chunkSize, q[Least(k.chunkSize, |q|)..], |file| - next, rest, ok)
    ensures CutReads(k.chunkSize, q, |file| - pos, Plaintext(k, file, pos).0, Plaintext(k, file, pos).1)
  {
    CutAfterFrame(k.chunkSize, q, |file| - pos, rest, ok);
  }

  // The file from pos on is the beginning of a frame, or the frame and the beginning of what follows it.
  lemma CutSplits(k: Cipher, file: seq<byte>, pos: nat, q: seq<byte>, i: nat)
    requires k.Lawful() && pos < |file| && q != [] && |file| - pos <= |Frames(k, q, i)|
    requires file[pos..] == Frames(k, q, i)[..|file| - pos]
    ensures var n, cut := Least(k.chunkSize, |q|), |file| - pos;
            var frame, rest := Frame(k, i, q[..n]), Frames(k, q[n..], i + 1);
            && |frame| == n + OVERHEAD
            && (cut < |frame| ==> file[pos..] == frame[..cut])
            && (cut >= |frame| ==> cut - |frame| <= |rest| && file[pos..] == frame + rest[..cut - |frame|])
  {
    var n := Least(k.chunkSize, |q|);
    FirstFrame(k, q, i);
    CutOfTwo(Frame(k, i, q[..n]), Frames(k, q[n..], i + 1), |file| - pos);
  }

  lemma {:induction false} CutFrames(k: Cipher, file: seq<byte>, pos: nat, q: seq<byte>, i: nat)
    requires k.Lawful() && pos <= |file| && |file| - pos <= |Frames(k, q, i)|
    requires file[pos..] == Frames(k, q, i)[..|file| - pos]
    ensures CutReads(k.chunkSize, q, |file| - pos, Plaintext(k, file, pos).0, Plaintext(k, file, pos).1)
    decreases |q|
  {
    if q == [] || pos == |file| {
    } else {
      var n, cut := Least(k.chunkSize, |q|), |file| - pos;
      CutSplits(k, file, pos, q, i);
      if cut < n + OVERHEAD {
        PartOfFrame(k, file, pos, i, q[..n]);
        CutInFrame(k, file, pos, q);
      } else {
        var next := pos + OVERHEAD + n;
        ReadBack(k, file, pos, i, q[..n], Frames(k, q[n..], i + 1)[..cut - n - OVERHEAD]);
        CutFrames(k, file, next, q[n..], i + 1);
        CutBehindFrame(k, file, pos, q, next, Plaintext(k, file, next).0, Plaintext(k, file, next).1);
      }
    }
  }

  lemma CutOfTwo(a: seq<byte>, b: seq<byte>, cut: nat)
    requires cut <= |a| + |b|
    ensures (a + b)[..cut] == if cut < |a| then a[..cut] else a + b[..cut - |a|]
  {
  }

  // However a blob is cut short, the full reader gives the whole chunks that are left and reports an error if
  // and only if the cut is not between two frames: a blob cut there reads as a shorter file.
  lemma CutBlobReads(k: Cipher, p: seq<byte>, length: nat)
    requires k.Lawful() && |MAGIC| <= length <= |Encrypted(k, p)|
    ensures var file := Encrypted(k, p)[..length];
            var text := Plaintext(k, file, 4).0;
            && |file| >= 4 && file[..4] == MAGIC
            && text <= p && ExpectedEncryptedSize(k.chunkSize, |text|) <= length
            && (text == p || length < ExpectedEncryptedSize(k.chunkSize, Least(|text| + k.chunkSize, |p|)))
            && (Plaintext(k, file, 4).1 <==> length == ExpectedEncryptedSize(k.chunkSize, |text|))
  {
    var file := Encrypted(k, p)[..length];
    assert file[4..] == Frames(k, p, 0)[..length - 4];
    CutFrames(k, file, 4, p, 0);
    CutInSizes(k.chunkSize, p, length - 4, Plaintext(k, file, 4).0, Plaintext(k, file, 4).1);
  }

  lemma CutInSizes(cs: nat, p: seq<byte>, cut: nat, text: seq<byte>, ok: bool)
    requires cs > 0 && CutReads(cs, p, cut, text, ok)
    ensures ExpectedEncryptedSize(cs, |text|) <= cut + 4
    ensures text == p || cut + 4 < ExpectedEncryptedSize(cs, Least(|text| + cs, |p|))
    ensures ok <==> cut + 4 == ExpectedEncryptedSize(cs, |text|)
  {
    FramesLengthIsExpected(cs, |text|);
    FramesLengthIsExpected(cs, Least(|text| + cs, |p|));
  }

  function Times(c: nat, x: nat): nat {
    if c == 0 then 0 else Times(c - 1, x) + x
  }

  lemma {:induction false} TimesIsProduct(c: nat, x: nat)
    ensures Times(c, x) == c * x
  {
    if c > 0 {
      TimesIsProduct(c - 1, x);
      assert c * x == (c - 1) * x + x;
    }
  }

  lemma HoldsNext(k: Cipher, file: seq<byte>, pos: nat, q: seq<byte>, next: nat, rest: seq<byte>)
    requires k.chunkSize > 0 && Holds(k, file, pos, q) && k.chunkSize <= |q|
    requires next == pos + k.chunkSize + OVERHEAD && rest == q[k.chunkSize..]
    ensures Holds(k, file, next, rest)
  {
  }

  lemma TimesNext(c: nat, x: nat)
    requires c > 0
    ensures Times(c, x) == Times(c - 1, x) + x
  {
  }

  // Skipping c full chunks of plaintext is skipping c full frames on disk.
  lemma {:induction false} SkipFrames(k: Cipher, file: seq<byte>, pos: nat, q: seq<byte>, c: nat, to: nat,
                                      rest: seq<byte>)
    requires k.chunkSize > 0 && Holds(k, file, pos, q) && Times(c, k.chunkSize) <= |q|
    requires to == pos + Times(c, k.chunkSize + OVERHEAD) && rest == q[Times(c, k.chunkSize)..]
    ensures Holds(k, file, to, rest)
    decreases c
  {
    if c == 0 {
      assert rest == q;
    } else {
      var done, before := Times(c - 1, k.chunkSize), pos + Times(c - 1, k.chunkSize + OVERHEAD);
      TimesNext(c, k.chunkSize);
      TimesNext(c, k.chunkSize + OVERHEAD);
      DropDrop(q, done, k.chunkSize);
      SkipFrames(k, file, pos, q, c - 1, before, q[done..]);
      HoldsNext(k, file, before, q[done..], to, rest);
    }
  }

  lemma DropDrop(q: seq<byte>, a: nat, b: nat)
    requires a + b <= |q|
    ensures q[a..][b..] == q[a+b..] && q[0..] == q
  {
  }

  // Where the range reader seeks to, and what it then has to skip.
  lemma SeekParts(cs: nat, start: nat)
    requires cs > 0
    ensures Times(start / cs, cs) + start % cs == start
    ensures SeekPosition(cs, start / cs) == 4 + Times(start / cs, cs + OVERHEAD)
  {
    TimesIsProduct(start / cs, cs);
    TimesIsProduct(start / cs, cs + OVERHEAD);
  }

  // ---- the seeking reader ----

  // What the chunk loop writes from pos on, dropping `skip` bytes of the first chunk, and whether it
  // gets all of `remaining`.
  function RangeText(k: Cipher, file: seq<byte>, pos: nat, skip: nat, remaining: nat): (seq<byte>, bool)
    decreases |file| - pos
  {
    if remaining == 0 then ([], true)
    else
      match ReadFrame(k, file, pos)
      case End => ([], false)
      case Corrupt => ([], false)
      case Chunk(plain, next) =>
        if skip > |plain| then ([], false)
        else
          var piece := plain[skip..][..Least(|plain| - skip, remaining)];
          var (rest, ok) := RangeText(k, file, next, 0, remaining - |piece|);
          (piece + rest, ok)
  }

  // The loop's position: what is written so far, followed by what is left, is `total`.
  ghost predicate Midway(k: Cipher, file: seq<byte>, pos: nat, skip: nat, remaining: nat, written: seq<byte>,
                         total: (seq<byte>, bool))
  {
    var left := RangeText(k, file, pos, skip, remaining);
    written + left.0 == total.0 && left.1 == total.1
  }

  ghost function Total(k: Cipher, file: seq<byte>, pos: nat, skip: nat, remaining: nat,
                       before: seq<byte>): (seq<byte>, bool)
  {
    (before + RangeText(k, file, pos, skip, remaining).0, RangeText(k, file, pos, skip, remaining).1)
  }

  ghost predicate Wrote(k: Cipher, file: seq<byte>, pos: nat, skip: nat, remaining: nat, before: seq<byte>,
                        after: seq<byte>, ok: bool)
  {
    (after, ok) == Total(k, file, pos, skip, remaining, before)
  }

  lemma MidwayEnd(k: Cipher, file: seq<byte>, pos: nat, skip: nat, written: seq<byte>, total: (seq<byte>, bool))
    requires Midway(k, file, pos, skip, 0, written, total)
    ensures total == (written, true)
  {
    assert written + [] == written;
  }

  lemma MidwayNext(k: Cipher, file: seq<byte>, pos: nat, skip: nat, remaining: nat, written: seq<byte>,
                   total: (seq<byte>, bool))
    requires Midway(k, file, pos, skip, remaining, written, total) && remaining > 0
    ensures var r := ReadFrame(k, file, pos);
            if r.Chunk? && skip <= |r.plain| then
              var piece := Piece(r.plain, skip, remaining);
              Midway(k, file, r.next, 0, remaining - |piece|, written + piece, total)
            else total == (written, false)
  {
    var r := ReadFrame(k, file, pos);
    if r.Chunk? && skip <= |r.plain| {
      var piece := r.plain[skip..][..Least(|r.plain| - skip, remaining)];
      var rest := RangeText(k, file, r.next, 0, remaining - |piece|).0;
      assert written + (piece + rest) == (written + piece) + rest;
    } else {
      assert written + [] == written;
    }
  }

  // The part of a chunk that belongs to the range.
  function Piece(plain: seq<byte>, skip: nat, remaining: nat): seq<byte>
    requires skip <= |plain|
  {
    plain[skip..][..Least(|plain| - skip, remaining)]
  }

  lemma PieceInSteps(plain: seq<byte>, skip: nat, remaining: nat)
    requires skip <= |plain|
    ensures var rest := plain[skip..];
            Piece(plain, skip, remaining) == (if |rest| > remaining then rest[..remaining] else rest)
              && plain[0..] == plain
  {
  }

  method ReadRange(k: Cipher, file: seq<byte>, dst: Sink, seek: nat, skip: nat, length: nat) returns (ok: bool)
    modifies dst
    ensures Wrote(k, file, seek, skip, length, old(dst.data), dst.data, ok)
  {
    var pos: nat, remaining: nat, first := seek, length, true;
    ghost var total, written, drop := Total(k, file, seek, skip, length, dst.data), dst.data, skip;
    while remaining > 0
      invariant dst.data == written && drop == (if first then skip else 0)
      invariant Midway(k, file, pos, drop, remaining, written, total)
      decreases |file| - pos
    {
      MidwayNext(k, file, pos, drop, remaining, written, total);
      var frame := ReadFrame(k, file, pos);
      if !frame.Chunk? {
        return false;
      }
      var plain := frame.plain;
      if first {
        if skip > |plain| {
          return false;
        }
        plain := plain[skip..];
        first := false;
      }
      PieceInSteps(frame.plain, drop, remaining);
      if |plain| > remaining {
        plain := plain[..remaining];
      }
      dst.Write(plain);
      written, drop := written + plain, 0;
      remaining := remaining - |plain|;
      pos := frame.next;
    }
    MidwayEnd(k, file, pos, drop, written, total);
    ok := true;
  }

  method DecryptRangeToWriter(k: Cipher, file: seq<byte>, dst: Sink, start: int, length: int, plaintextSize: int)
    returns (r: Outcome)
    requires 0 < k.chunkSize < 0x1_0000_0000 && |file| < INT64_LIMIT
    requires IsInt64(start) && IsInt64(length) && IsInt64(plaintextSize)
    modifies dst
    ensures r == OutOfBounds <==> !PassesBounds(start, length, plaintextSize)
    ensures PassesBounds(start, length, plaintextSize) && length > 0 ==>
              (r == NonUniform <==> !AcceptsLayout(k.chunkSize, file, plaintextSize))
    ensures r.OutOfBounds? || r.NonUniform? || length == 0 ==> dst.data == old(dst.data)
    ensures PassesBounds(start, length, plaintextSize) && length > 0
            && AcceptsLayout(k.chunkSize, file, plaintextSize) ==>
              (dst.data, r)
                == (old(dst.data) + Range64(k, file, start, length).0,
                if Range64(k, file, start, length).1 then Done else IOError)
    ensures PassesBounds(start, length, plaintextSize) && length == 0 ==> r == Done
  {
    if start < 0 || length < 0 || Wrap64(start + length) > plaintextSize {
      return OutOfBounds;
    }
    if length == 0 {
      return Done;
    }
    if |file| != ExpectedSize64(k.chunkSize, plaintextSize) {
      return NonUniform;
    }
    assert dst.data + [] == dst.data;
    if |file| < 4 {
      return IOError;
    }
    if file[..4] != MAGIC {
      return NonUniform;
    }
    DivIsNat(start, k.chunkSize);
    var startChunk := start / k.chunkSize;
    var skip := start % k.chunkSize;
    var diskPos := Wrap64(SeekPosition(k.chunkSize, startChunk));
    if diskPos < 0 {
      return IOError;
    }
    var ok := ReadRange(k, file, dst, diskPos, skip, length);
    r := if ok then Done else IOError;
  }

  // The bounds test as the program computes it, and as it is meant.
  predicate PassesBounds(start: int, length: int, size: int) {
    0 <= start && 0 <= length && Wrap64(start + length) <= size
  }

  predicate InBounds(start: int, length: int, size: int) {
    0 <= start && 0 <= length && start + length <= size
  }

  // The two agree exactly when the end of the range fits in 64 bits; past that every range passes.
  lemma BoundsAgree(start: int, length: int, size: int)
    requires IsInt64(start) && IsInt64(length) && 0 <= size < INT64_LIMIT
    ensures InBounds(start, length, size) ==> PassesBounds(start, length, size)
    ensures (PassesBounds(start, length, size) ==> InBounds(start, length, size)) <==>
              (0 <= start && 0 <= length ==> start + length < INT64_LIMIT)
  {
    if start + length >= INT64_LIMIT {
      DivIsUnique(start + length + INT64_LIMIT, 2 * INT64_LIMIT, 1, start + length - INT64_LIMIT);
    }
  }

  // A one-byte range at the largest position passes for a file of any size.
  lemma BoundsWrap(size: nat)
    requires size < INT64_LIMIT
    ensures PassesBounds(INT64_LIMIT - 1, 1, size) && !InBounds(INT64_LIMIT - 1, 1, size)
  {
    BoundsAgree(INT64_LIMIT - 1, 1, size);
  }

  // The expected size in 64 bits, where division rounds towards zero.
  function ExpectedSize64(chunkSize: nat, plaintextSize: int): int
    requires chunkSize > 0
  {
    Wrap64(if plaintextSize >= 0 then ExpectedEncryptedSize(chunkSize, plaintextSize)
           else |MAGIC| - (-plaintextSize / chunkSize) * (chunkSize + OVERHEAD))
  }

  // The file has the expected size, and the magic unless it is too short for one.
  predicate AcceptsLayout(chunkSize: nat, file: seq<byte>, plaintextSize: int)
    requires chunkSize > 0
  {
    |file| == ExpectedSize64(chunkSize, plaintextSize) && (|file| < 4 || MAGIC <= file)
  }

  function Range64(k: Cipher, file: seq<byte>, start: nat, length: nat): (seq<byte>, bool)
    requires k.chunkSize > 0
  {
    var pos := Wrap64(SeekPosition(k.chunkSize, start / k.chunkSize));
    if |file| < 4 || pos < 0 then ([], false) else RangeText(k, file, pos, start % k.chunkSize, length)
  }

  lemma SeekInFile(chunkSize: nat, start: nat, size: nat)
    requires chunkSize > 0 && start < size
    ensures SeekPosition(chunkSize, start / chunkSize) <= ExpectedEncryptedSize(chunkSize, size)
  {
    DivMonotone(start, size, chunkSize);
    MulMonotone(OVERHEAD + chunkSize, start / chunkSize, size / chunkSize);
  }

  // Within bounds, for a file of the right size, nothing wraps around.
  lemma FitsIn64(k: Cipher, file: seq<byte>, start: nat, length: nat, size: nat)
    requires k.chunkSize > 0 && 0 < length && InBounds(start, length, size) && size < INT64_LIMIT
    requires Uniform(k.chunkSize, file, size) && |file| < INT64_LIMIT
    ensures PassesBounds(start, length, size) && AcceptsLayout(k.chunkSize, file, size)
    ensures Range64(k, file, start, length) == Range(k, file, start, length)
  {
    SeekInFile(k.chunkSize, start, size);
    ExpectedHasMagic(k.chunkSize, size);
  }

  predicate Uniform(chunkSize: nat, file: seq<byte>, plaintextSize: nat)
    requires chunkSize > 0
  {
    |file| == ExpectedEncryptedSize(chunkSize, plaintextSize) && MAGIC <= file
  }

  lemma ExpectedHasMagic(chunkSize: nat, size: nat)
    requires chunkSize > 0
    ensures ExpectedEncryptedSize(chunkSize, size) >= 4
  {
    MulMonotone(chunkSize + OVERHEAD, 0, size / chunkSize);
  }

  function SeekPosition(chunkSize: nat, chunk: nat): nat {
    4 + chunk * (OVERHEAD + chunkSize)
  }

  function Range(k: Cipher, file: seq<byte>, start: nat, length: nat): (seq<byte>, bool)
    requires k.chunkSize > 0
  {
    RangeText(k, file, SeekPosition(k.chunkSize, start / k.chunkSize), start % k.chunkSize, length)
  }

  ghost predicate Yields(k: Cipher, file: seq<byte>, pos: nat, skip: nat, remaining: nat, text: seq<byte>) {
    RangeText(k, file, pos, skip, remaining) == (text, true)
  }

  lemma YieldsChunk(k: Cipher, file: seq<byte>, pos: nat, skip: nat, remaining: nat, plain: seq<byte>, next: nat,
                    rest: seq<byte>)
    requires remaining > 0 && skip <= |plain| && pos + OVERHEAD <= next <= |file|
             && ReadFrame(k, file, pos) == Chunk(plain, next)
    requires var m := Least(|plain| - skip, remaining); Yields(k, file, next, 0, remaining - m, rest)
    ensures var m := Least(|plain| - skip, remaining); Yields(k, file, pos, skip, remaining, plain[skip..][..m] + rest)
  {
  }

  lemma {:induction false} RangeOfFrames(k: Cipher, file: seq<byte>, pos: nat, q: seq<byte>, skip: nat, remaining: nat)
    requires k.chunkSize > 0 && Holds(k, file, pos, q)
    requires skip < k.chunkSize && skip + remaining <= |q|
    ensures Yields(k, file, pos, skip, remaining, q[skip..skip+remaining])
    decreases |q|
  {
    if remaining == 0 {
      assert q[skip..skip+remaining] == [];
    } else {
      var n := Least(k.chunkSize, |q|);
      var rest := remaining - Least(n - skip, remaining);
      RangeOfFrames(k, file, pos + OVERHEAD + n, q[n..], 0, rest);
      YieldsSlice(k, file, pos, skip, remaining, q, n, pos + OVERHEAD + n);
    }
  }

  lemma YieldsSlice(k: Cipher, file: seq<byte>, pos: nat, skip: nat, remaining: nat, q: seq<byte>, n: nat, next: nat)
    requires remaining > 0 && skip <= n <= |q| && skip + remaining <= |q|
    requires pos + OVERHEAD <= next <= |file| && ReadFrame(k, file, pos) == Chunk(q[..n], next)
    requires var rest := remaining - Least(n - skip, remaining); Yields(k, file, next, 0, rest, q[n..][0..rest])
    ensures Yields(k, file, pos, skip, remaining, q[skip..skip+remaining])
  {
    var rest := remaining - Least(n - skip, remaining);
    YieldsChunk(k, file, pos, skip, remaining, q[..n], next, q[n..][0..rest]);
    SliceAcross(q, n, skip, remaining);
  }

  lemma SliceAcross(q: seq<byte>, n: nat, skip: nat, remaining: nat)
    requires skip <= n <= |q| && skip + remaining <= |q|
    ensures var m := Least(n - skip, remaining);
            |q[..n][skip..]| == n - skip
            && q[skip..skip+remaining] == q[..n][skip..][..m] + q[n..][0..remaining-m]
  {
  }

  // On a blob EncryptStream wrote, seeking to a range writes exactly that slice of what decrypting
  // the whole blob writes.
  lemma RangeIsSliceOfWhole(k: Cipher, p: seq<byte>, start: nat, length: nat)
    requires k.Lawful() && 0 < length && start + length <= |p|
    ensures Uniform(k.chunkSize, Encrypted(k, p), |p|)
    ensures |Plaintext(k, Encrypted(k, p), 4).0| == |p|
    ensures Range(k, Encrypted(k, p), start, length) == (Plaintext(k, Encrypted(k, p), 4).0[start..start+length], true)
  {
    EncryptedSize(k, p);
    DecryptUndoesEncrypt(k, p);
    RangeIsSlice(k, p, start, length);
  }

  lemma RangeIsSlice(k: Cipher, p: seq<byte>, start: nat, length: nat)
    requires k.Lawful() && 0 < length && start + length <= |p|
    ensures Range(k, Encrypted(k, p), start, length) == (p[start..start+length], true)
  {
    SeekParts(k.chunkSize, start);
    RangeAfterSkip(k, p, start, length, start / k.chunkSize, start % k.chunkSize);
  }

  lemma RangeAfterSkip(k: Cipher, p: seq<byte>, start: nat, length: nat, c: nat, skip: nat)
    requires k.Lawful() && skip < k.chunkSize && Times(c, k.chunkSize) + skip == start && start + length <= |p|
    ensures Yields(k, Encrypted(k, p), 4 + Times(c, k.chunkSize + OVERHEAD), skip, length, p[start..start+length])
  {
    var off, to := Times(c, k.chunkSize), 4 + Times(c, k.chunkSize + OVERHEAD);
    RestHolds(k, p, c, to, p[off..]);
    SliceOfRest(p, off, skip, length);
    RangeOfFrames(k, Encrypted(k, p), to, p[off..], skip, length);
  }

  lemma RestHolds(k: Cipher, p: seq<byte>, c: nat, to: nat, rest: seq<byte>)
    requires k.Lawful() && Times(c, k.chunkSize) <= |p|
    requires to == 4 + Times(c, k.chunkSize + OVERHEAD) && rest == p[Times(c, k.chunkSize)..]
    ensures Holds(k, Encrypted(k, p), to, rest)
  {
    EncryptedHolds(k, p);
    SkipFrames(k, Encrypted(k, p), 4, p, c, to, rest);
  }

  lemma SliceOfRest(p: seq<byte>, off: nat, skip: nat, length: nat)
    requires off + skip + length <= |p|
    ensures p[off..][skip..skip+length] == p[off+skip..off+skip+length]
  {
  }
}
