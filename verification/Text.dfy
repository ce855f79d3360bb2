/** Go's whitespace, on strings. */
module Text {

  // unicode.IsSpace
  predicate IsSpace(c: char) {
    var n := c as int;
    (9 <= n <= 13) || n == 32 || n == 0x85 || n == 0xA0 || n == 0x1680 || (0x2000 <= n <= 0x200A)
    || n == 0x2028 || n == 0x2029 || n == 0x202F || n == 0x205F || n == 0x3000
  }

  // The control characters, the blank, and the white space beyond ASCII.
  lemma SpaceCharacters(c: char)
    ensures IsSpace(c) <==> c as int in {9, 10, 11, 12, 13, 32, 133, 160, 5760, 8192, 8193, 8194, 8195, 8196, 8197,
                                         8198, 8199, 8200, 8201, 8202, 8232, 8233, 8239, 8287, 12288}
  {
  }

  predicate Blank(s: string) {
    forall i :: 0 <= i < |s| ==> IsSpace(s[i])
  }

  function TrimLeft(s: string): string {
    if s != [] && IsSpace(s[0]) then TrimLeft(s[1..]) else s
  }

  function TrimRight(s: string): string {
    if s != [] && IsSpace(s[|s|-1]) then TrimRight(s[..|s|-1]) else s
  }

  function TrimSpace(s: string): string {
    TrimRight(TrimLeft(s))
  }

  // Trimming takes blanks off both ends, all of them and nothing else.
  lemma {:induction false} TrimTakesBlanks(s: string) returns (left: string, right: string)
    ensures s == left + TrimSpace(s) + right && Blank(left) && Blank(right)
    ensures var t := TrimSpace(s); t != "" ==> !IsSpace(t[0]) && !IsSpace(t[|t|-1])
  {
    left := TrimLeftTakesBlanks(s);
    right := TrimRightTakesBlanks(TrimLeft(s));
    var t := TrimSpace(s);
    assert s == left + (t + right) == left + t + right;
    if t != "" { assert t[0] == TrimLeft(s)[0]; }
  }

  lemma {:induction false} TrimLeftTakesBlanks(s: string) returns (left: string)
    ensures s == left + TrimLeft(s) && Blank(left) && (TrimLeft(s) != "" ==> !IsSpace(TrimLeft(s)[0]))
    decreases |s|
  {
    left := "";
    if s != "" && IsSpace(s[0]) {
      var rest := TrimLeftTakesBlanks(s[1..]);
      left := [s[0]] + rest;
    }
  }

  lemma {:induction false} TrimRightTakesBlanks(s: string) returns (right: string)
    ensures s == TrimRight(s) + right && Blank(right)
    ensures TrimRight(s) != "" ==> !IsSpace(TrimRight(s)[|TrimRight(s)|-1])
    decreases |s|
  {
    right := "";
    if s != "" && IsSpace(s[|s|-1]) {
      var rest := TrimRightTakesBlanks(s[..|s|-1]);
      right := rest + [s[|s|-1]];
      assert s == s[..|s|-1] + [s[|s|-1]] == TrimRight(s) + rest + [s[|s|-1]];
    }
  }
}
