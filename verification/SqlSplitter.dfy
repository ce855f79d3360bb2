/** The migration runner's statement splitter. */
module SqlSplitter {
  import opened Text

  // Where a left-to-right reader of SQL text stands, one character at a time and without lookahead.
  datatype Mode =
    | Top
    | Dash                // top level, just after one '-'
    | Quoted(quote: char)
    | Escaped(quote: char) // inside a literal, just after a backslash
    | Comment
  {
    predicate TopLevel() { Top? || Dash? }
  }

  predicate IsQuote(c: char) {
    c == '\'' || c == '"' || c == '`'
  }

  function Next(m: Mode, c: char): Mode {
    match m
    case Quoted(q) => if c == '\\' then Escaped(q) else if c == q then Top else m
    case Escaped(q) => Quoted(q)
    case Comment => if c == '\n' then Top else Comment
    case _ => if IsQuote(c) then Quoted(c) else if c != '-' then Top else if m.Dash? then Comment else Dash
  }

  function ModeAfter(s: string): Mode {
    if s == [] then Top else Next(ModeAfter(s[..|s|-1]), s[|s|-1])
  }

  function DropLast(s: string): string {
    if s == [] then [] else s[..|s|-1]
  }

  // What reading c in mode m does to the text kept so far.
  function Keep(m: Mode, text: string, c: char): string {
    if m.Comment? then (if c == '\n' then text + ['\n'] else text)
    else if m.Dash? && c == '-' then DropLast(text)  // the first dash already belonged to the comment
    else text + [c]
  }

  function KeptFrom(s: string): string {
    if s == [] then [] else Keep(ModeAfter(s[..|s|-1]), KeptFrom(s[..|s|-1]), s[|s|-1])
  }

  // The text with every top-level line comment, and the newline that ends it, replaced by a newline.
  function StripComments(s: string): string {
    KeptFrom(s) + if ModeAfter(s).Comment? then "\n" else ""
  }

  datatype Pieces = Pieces(done: seq<string>, open: string)

  function Read(m: Mode, p: Pieces, c: char): Pieces {
    if m.TopLevel() && c == ';' then Pieces(p.done + [p.open], [])
    else Pieces(p.done, Keep(m, p.open, c))
  }

  function ReadAll(s: string): Pieces {
    if s == [] then Pieces([], []) else Read(ModeAfter(s[..|s|-1]), ReadAll(s[..|s|-1]), s[|s|-1])
  }

  function Rest(s: string): string {
    ReadAll(s).open + if ModeAfter(s).Comment? then "\n" else ""
  }

  function Split(s: string): seq<string> {
    ReadAll(s).done + if Blank(Rest(s)) then [] else [Rest(s)]
  }

  // ---- literals ----

  lemma {:induction false} InsideLiteral(quote: char, body: string)
    requires quote in {'\'', '"', '`'} && quote !in body && '\\' !in body
    ensures ModeAfter([quote] + body) == Quoted(quote) && ReadAll([quote] + body) == Pieces([], [quote] + body)
    decreases |body|
  {
    var s := [quote] + body;
    if body == "" {
      assert s[..|s|-1] == "" && ModeAfter("") == Top && ReadAll("") == Pieces([], []);
      assert [] + [quote] == s;
    } else {
      InsideLiteral(quote, body[..|body|-1]);
      assert s[..|s|-1] == [quote] + body[..|body|-1] && s[|s|-1] == body[|body|-1] && body[|body|-1] in body;
      assert [quote] + body[..|body|-1] + [body[|body|-1]] == s;
    }
  }

  // Between single quotes, double quotes or backticks nothing splits and nothing is a comment.
  lemma LiteralIsOnePiece(quote: char, body: string)
    requires quote in {'\'', '"', '`'} && quote !in body && '\\' !in body
    ensures Split([quote] + body + [quote]) == [[quote] + body + [quote]]
  {
    var s := [quote] + body + [quote];
    InsideLiteral(quote, body);
    assert s[..|s|-1] == [quote] + body;
    assert Rest(s) == s + "" == s && !IsSpace(s[0]);
  }

  // ---- the loop ----

  lemma ReadOne(s: string, i: nat)
    requires i < |s|
    ensures ModeAfter(s[..i+1]) == Next(ModeAfter(s[..i]), s[i])
    ensures ReadAll(s[..i+1]) == Read(ModeAfter(s[..i]), ReadAll(s[..i]), s[i])
  {
    assert s[..i+1][..i] == s[..i];
  }

  // Position i is where the loop body may start: not inside a comment, nor between the two
  // characters of an escape or of a comment opener.
  ghost predicate AtBoundary(s: string, i: nat, quote: char)
    requires i <= |s|
  {
    var m := ModeAfter(s[..i]);
    if quote != '\0' then m == Quoted(quote)
    else m.TopLevel() && (m.Dash? && i < |s| ==> s[i] != '-')
  }

  lemma CommentOpens(s: string, i: nat)
    requires i + 1 < |s| && AtBoundary(s, i, '\0') && s[i] == '-' && s[i+1] == '-'
    ensures ModeAfter(s[..i+2]) == Comment && ReadAll(s[..i+2]) == ReadAll(s[..i])
  {
    ReadOne(s, i);
    ReadOne(s, i + 1);
  }

  // Skips to the end of the comment that opens at i.
  method SkipComment(s: string, i: nat) returns (j: nat)
    requires i + 1 < |s| && AtBoundary(s, i, '\0') && s[i] == '-' && s[i+1] == '-'
    ensures i < j <= |s| && (j < |s| ==> s[j] == '\n')
    ensures ModeAfter(s[..j]) == Comment && ReadAll(s[..j]) == ReadAll(s[..i])
  {
    CommentOpens(s, i);
    j := i;
    while j < |s| && s[j] != '\n'
      invariant i <= j <= |s|
      invariant j >= i + 2 ==> ModeAfter(s[..j]) == Comment && ReadAll(s[..j]) == ReadAll(s[..i])
    {
      if j >= i + 2 { ReadOne(s, j); }
      j := j + 1;
    }
  }

  lemma EscapeReadsTwo(s: string, i: nat, quote: char)
    requires i + 1 < |s| && quote != '\0' && AtBoundary(s, i, quote) && s[i] == '\\'
    ensures AtBoundary(s, i + 2, quote)
    ensures ReadAll(s[..i+2]) == Pieces(ReadAll(s[..i]).done, ReadAll(s[..i]).open + [s[i], s[i+1]])
  {
    ReadOne(s, i);
    ReadOne(s, i + 1);
  }

  // The loop stands at i, in a literal if quote is not 0, with these statements and this open piece.
  ghost predicate At(s: string, i: nat, quote: char, out: seq<string>, b: string) {
    && i <= |s| && out == ReadAll(s[..i]).done
    && (if i < |s| then AtBoundary(s, i, quote) && b == ReadAll(s[..i]).open else b == Rest(s))
  }

  lemma LiteralStep(s: string, i: nat, quote: char, out: seq<string>, b: string)
    requires i < |s| && At(s, i, quote, out, b) && quote != '\0' && !(s[i] == '\\' && i + 1 < |s|)
    ensures At(s, i + 1, if s[i] == quote then '\0' else quote, out, b + [s[i]])
  {
    ReadOne(s, i);
    assert s[..|s|] == s;
  }

  lemma EscapeStep(s: string, i: nat, quote: char, out: seq<string>, b: string)
    requires i + 1 < |s| && At(s, i, quote, out, b) && quote != '\0' && s[i] == '\\'
    ensures At(s, i + 2, quote, out, b + [s[i]] + [s[i+1]])
  {
    EscapeReadsTwo(s, i, quote);
    assert s[..|s|] == s;
  }

  lemma QuoteStep(s: string, i: nat, out: seq<string>, b: string)
    requires i < |s| && At(s, i, '\0', out, b) && IsQuote(s[i])
    ensures At(s, i + 1, s[i], out, b + [s[i]])
  {
    ReadOne(s, i);
    assert s[..|s|] == s;
  }

  lemma CommentStep(s: string, i: nat, j: nat, out: seq<string>, b: string)
    requires i < |s| && At(s, i, '\0', out, b) && i < j <= |s| && (j < |s| ==> s[j] == '\n')
    requires ModeAfter(s[..j]) == Comment && ReadAll(s[..j]) == ReadAll(s[..i])
    ensures At(s, if j < |s| then j + 1 else j, '\0', out, b + ['\n'])
  {
    if j < |s| { ReadOne(s, j); }
    assert s[..|s|] == s;
  }

  lemma SemicolonStep(s: string, i: nat, out: seq<string>, b: string)
    requires i < |s| && At(s, i, '\0', out, b) && s[i] == ';'
    ensures At(s, i + 1, '\0', out + [b], [])
  {
    ReadOne(s, i);
    assert s[..|s|] == s;
  }

  lemma PlainStep(s: string, i: nat, out: seq<string>, b: string)
    requires i < |s| && At(s, i, '\0', out, b) && !IsQuote(s[i]) && s[i] != ';'
    requires !(s[i] == '-' && i + 1 < |s| && s[i+1] == '-')
    ensures At(s, i + 1, '\0', out, b + [s[i]])
  {
    ReadOne(s, i);
    assert s[..|s|] == s;
  }

  method SplitSql(s: string) returns (out: seq<string>)
    ensures out == Split(s)
  {
    out := [];
    var b: string := [];
    var quote := '\0';
    var i := 0;
    while i < |s|
      invariant 0 <= i <= |s| && At(s, i, quote, out, b)
    {
      var c := s[i];
      if quote != '\0' {
        ghost var before := b;
        b := b + [c];
        if c == '\\' && i + 1 < |s| {
          EscapeStep(s, i, quote, out, before);
          b := b + [s[i+1]];
          i := i + 2;
          continue;
        }
        LiteralStep(s, i, quote, out, before);
        if c == quote {
          quote := '\0';
        }
      } else if IsQuote(c) {
        QuoteStep(s, i, out, b);
        quote := c;
        b := b + [c];
      } else if c == '-' && i + 1 < |s| && s[i+1] == '-' {
        var j := SkipComment(s, i);
        CommentStep(s, i, j, out, b);
        b := b + ['\n'];
        i := if j < |s| then j + 1 else j;
        continue;
      } else if c == ';' {
        SemicolonStep(s, i, out, b);
        out := out + [b];
        b := [];
      } else {
        PlainStep(s, i, out, b);
        b := b + [c];
      }
      i := i + 1;
    }
    assert s[..i] == s;
    if !Blank(b) {
      out := out + [b];
    }
  }

  // ---- splitting loses nothing but comments ----

  function Join(pieces: seq<string>): string {
    if pieces == [] then [] else if |pieces| == 1 then pieces[0]
    else Join(pieces[..|pieces|-1]) + ";" + pieces[|pieces|-1]
  }

  lemma JoinSnoc(done: seq<string>, last: string)
    ensures Join(done + [last]) == if done == [] then last else Join(done) + ";" + last
  {
    assert (done + [last])[..|done|] == done;
  }

  lemma {:induction false} DashIsKept(s: string)
    requires ModeAfter(s).Dash?
    ensures |ReadAll(s).open| > 0
  {
    assert ReadAll(s) == Read(ModeAfter(s[..|s|-1]), ReadAll(s[..|s|-1]), s[|s|-1]);
  }

  lemma KeepInLast(done: seq<string>, open: string, m: Mode, c: char)
    requires m.Dash? ==> open != []
    ensures Join(done + [Keep(m, open, c)]) == Keep(m, Join(done + [open]), c)
  {
    JoinSnoc(done, open);
    JoinSnoc(done, Keep(m, open, c));
    if done != [] && m.Dash? && c == '-' {
      assert DropLast(Join(done) + ";" + open) == Join(done) + ";" + DropLast(open);
    }
  }

  lemma {:induction false} JoinedPiecesAreKept(s: string)
    ensures Join(ReadAll(s).done + [ReadAll(s).open]) == KeptFrom(s)
  {
    if s != [] {
      var init, c := s[..|s|-1], s[|s|-1];
      var m, p := ModeAfter(init), ReadAll(init);
      JoinedPiecesAreKept(init);
      if m.TopLevel() && c == ';' {
        JoinSnoc(p.done + [p.open], []);
      } else {
        if m.Dash? { DashIsKept(init); }
        KeepInLast(p.done, p.open, m, c);
      }
    }
  }

  // Joining the statements gives back the input with each comment replaced by a newline, up to a
  // blank tail that the splitter drops.
  lemma SplitKeepsEverything(s: string)
    ensures Join(Split(s)) == StripComments(s)
            || (Blank(Rest(s)) && Join(Split(s) + [Rest(s)]) == StripComments(s))
  {
    var p := ReadAll(s);
    JoinedPiecesAreKept(s);
    JoinSnoc(p.done, p.open);
    JoinSnoc(p.done, Rest(s));
    assert p.done + [] == p.done;
    if p.done != [] && ModeAfter(s).Comment? {
      assert Join(p.done) + ";" + (p.open + "\n") == Join(p.done) + ";" + p.open + "\n";
    }
  }

  // ---- well-formed statements survive ----

  // No ';' and no '--' stands outside a literal.
  ghost predicate Clean(text: string) {
    && (forall i :: 0 <= i <= |text| ==> !ModeAfter(text[..i]).Comment?)
    && (forall i :: 0 <= i < |text| && text[i] == ';' ==> !ModeAfter(text[..i]).TopLevel())
  }

  ghost predicate Statement(st: string) {
    Clean(st) && ModeAfter(st).TopLevel()
  }

  function Terminated(sts: seq<string>): string {
    if sts == [] then [] else Terminated(sts[..|sts|-1]) + sts[|sts|-1] + ";"
  }

  lemma ReadSnoc(s: string, c: char)
    ensures ModeAfter(s + [c]) == Next(ModeAfter(s), c)
    ensures ReadAll(s + [c]) == Read(ModeAfter(s), ReadAll(s), c)
  {
    assert (s + [c])[..|s|] == s;
  }

  lemma CleanPrefix(text: string, n: nat)
    requires Clean(text) && n <= |text|
    ensures Clean(text[..n])
  {
    forall i | 0 <= i <= n ensures !ModeAfter(text[..n][..i]).Comment? {
      assert text[..n][..i] == text[..i];
    }
    forall i | 0 <= i < n && text[i] == ';' ensures !ModeAfter(text[..n][..i]).TopLevel() {
      assert text[..n][..i] == text[..i];
    }
  }

  lemma CleanSnoc(text: string, c: char)
    requires Clean(text) && !Next(ModeAfter(text), c).Comment?
    requires c == ';' ==> !ModeAfter(text).TopLevel()
    ensures Clean(text + [c]) && ModeAfter(text + [c]) == Next(ModeAfter(text), c)
  {
    var t := text + [c];
    ReadSnoc(text, c);
    assert text[..|text|] == text;
    forall i | 0 <= i <= |t| ensures !ModeAfter(t[..i]).Comment? {
      if i <= |text| { assert t[..i] == text[..i]; } else { assert t[..i] == t; }
    }
    forall i | 0 <= i < |t| && t[i] == ';' ensures !ModeAfter(t[..i]).TopLevel() {
      assert t[..i] == text[..i];
      if i == |text| { assert text[..i] == text; }
    }
  }

  // The reader has finished these statements and is in mode m with this open piece.
  ghost predicate Has(s: string, m: Mode, done: seq<string>, open: string) {
    ModeAfter(s) == m && ReadAll(s) == Pieces(done, open)
  }

  lemma HasNext(s: string, m: Mode, done: seq<string>, open: string, c: char)
    requires Has(s, m, done, open)
    requires !m.Comment? && !Next(m, c).Comment? && (c == ';' ==> !m.TopLevel())
    ensures Has(s + [c], Next(m, c), done, open + [c])
  {
    ReadSnoc(s, c);
  }

  lemma HasSemicolon(s: string, m: Mode, done: seq<string>, open: string)
    requires Has(s, m, done, open) && m.TopLevel()
    ensures Has(s + ";", Top, done + [open], [])
  {
    ReadSnoc(s, ';');
  }

  lemma LastOfClean(text: string)
    requires Clean(text) && text != []
    ensures var m, c := ModeAfter(DropLast(text)), text[|text|-1];
            Clean(DropLast(text)) && !m.Comment? && !Next(m, c).Comment? && (c == ';' ==> !m.TopLevel())
            && ModeAfter(text) == Next(m, c) && text == DropLast(text) + [c]
  {
    var init, c := DropLast(text), text[|text|-1];
    CleanPrefix(text, |text| - 1);
    LastIsClean(text);
    LastJoins(text);
    ModeSnoc(init, c);
  }

  lemma ModeSnoc(s: string, c: char)
    ensures ModeAfter(s + [c]) == Next(ModeAfter(s), c)
  {
    ReadSnoc(s, c);
  }

  lemma LastIsClean(text: string)
    requires Clean(text) && text != []
    ensures !ModeAfter(text).Comment? && !ModeAfter(DropLast(text)).Comment?
    ensures text[|text|-1] == ';' ==> !ModeAfter(DropLast(text)).TopLevel()
  {
    assert text[..|text|] == text;
    CleanAt(text, |text|);
    CleanAt(text, |text| - 1);
  }

  lemma LastJoins(text: string)
    requires text != []
    ensures text == DropLast(text) + [text[|text|-1]]
  {
  }

  lemma CleanAt(text: string, i: nat)
    requires Clean(text) && i <= |text|
    ensures !ModeAfter(text[..i]).Comment? && (i < |text| && text[i] == ';' ==> !ModeAfter(text[..i]).TopLevel())
  {
  }

  lemma {:induction false} ReadStatement(s: string, done: seq<string>, st: string)
    requires Has(s, Top, done, []) && Clean(st)
    ensures Has(s + st, ModeAfter(st), done, st)
  {
    if st == [] {
      assert s + st == s;
    } else {
      var init, c := DropLast(st), st[|st|-1];
      LastOfClean(st);
      ReadStatement(s, done, init);
      HasNext(s + init, ModeAfter(init), done, init, c);
      assert (s + init) + [c] == s + st;
    }
  }

  lemma {:induction false} ReadTerminated(sts: seq<string>)
    requires forall st :: st in sts ==> Statement(st)
    ensures Has(Terminated(sts), Top, sts, [])
  {
    if sts == [] {
    } else {
      var init, st := sts[..|sts|-1], sts[|sts|-1];
      ReadTerminated(init);
      assert st in sts;
      ReadStatement(Terminated(init), init, st);
      HasSemicolon(Terminated(init) + st, ModeAfter(st), init, st);
      assert sts == init + [st];
    }
  }

  // Terminating statements with ';' and splitting gives them back.
  lemma SplitUndoesTermination(sts: seq<string>)
    requires forall st :: st in sts ==> Statement(st)
    ensures Split(Terminated(sts)) == sts
  {
    ReadTerminated(sts);
  }

  lemma BeforeTheDash(text: string)
    requires ModeAfter(text).Dash?
    ensures text != [] && ModeAfter(DropLast(text)) == Top
  {
    assert ModeAfter(text) == Next(ModeAfter(DropLast(text)), text[|text|-1]);
  }

  ghost predicate InStep(text: string, m: Mode) {
    Clean(text) && ModeAfter(text) == if m.Comment? then Top else m
  }

  lemma InStepNext(m: Mode, text: string, c: char)
    requires InStep(text, m) && !(m.TopLevel() && c == ';')
    ensures InStep(Keep(m, text, c), Next(m, c))
  {
    if m.Comment? {
      assert c == '\n' ==> !Next(Top, c).Comment?;
      if c == '\n' { CleanSnoc(text, c); }
    } else if m.Dash? && c == '-' {
      BeforeTheDash(text);
      LastOfClean(text);
    } else {
      CleanSnoc(text, c);
    }
  }

  // The open piece is clean and ends where the reader stands; the finished ones are statements.
  lemma {:induction false} PiecesAreClean(s: string)
    ensures InStep(ReadAll(s).open, ModeAfter(s))
    ensures forall st :: st in ReadAll(s).done ==> Statement(st)
  {
    if s == [] {
    } else {
      var init, c := s[..|s|-1], s[|s|-1];
      PiecesAreClean(init);
      if !(ModeAfter(init).TopLevel() && c == ';') {
        InStepNext(ModeAfter(init), ReadAll(init).open, c);
      }
    }
  }

  lemma {:induction false} BlankIsTopLevel(text: string)
    requires Blank(text)
    ensures ModeAfter(text) == Top
    decreases |text|
  {
    if text != [] { BlankIsTopLevel(text[..|text|-1]); }
  }

  // The last piece: a statement, unless the text ends inside a literal, and then not blank.
  lemma RestIsInStep(s: string)
    ensures Clean(Rest(s)) && (ModeAfter(s).Comment? ==> ModeAfter(Rest(s)) == Top)
    ensures !ModeAfter(s).Comment? ==> ModeAfter(Rest(s)) == ModeAfter(s)
  {
    PiecesAreClean(s);
    if ModeAfter(s).Comment? {
      CleanSnoc(ReadAll(s).open, '\n');
    } else {
      assert Rest(s) == ReadAll(s).open;
    }
  }

  predicate InLiteral(m: Mode) {
    m.Quoted? || m.Escaped?
  }

  lemma TerminatedSnoc(done: seq<string>, last: string)
    ensures Terminated(done + [last]) == Terminated(done) + last + ";"
  {
    assert (done + [last])[..|done|] == done;
  }

  lemma ReadUnterminated(done: seq<string>, rest: string)
    requires (forall st :: st in done ==> Statement(st)) && Clean(rest) && InLiteral(ModeAfter(rest))
    ensures ReadAll(Terminated(done) + rest + ";") == Pieces(done, rest + ";")
    ensures !ModeAfter(Terminated(done) + rest + ";").Comment?
  {
    ReadTerminated(done);
    ReadStatement(Terminated(done), done, rest);
    HasNext(Terminated(done) + rest, ModeAfter(rest), done, rest, ';');
  }

  // Ended in the middle of a literal, the last statement swallows the semicolon put after it.
  lemma LiteralSwallows(s: string)
    requires InLiteral(ModeAfter(s))
    ensures Split(s) == ReadAll(s).done + [Rest(s)]
    ensures Split(Terminated(Split(s))) == ReadAll(s).done + [Rest(s) + ";"]
  {
    var done, rest := ReadAll(s).done, Rest(s);
    PiecesAreClean(s);
    RestIsInStep(s);
    if Blank(rest) { BlankIsTopLevel(rest); }
    ReadUnterminated(done, rest);
    TerminatedSnoc(done, rest);
    LastIsNotBlank(rest, ';');
    var t := Terminated(done) + rest + ";";
    assert Rest(t) == ReadAll(t).open;
  }

  lemma LastIsNotBlank(text: string, c: char)
    requires !IsSpace(c)
    ensures !Blank(text + [c])
  {
    assert (text + [c])[|text|] == c;
  }

  // Splitting what was split and terminated again changes nothing, if and only if the text does not end
  // inside a literal.
  lemma SplitIsStable(s: string)
    ensures Split(Terminated(Split(s))) == Split(s) <==> !InLiteral(ModeAfter(s))
  {
    PiecesAreClean(s);
    if InLiteral(ModeAfter(s)) {
      LiteralSwallows(s);
      assert (ReadAll(s).done + [Rest(s)])[|ReadAll(s).done|] != (ReadAll(s).done + [Rest(s) + ";"])[|ReadAll(s).done|];
    } else {
      RestIsInStep(s);
      SplitUndoesTermination(Split(s));
    }
  }

  // A literal left open.
  lemma OpenLiteralIsUnstable()
    ensures Split(Terminated(Split("'a"))) != Split("'a")
  {
    ReadSnoc("", '\'');
    ReadSnoc("'", 'a');
    assert "" + ['\''] == "'" && "'" + ['a'] == "'a";
    SplitIsStable("'a");
  }
}
