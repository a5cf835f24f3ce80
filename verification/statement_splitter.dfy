/** Splitting a block of SQL into statements at the semicolons outside quotes. */
module StatementSplitter {

  /** Where the scan is: outside quotes, inside a quoted text, or after a backslash in one. */
  datatype State = Out | In(quote: Quote) | Escaped(quote: Quote)

  datatype Quote = Single | Double

  function Mark(q: Quote): char {
    if q.Single? then '\'' else '"'
  }

  function Next(s: State, c: char): State {
    match s
    case Out => if c == '\'' then In(Single) else if c == '"' then In(Double) else Out
    case In(q) => if c == Mark(q) then Out else if c == '\\' then Escaped(q) else s
    case Escaped(q) => In(q)
  }

  function Run(text: string, s: State): State {
    if text == "" then s else Run(text[1..], Next(s, text[0]))
  }

  predicate IsSpace(c: char) {
    c == ' ' || c == '\t' || c == '\n' || c == '\r' || c as int == 11 || c as int == 12
  }

  function TrimLeft(s: string): string {
    if s != "" && IsSpace(s[0]) then TrimLeft(s[1..]) else s
  }

  function TrimRight(s: string): string {
    if s != "" && IsSpace(s[|s| - 1]) then TrimRight(s[..|s| - 1]) else s
  }

  function Trim(s: string): string {
    TrimRight(TrimLeft(s))
  }

  /** A piece becomes a statement if anything is left of it. */
  function Emit(piece: string): seq<string> {
    if Trim(piece) == "" then [] else [Trim(piece) + ";"]
  }

  /** The statements of a text, from state s on, with what was read of the current piece. */
  function Statements(text: string, s: State, current: string): seq<string> {
    if text == "" then Emit(current)
    else if s.Out? && text[0] == ';' then Emit(current) + Statements(text[1..], Out, "")
    else Statements(text[1..], Next(s, text[0]), current + [text[0]])
  }

  function Split(text: string): seq<string> {
    Statements(text, Out, "")
  }

  /** The loop: characters in quotes are copied, a backslash there takes the next character along. */
  method PushBucket(block: string) returns (statements: seq<string>)
    ensures statements == Split(block)
  {
    statements := [];
    if block == "" {
      return;
    }
    var current := "";
    var quote: State := Out;
    var i := 0;
    while i < |block|
      invariant i <= |block| && !quote.Escaped?
      invariant Split(block) == statements + Statements(block[i..], quote, current)
    {
      assert block[i..][1..] == block[i + 1..];
      var c := block[i];
      if quote.In? {
        current := current + [c];
        if c == Mark(quote.quote) {
          quote := Out;
        } else if c == '\\' && i + 1 < |block| {
          assert block[i + 1..][1..] == block[i + 2..];
          i := i + 1;
          current := current + [block[i]];
        } else if c == '\\' {
          assert block[i + 1..] == "";
          i := i + 1;
          break;
        }
      } else if c == '\'' || c == '"' {
        quote := In(if c == '\'' then Single else Double);
        current := current + [c];
      } else if c == ';' {
        statements := statements + Emit(current);
        current := "";
      } else {
        current := current + [c];
      }
      i := i + 1;
    }
    statements := statements + Emit(current);
  }

  // ---- what a statement is ----

  /** Scanning text from s meets no semicolon outside quotes. */
  predicate NoTopSemicolon(text: string, s: State) {
    text == "" || (!(s.Out? && text[0] == ';') && NoTopSemicolon(text[1..], Next(s, text[0])))
  }

  predicate Balanced(text: string) {
    Run(text, Out) == Out
  }

  predicate Trimmed(s: string) {
    s != "" ==> !IsSpace(s[0]) && !IsSpace(s[|s| - 1])
  }

  /** A statement without its semicolon. */
  predicate IsStatement(s: string) {
    s != "" && Trimmed(s) && NoTopSemicolon(s, Out) && Balanced(s)
  }

  function Terminated(ts: seq<string>): (r: seq<string>)
    ensures |r| == |ts| && forall i :: 0 <= i < |ts| ==> r[i] == ts[i] + ";"
  {
    seq(|ts|, i requires 0 <= i < |ts| => ts[i] + ";")
  }

  function Joined(parts: seq<string>): string {
    if parts == [] then "" else parts[0] + Joined(parts[1..])
  }

  lemma {:induction false} RunAppend(a: string, b: string, s: State)
    ensures Run(a + b, s) == Run(b, Run(a, s))
  {
    if a == "" {
      assert a + b == b;
    } else {
      assert (a + b)[1..] == a[1..] + b;
      RunAppend(a[1..], b, Next(s, a[0]));
    }
  }

  lemma {:induction false} NoTopAppend(a: string, b: string, s: State)
    ensures NoTopSemicolon(a + b, s) <==> NoTopSemicolon(a, s) && NoTopSemicolon(b, Run(a, s))
  {
    if a == "" {
      assert a + b == b;
    } else {
      assert (a + b)[1..] == a[1..] + b;
      NoTopAppend(a[1..], b, Next(s, a[0]));
    }
  }

  // ---- joining and splitting ----

  lemma {:induction false} TrimTrimmed(s: string)
    requires Trimmed(s)
    ensures Trim(s) == s
  {
  }

  /** A clean text in front of the rest only grows the current piece. */
  lemma {:induction false} PieceGrows(a: string, rest: string, s: State, current: string)
    requires NoTopSemicolon(a, s)
    ensures Statements(a + rest, s, current) == Statements(rest, Run(a, s), current + a)
  {
    if a == "" {
      assert a + rest == rest && current + a == current;
    } else {
      assert (a + rest)[1..] == a[1..] + rest;
      assert current + [a[0]] + a[1..] == current + a;
      PieceGrows(a[1..], rest, Next(s, a[0]), current + [a[0]]);
    }
  }

  lemma FirstStatement(t: string, rest: string)
    requires IsStatement(t)
    ensures Split(t + ";" + rest) == [t + ";"] + Split(rest)
  {
    hide Run, NoTopSemicolon, Trim;
    assert t + ";" + rest == t + (";" + rest);
    PieceGrows(t, ";" + rest, Out, "");
    assert "" + t == t;
    TrimTrimmed(t);
    assert (";" + rest)[1..] == rest;
  }

  /** Splitting the terminated concatenation of statements gives the statements back. */
  lemma {:induction false} SplitInvertsJoin(ts: seq<string>)
    requires forall i :: 0 <= i < |ts| ==> IsStatement(ts[i])
    ensures Split(Joined(Terminated(ts))) == Terminated(ts)
  {
    if ts == [] {
      assert Trim("") == "";
    } else {
      hide IsStatement, Statements;
      SplitInvertsJoin(ts[1..]);
      assert Terminated(ts)[1..] == Terminated(ts[1..]);
      FirstStatement(ts[0], Joined(Terminated(ts[1..])));
      assert Terminated(ts) == [ts[0] + ";"] + Terminated(ts[1..]);
    }
  }

  // ---- what splitting gives ----

  lemma {:induction false} TrimLeftKeeps(s: string)
    requires NoTopSemicolon(s, Out)
    ensures NoTopSemicolon(TrimLeft(s), Out) && Run(TrimLeft(s), Out) == Run(s, Out)
  {
    if s != "" && IsSpace(s[0]) {
      TrimLeftKeeps(s[1..]);
    }
  }

  /** White space never closes a quote. */
  lemma SpaceStays(s: State, c: char)
    requires IsSpace(c)
    ensures Next(s, c).Out? <==> s.Out?
  {
  }

  lemma {:induction false} TrimRightKeeps(s: string)
    requires NoTopSemicolon(s, Out)
    ensures NoTopSemicolon(TrimRight(s), Out) && (Run(TrimRight(s), Out).Out? <==> Run(s, Out).Out?)
  {
    if s != "" && IsSpace(s[|s| - 1]) {
      var front, last := s[..|s| - 1], s[|s| - 1..];
      assert s == front + last;
      NoTopAppend(front, last, Out);
      RunAppend(front, last, Out);
      SpaceStays(Run(front, Out), last[0]);
      assert Run(last, Run(front, Out)) == Next(Run(front, Out), last[0]);
      TrimRightKeeps(front);
    }
  }

  lemma {:induction false} TrimRightTrims(s: string)
    ensures TrimRight(s) != "" ==> s != "" && !IsSpace(TrimRight(s)[|TrimRight(s)| - 1]) && TrimRight(s)[0] == s[0]
  {
    if s != "" && IsSpace(s[|s| - 1]) {
      TrimRightTrims(s[..|s| - 1]);
    }
  }

  lemma {:induction false} TrimLeftTrims(s: string)
    ensures TrimLeft(s) != "" ==> !IsSpace(TrimLeft(s)[0])
  {
    if s != "" && IsSpace(s[0]) {
      TrimLeftTrims(s[1..]);
    }
  }

  /** Trimming a piece leaves a trimmed text, still without a top-level semicolon, in the same state. */
  lemma TrimKeeps(s: string)
    requires NoTopSemicolon(s, Out)
    ensures NoTopSemicolon(Trim(s), Out) && Trimmed(Trim(s)) && (Run(Trim(s), Out).Out? <==> Run(s, Out).Out?)
  {
    hide NoTopSemicolon, Run, TrimLeft, TrimRight;
    TrimLeftKeeps(s);
    TrimRightKeeps(TrimLeft(s));
    TrimLeftTrims(s);
    TrimRightTrims(TrimLeft(s));
  }

  /** The pieces before the last, and the last piece, of a text. */
  function Front(text: string, s: State, current: string): seq<string> {
    if text == "" then []
    else if s.Out? && text[0] == ';' then
      (if Trim(current) == "" then [] else [Trim(current)]) + Front(text[1..], Out, "")
    else Front(text[1..], Next(s, text[0]), current + [text[0]])
  }

  function Tail(text: string, s: State, current: string): string {
    if text == "" then current
    else if s.Out? && text[0] == ';' then Tail(text[1..], Out, "")
    else Tail(text[1..], Next(s, text[0]), current + [text[0]])
  }

  predicate AllStatements(ts: seq<string>) {
    forall i :: 0 <= i < |ts| ==> IsStatement(ts[i])
  }

  lemma PieceIsStatement(current: string)
    requires NoTopSemicolon(current, Out) && Balanced(current) && Trim(current) != ""
    ensures IsStatement(Trim(current))
  {
    TrimKeeps(current);
  }

  lemma TerminatedSplit(a: seq<string>, b: seq<string>)
    ensures Terminated(a + b) == Terminated(a) + Terminated(b)
  {
  }

  /** Every piece but the last is a statement; the last is where the scan ends. */
  lemma {:induction false} SplitShape(text: string, s: State, current: string)
    requires NoTopSemicolon(current, Out) && Run(current, Out) == s
    ensures var front, tail := Front(text, s, current), Tail(text, s, current);
            && AllStatements(front) && NoTopSemicolon(tail, Out) && Run(tail, Out) == Run(text, s)
            && Statements(text, s, current) == Terminated(front) + Emit(tail)
  {
    hide Trim, IsStatement;
    if text == "" {
      assert Terminated([]) + Emit(current) == Emit(current);
    } else if s.Out? && text[0] == ';' {
      assert Run("", Out) == Out && NoTopSemicolon("", Out);
      SplitShape(text[1..], Out, "");
      var first := if Trim(current) == "" then [] else [Trim(current)];
      if Trim(current) != "" {
        PieceIsStatement(current);
      }
      assert Emit(current) == Terminated(first);
      TerminatedSplit(first, Front(text[1..], Out, ""));
    } else {
      var grown := current + [text[0]];
      RunAppend(current, [text[0]], Out);
      NoTopAppend(current, [text[0]], Out);
      assert [text[0]][1..] == "";
      SplitShape(text[1..], Next(s, text[0]), grown);
    }
  }

  /** Splitting a balanced text gives terminated statements only. */
  lemma SplitGivesStatements(text: string) returns (ts: seq<string>)
    requires Balanced(text)
    ensures AllStatements(ts) && Split(text) == Terminated(ts)
  {
    hide Run, NoTopSemicolon, Trim;
    assert Run("", Out) == Out && NoTopSemicolon("", Out) by {
      EmptyScan();
    }
    SplitShape(text, Out, "");
    var front, tail := Front(text, Out, ""), Tail(text, Out, "");
    ts := front;
    if Trim(tail) != "" {
      PieceIsStatement(tail);
      ts := front + [Trim(tail)];
      TerminatedSplit(front, [Trim(tail)]);
      assert Terminated([Trim(tail)]) == Emit(tail);
    }
  }

  lemma EmptyScan()
    ensures Run("", Out) == Out && NoTopSemicolon("", Out)
  {
  }

  lemma {:induction false} JoinedAppend(a: seq<string>, b: seq<string>)
    ensures Joined(a + b) == Joined(a) + Joined(b)
  {
    if a == [] {
      assert a + b == b;
    } else {
      assert (a + b)[1..] == a[1..] + b;
      JoinedAppend(a[1..], b);
    }
  }

  lemma {:induction false} LeadingStatements(ts: seq<string>, rest: string)
    requires AllStatements(ts)
    ensures Split(Joined(Terminated(ts)) + rest) == Terminated(ts) + Split(rest)
  {
    if ts == [] {
      assert Joined(Terminated(ts)) + rest == rest;
    } else {
      hide IsStatement, Statements;
      LeadingStatements(ts[1..], rest);
      assert Terminated(ts)[1..] == Terminated(ts[1..]);
      var more := Joined(Terminated(ts[1..])) + rest;
      FirstStatement(ts[0], more);
      assert Joined(Terminated(ts)) + rest == ts[0] + ";" + more;
      assert Terminated(ts) == [ts[0] + ";"] + Terminated(ts[1..]);
    }
  }

  /** A text that ends inside a quote: its last statement swallows the semicolon put behind it. */
  lemma OpenTail(t: string)
    requires t != "" && Trimmed(t) && NoTopSemicolon(t, Out) && !Run(t, Out).Out?
    ensures Split(t + ";") == [t + ";;"]
  {
    hide Run, NoTopSemicolon, Trim;
    PieceGrows(t, ";", Out, "");
    var s := Run(t, Out);
    assert ";"[1..] == "";
    assert "" + t == t;
    assert Statements(";", s, t) == Statements("", Next(s, ';'), t + ";");
    TrimTrimmed(t + ";");
    assert t + ";" + ";" == t + ";;";
  }

  lemma NonEmptyTail(tail: string)
    requires NoTopSemicolon(tail, Out) && !Run(tail, Out).Out?
    ensures Trim(tail) != "" && !Run(Trim(tail), Out).Out?
  {
    TrimKeeps(tail);
  }

  /** Split, join, split gives the same as split exactly when the quotes of the text are balanced. */
  lemma SplitIsStableExactly(text: string)
    ensures Split(Joined(Split(text))) == Split(text) <==> Balanced(text)
  {
    hide Run, NoTopSemicolon, Trim, Statements, IsStatement;
    if Balanced(text) {
      var ts := SplitGivesStatements(text);
      SplitInvertsJoin(ts);
    } else {
      EmptyScan();
      SplitShape(text, Out, "");
      var front, tail := Front(text, Out, ""), Tail(text, Out, "");
      NonEmptyTail(tail);
      var t := Trim(tail);
      TrimKeeps(tail);
      OpenTail(t);
      JoinedAppend(Terminated(front), [t + ";"]);
      assert Joined([t + ";"]) == t + ";";
      LeadingStatements(front, t + ";");
      assert |t + ";;"| != |t + ";"|;
      assert (Terminated(front) + [t + ";;"])[|front|] != (Terminated(front) + [t + ";"])[|front|];
    }
  }
}
