/** Quoting an argument vector into one command line, and the rule that splits it again. */
module CommandLine {

  const ROOM: nat := 4096

  /** n backslashes. */
  function Slashes(n: nat): (r: string)
    ensures |r| == n
  {
    seq(n, _ => '\\')
  }

  /** The leading run of backslashes. */
  function Run(s: string): (n: nat)
    ensures n <= |s| && (n < |s| ==> s[n] != '\\')
  {
    if s != "" && s[0] == '\\' then 1 + Run(s[1..]) else 0
  }

  lemma {:induction false} RunSplits(s: string)
    ensures s[..Run(s)] == Slashes(Run(s))
    decreases |s|
  {
    if s != "" && s[0] == '\\' {
      RunSplits(s[1..]);
      assert s[..Run(s)] == [s[0]] + s[1..][..Run(s[1..])];
    }
  }

  // ---- what is written -------------------------------------------------------------------

  /** A run of n backslashes and the character after it: doubled, and one more, in front of a
      quote. */
  function Piece(n: nat, c: char): string { Slashes(if c == '"' then 2 * n + 1 else n) + [c] }

  /** An argument between its quotes; a run at the end stands in front of the closing quote. */
  function Quoted(a: string): string
    decreases |a|
  {
    var n := Run(a);
    if n == |a| then Slashes(2 * n)
    else Piece(n, a[n]) + Quoted(a[n + 1..])
  }

  function Arg(a: string): string { "\"" + Quoted(a) + "\"" }

  function Sep(n: nat): string { if n == 1 then "" else " " }

  /** The n-th argument as it is appended. */
  function Next(n: nat, a: string): string { Sep(n) + Arg(a) }

  function Line(argv: seq<string>): string {
    if argv == [] then ""
    else Line(argv[..|argv| - 1]) + Next(|argv|, argv[|argv| - 1])
  }

  // ---- the documented rule for splitting --------------------------------------------------

  predicate Blank(c: char) { c == ' ' || c == '\t' }

  /** 2n backslashes before a quote are n and the quote opens or closes; 2n+1 are n and a
      literal quote; other backslashes are themselves; blanks outside quotes end the argument. */
  function Take(s: string, inside: bool, acc: string): (r: (string, string))
    ensures |r.1| <= |s|
    decreases |s|
  {
    var n := Run(s);
    if n == |s| then (acc + Slashes(n), "")
    else if s[n] == '"' then
      if n % 2 == 1 then Take(s[n + 1..], inside, acc + Slashes(n / 2) + "\"")
      else Take(s[n + 1..], !inside, acc + Slashes(n / 2))
    else if Blank(s[n]) && !inside then (acc + Slashes(n), s[n..])
    else Take(s[n + 1..], inside, acc + Slashes(n) + [s[n]])
  }

  function SkipBlanks(s: string): (r: string)
    ensures |r| <= |s|
  {
    if s != "" && Blank(s[0]) then SkipBlanks(s[1..]) else s
  }

  function Split(s: string): seq<string>
    decreases |s|
  {
    var t := SkipBlanks(s);
    if t == "" then []
    else
      var r := Take(t, false, "");
      if |r.1| < |t| then [r.0] + Split(r.1) else []
  }

  // ---- splitting undoes quoting -----------------------------------------------------------

  lemma {:induction false} RunOf(n: nat, x: string)
    requires x == "" || x[0] != '\\'
    ensures Run(Slashes(n) + x) == n
    decreases n
  {
    if n > 0 {
      assert (Slashes(n) + x)[1..] == Slashes(n - 1) + x;
      RunOf(n - 1, x);
    } else {
      assert Slashes(0) + x == x;
    }
  }

  lemma TakeQuote(n: nat, x: string, inside: bool, acc: string)
    ensures Take(Slashes(n) + ("\"" + x), inside, acc)
         == if n % 2 == 1 then Take(x, inside, acc + Slashes(n / 2) + "\"") else Take(x, !inside, acc + Slashes(n / 2))
  {
    var s := Slashes(n) + ("\"" + x);
    RunOf(n, "\"" + x);
    assert s[n] == '"' && s[n + 1..] == x;
  }

  lemma TakeChar(n: nat, c: char, x: string, acc: string)
    requires c != '\\' && c != '"'
    ensures Take(Slashes(n) + ([c] + x), true, acc) == Take(x, true, acc + Slashes(n) + [c])
  {
    var s := Slashes(n) + ([c] + x);
    RunOf(n, [c] + x);
    assert s[n] == c && s[n + 1..] == x;
  }

  /** What may follow an argument's closing quote. */
  predicate Ends(k: string) { k == "" || k[0] == ' ' }

  lemma TakeEnd(k: string, acc: string)
    requires Ends(k)
    ensures Take(k, false, acc) == (acc, k)
  {
    assert Run(k) == 0;
    assert acc + Slashes(0) == acc;
  }

  /** The head of a quoted argument, with whatever is written after it. */
  lemma QuotedStep(a: string, n: nat, k: string)
    requires n == Run(a) < |a|
    ensures Quoted(a) + k == Piece(n, a[n]) + (Quoted(a[n + 1..]) + k)
  {
    hide Piece, Run;
  }

  lemma PieceIs(n: nat, c: char, x: string)
    ensures Piece(n, c) + x == Slashes(if c == '"' then 2 * n + 1 else n) + ([c] + x)
  {
    hide Slashes;
  }

  lemma Around(a: string, n: nat, acc: string)
    requires n <= |a|
    ensures n == |a| ==> acc + a[..n] == acc + a
    ensures n < |a| ==> acc + a[..n] + [a[n]] + a[n + 1..] == acc + a
  {
    if n < |a| { assert a[..n] + [a[n]] + a[n + 1..] == a; } else { assert a[..n] == a; }
  }

  lemma {:induction false} TakeQuoted(a: string, k: string, acc: string)
    requires Ends(k)
    ensures Take(Quoted(a) + ("\"" + k), true, acc) == (acc + a, k)
    decreases |a|
  {
    hide Take, Run, Slashes, Piece;
    var n := Run(a);
    Around(a, n, acc);
    RunSplits(a);
    if n == |a| {
      TakeQuote(2 * n, k, true, acc);
      TakeEnd(k, acc + Slashes(n));
    } else {
      var rest := Quoted(a[n + 1..]) + ("\"" + k);
      QuotedStep(a, n, "\"" + k);
      PieceIs(n, a[n], rest);
      hide Quoted;
      TakeQuoted(a[n + 1..], k, acc + Slashes(n) + [a[n]]);
      if a[n] == '"' { TakeQuote(2 * n + 1, rest, true, acc); } else { TakeChar(n, a[n], rest, acc); }
    }
  }

  lemma TakeArg(a: string, k: string)
    requires Ends(k)
    ensures Take(Arg(a) + k, false, "") == (a, k)
  {
    var x := Quoted(a) + ("\"" + k);
    assert Arg(a) + k == Slashes(0) + ("\"" + x);
    hide Take, Quoted;
    TakeQuote(0, x, false, "");
    assert "" + Slashes(0) == "";
    TakeQuoted(a, k, "");
    assert "" + a == a;
  }

  lemma {:induction false} SplitLine(argv: seq<string>, k: string)
    requires Ends(k)
    ensures Split(Line(argv) + k) == argv + Split(k)
    decreases |argv|
  {
    hide Split, Arg;
    if argv == [] {
      assert Line(argv) + k == k;
    } else {
      var init, a := argv[..|argv| - 1], argv[|argv| - 1];
      var sep := Sep(|argv|);
      var more := sep + (Arg(a) + k);
      LineStep(argv, k);
      NextIs(|argv|, a, k);
      SplitArg(sep, a, k);
      if |argv| > 1 { SplitLine(init, more); } else { assert Line(init) + more == more; }
      Joined(init, a, argv, Split(k));
    }
  }

  lemma LineStep(argv: seq<string>, k: string)
    requires argv != []
    ensures Line(argv) + k == Line(argv[..|argv| - 1]) + (Next(|argv|, argv[|argv| - 1]) + k)
  {
    hide Next;
  }

  lemma NextIs(n: nat, a: string, k: string)
    ensures Next(n, a) + k == Sep(n) + (Arg(a) + k)
  {
    hide Sep, Arg;
  }

  lemma Joined(init: seq<string>, a: string, argv: seq<string>, rest: seq<string>)
    requires argv != [] && init == argv[..|argv| - 1] && a == argv[|argv| - 1]
    ensures init + ([a] + rest) == argv + rest
  {
  }

  lemma SplitArg(sep: string, a: string, k: string)
    requires (sep == "" || sep == " ") && Ends(k)
    ensures Split(sep + (Arg(a) + k)) == [a] + Split(k)
  {
    var t := Arg(a) + k;
    assert SkipBlanks(t) == t;
    if sep == " " { assert (sep + t)[1..] == t; } else { assert sep + t == t; }
    assert SkipBlanks(sep + t) == t;
    TakeArg(a, k);
  }

  /** Splitting the command line gives back the argument vector, whatever it holds. */
  lemma SplitUndoesQuoting(argv: seq<string>)
    ensures Split(Line(argv)) == argv
  {
    SplitLine(argv, "");
    assert Line(argv) + "" == Line(argv);
    assert Split("") == [];
    assert argv + [] == argv;
  }

  // ---- the loop ---------------------------------------------------------------------------

  /** A run of backslashes, cut short where the room ends. */
  method PutSlashes(cmd: array<char>, at: nat, bs: nat) returns (next: nat)
    requires cmd.Length == ROOM && at < ROOM
    modifies cmd
    ensures at <= next < ROOM && cmd[..at] == old(cmd[..at])
    ensures next + 2 < ROOM ==> next == at + bs && cmd[..next] == old(cmd[..at]) + Slashes(bs)
    ensures next == at + bs ==> cmd[..next] == old(cmd[..at]) + Slashes(bs)
    ensures next <= at + bs
  {
    next := at;
    var left := bs;
    while left > 0 && next + 2 < ROOM
      invariant at <= next < ROOM && next + left == at + bs
      invariant cmd[..next] == old(cmd[..at]) + Slashes(next - at)
      decreases left
    {
      cmd[next] := '\\';
      assert cmd[..next + 1] == cmd[..next] + ['\\'];
      SlashesMore(next - at);
      next := next + 1;
      left := left - 1;
    }
    assert cmd[..at] == cmd[..next][..at];
  }

  lemma SlashesMore(n: nat)
    ensures Slashes(n) + ['\\'] == Slashes(n + 1)
  {
  }

  lemma RunStep(a: string, j: nat, k: nat)
    requires j <= k < |a| && a[k] == '\\'
    ensures Run(a[k..]) == 1 + Run(a[k + 1..])
  {
    assert a[k..][1..] == a[k + 1..];
  }

  lemma QuotedAt(a: string, j: nat, n: nat)
    requires j <= |a| && n == Run(a[j..])
    ensures j + n <= |a|
    ensures j + n == |a| ==> Quoted(a[j..]) == Slashes(2 * n)
    ensures j + n < |a| ==> Quoted(a[j..]) == Piece(n, a[j + n]) + Quoted(a[j + n + 1..])
  {
    hide Run, Piece;
    if j + n < |a| { assert a[j..][n + 1..] == a[j + n + 1..]; }
  }

  /** The loop over one argument, up to its closing quote. */
  method QuoteBody(cmd: array<char>, at: nat, a: string) returns (ok: bool, next: nat)
    requires cmd.Length == ROOM && at < ROOM
    modifies cmd
    ensures at <= next < ROOM
    ensures ok && next + 2 < ROOM ==> cmd[..next] == old(cmd[..at]) + Quoted(a)
    ensures !ok || next + 2 >= ROOM ==> at + |Quoted(a)| + 2 >= ROOM
  {
    hide Quoted, Run, Piece, Slashes;
    next := at;
    var j := 0;
    ghost var whole := old(cmd[..at]) + Quoted(a);
    assert a[0..] == a;
    while j < |a|
      invariant 0 <= j <= |a| && at <= next < ROOM
      invariant cmd[..next] + Quoted(a[j..]) == whole
      decreases |a| - j
    {
      var bs := 0;
      ghost var j0, before := j, cmd[..next];
      while j < |a| && a[j] == '\\'
        invariant j0 <= j <= |a| && bs == j - j0 && cmd[..next] == before
        invariant Run(a[j0..]) == bs + Run(a[j..])
        decreases |a| - j
      {
        RunStep(a, j0, j);
        bs := bs + 1;
        j := j + 1;
      }
      RunStops(a, j);
      QuotedAt(a, j0, bs);
      if j == |a| {
        assert before + Slashes(2 * bs) == whole;
        next := PutSlashes(cmd, next, 2 * bs);
        return true, next;
      }
      ghost var rest, n := Quoted(a[j + 1..]), bs;
      if a[j] == '"' { bs := bs * 2 + 1; }
      ghost var from := next;
      PieceIs(n, a[j], rest);
      assert |before| + bs + 1 <= |whole|;
      next := PutSlashes(cmd, next, bs);
      if next + 2 >= ROOM { return false, next; }
      assert cmd[..next] == before + Slashes(bs);
      cmd[next] := a[j];
      assert cmd[..next + 1] == cmd[..next] + [a[j]];
      Lay(before, Slashes(bs), [a[j]], rest);
      next := next + 1;
      j := j + 1;
    }
    QuotedEnd();
    assert a[j..] == "";
    ok := true;
  }

  lemma RunStops(a: string, j: nat)
    requires j <= |a| && (j < |a| ==> a[j] != '\\')
    ensures Run(a[j..]) == 0
  {
  }

  lemma QuotedEnd()
    ensures Quoted("") == ""
  {
    assert Run("") == 0;
  }

  lemma Lay(p: string, q: string, r: string, t: string)
    ensures p + q + r + t == p + (q + (r + t))
  {
  }

  lemma {:induction false} LineGrows(argv: seq<string>, i: nat)
    requires i < |argv|
    ensures |Line(argv)| >= |Line(argv[..i])| + |Sep(i + 1)| + |Quoted(argv[i])| + 2
    decreases |argv|
  {
    hide Quoted;
    var init := argv[..|argv| - 1];
    if i < |argv| - 1 {
      LineGrows(init, i);
      assert init[..i] == argv[..i];
    }
  }

  lemma LineSnoc(argv: seq<string>, i: nat)
    requires i < |argv|
    ensures Line(argv[..i + 1]) == Line(argv[..i]) + Sep(i + 1) + "\"" + Quoted(argv[i]) + "\""
  {
    hide Quoted, Sep;
    assert argv[..i + 1][..i] == argv[..i];
    Around5(Line(argv[..i]), Sep(i + 1), Quoted(argv[i]));
  }

  lemma Around5(l: string, s: string, q: string)
    ensures l + (s + ("\"" + q + "\"")) == l + s + "\"" + q + "\""
  {
  }

  /** The command line, or a refusal exactly when it does not fit. */
  method Build(argv: seq<string>, cmd: array<char>) returns (ok: bool, at: nat)
    requires cmd.Length == ROOM
    modifies cmd
    ensures ok <==> |Line(argv)| + 2 <= ROOM
    ensures ok ==> at < ROOM && cmd[..at] == Line(argv)
  {
    hide Line, Quoted;
    at := 0;
    LineNone();
    for i := 0 to |argv|
      invariant at + 2 <= ROOM && cmd[..at] == Line(argv[..i])
    {
      var a := argv[i];
      LineGrows(argv, i);
      LineSnoc(argv, i);
      if at + 3 >= ROOM { return false, at; }
      if i > 0 {
        cmd[at] := ' ';
        at := at + 1;
      }
      assert cmd[..at] == Line(argv[..i]) + Sep(i + 1);
      cmd[at] := '"';
      at := at + 1;
      ghost var head := cmd[..at];
      assert head == Line(argv[..i]) + Sep(i + 1) + "\"";
      var done;
      done, at := QuoteBody(cmd, at, a);
      if !done || at + 2 >= ROOM { return false, at; }
      cmd[at] := '"';
      assert cmd[..at + 1] == head + Quoted(a) + "\"";
      at := at + 1;
    }
    assert argv[..|argv|] == argv;
    ok := true;
  }

  lemma LineNone()
    ensures Line([]) == ""
  {
  }
}
