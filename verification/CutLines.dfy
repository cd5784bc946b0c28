/** How a test is read of which the buffer holds only the beginning. */
module CutLines {
  import opened TargetC
  import opened DraftModel
  import opened ExprSource
  import opened IdList
  import opened Lines
  import opened CallText
  import opened Reader
  import opened Rebuild
  import opened RoundTrip

  // ---- where the cut falls ----------------------------------------------------------------

  /** A line cut inside token c. */
  lemma {:induction false} CutInside(a: seq<Tok>, c: Tok, b: seq<Tok>, n: nat, name: Naming)
    requires 0 < n && |Spelled(a, name)| <= n < |Spelled(a, name)| + |Spell(c, name)|
    requires forall i :: 0 <= i < |a| ==> Spell(a[i], name) != ""
    requires a != [] ==> |Spelled(a, name)| < n
    ensures var k := n - |Spelled(a, name)|; var s := a + [c] + b;
      && CutHead(s, n, name) == a + [Raw(Spell(c, name)[..k])]
      && CutTail(s, n, name) == [Raw(Spell(c, name)[k..])] + b
    decreases |a|
  {
    hide Spell;
    var s := a + [c] + b;
    if a == [] {
      assert s[0] == c && s[1..] == b;
    } else {
      assert s[0] == a[0] && s[1..] == a[1..] + [c] + b;
      assert Spelled(a, name) == Spell(a[0], name) + Spelled(a[1..], name);
      CutInside(a[1..], c, b, n - |Spell(a[0], name)|, name);
      var k := n - |Spelled(a, name)|;
      assert [a[0]] + (a[1..] + [Raw(Spell(c, name)[..k])]) == a + [Raw(Spell(c, name)[..k])];
    }
  }

  lemma TwoPieces(s: seq<Tok>, room: nat, name: Naming)
    requires 0 < room < |Spelled(s, name)| <= room + LINE_ROOM
    ensures Pieces(s, room, name) == [CutHead(s, room, name), CutTail(s, room, name)]
  {
    hide Spelled, CutHead, CutTail;
    CutExact(s, room, name);
    assert Pieces(CutTail(s, room, name), LINE_ROOM, name) == [CutTail(s, room, name)];
  }

  // ---- what the reader finds in what is left of a call -------------------------------------

  /** Characters a call is made of. */
  predicate InCall(c: char) { NameChar(c) || c == '(' || c == ')' || c == ',' || c == ' ' }

  predicate CallChars(s: string) { forall i :: 0 <= i < |s| ==> InCall(s[i]) }

  lemma {:induction false} NoWord(s: string, w: string, i: nat)
    requires CallChars(s) && w != "" && !InCall(w[0])
    ensures !Word(s, w, i)
    decreases |s| - i
  {
    hide InCall;
    if i + |w| <= |s| {
      assert s[i..i + |w|][0] == s[i];
      NoWord(s, w, i + 1);
    }
  }

  lemma Strange(s: string)
    requires CallChars(s)
    ensures '{' !in s && '=' !in s && !Word(s, "||", 0) && !Word(s, "&&", 0) && !Word(s, ">=", 0)
  {
    hide Word;
    NoWord(s, "||", 0);
    NoWord(s, "&&", 0);
    NoWord(s, ">=", 0);
  }

  lemma {:induction false} MarkersChars(strs: seq<nat>)
    ensures CallChars(Markers(strs))
    decreases |strs|
  {
    hide Dec;
    if strs != [] {
      MarkersChars(strs[1..]);
      var d := Dec(strs[0]);
      assert CallChars(d);
    }
  }

  // ---- a marker's name cut to nothing ------------------------------------------------------

  /** "s" is no marker. */
  lemma NoMarker(decl: seq<Decl>, ids: seq<string>, g: nat)
    requires g < MAX_GROUP
    ensures Marked(decl, ids + ["s"], g) == Marked(decl, ids, g)
  {
    hide SetBit;
    forall i: nat | i < |decl|
      ensures IdOf(i) in ids + ["s"] <==> IdOf(i) in ids
    {
      assert |IdOf(i)| > 1;
    }
  }

  /** A list of markers cut in front of a number, as the matcher of those before. */
  lemma CutCall(st: RState, l: RLit, a: Asked, h: Header)
    requires AskedOf(l.call, h).(ids := IdsOf(StrsOf(l.call)) + ["s"]) == a
    ensures Call(st, Some(a), l.neg, l.thresh) == AddLit(st, l, h)
  {
    hide Marked, IdsOf, MaskOf, Hold, Fitted;
    if |st.grp| < MAX_GROUP { NoMarker(st.decl, IdsOf(StrsOf(l.call)), |st.grp|); }
  }

  // ---- the two pieces ---------------------------------------------------------------------

  /** The first: the calls before the cut, and a counted one without its number. */
  lemma FirstPiece(st: RState, t: RTest, w: string, a: Asked, h: Header)
    requires TestOk(t) && !t.op && |st.cnd| < MAX_GROUP && CallChars(w) && CALL <= w && Asks(w, h) == Some(a)
    ensures var line := [KIf, LPar] + TestToks(t) + [AndAnd, Raw(w)];
      ReadLine(st, line, h) == Call(AddLits(Begin(st, false), t.lits, h), Some(a), false, 2)
  {
    hide Calls, AddLits, TestToks, Asks, Call, Opens, HasOr, SetOr, TestOk, CallChars, CounterLine, Spelled;
    var line := [KIf, LPar] + TestToks(t) + [AndAnd, Raw(w)];
    CutShape(t, w);
    assert line[0] == KIf && Bare(st, line) == st && KIf in line;
    var begun := Begin(st, false);
    assert If(st, line) == begun;
    Unjoined(begun, line);
    FirstCalls(begun, line, t, w, a, h);
    var r := Call(AddLits(begun, t.lits, h), Some(a), false, 2);
    NoScan(line);
    NoBraces(r, line, []);
    assert line + [] == line;
  }

  /** Nothing on it but the test. */
  lemma CutShape(t: RTest, w: string)
    requires TestOk(t) && !t.op && CallChars(w)
    ensures var line := [KIf, LPar] + TestToks(t) + [AndAnd, Raw(w)];
      && !HasOr(line) && !Opens(KIf) && !CounterLine(line) && forall x :: x in line ==>
          !x.Scan? && !Opens(x) && x != RBrace
  {
    hide TestToks, LitOk, Word, CallChars;
    var line := [KIf, LPar] + TestToks(t) + [AndAnd, Raw(w)];
    Strange(w);
    LineInside(t);
    assert forall x :: x in TestToks(t) ==> x in IfLine(t);
    assert line[0] in line;
    forall x | x in line
      ensures x == KIf || x == LPar || x == AndAnd || x == Raw(w) || (x in TestToks(t) && InsideTest(x))
    {
    }
    assert forall i :: 0 <= i < |line| ==> line[i] in line;
  }

  lemma Unjoined(st: RState, line: seq<Tok>)
    requires !HasOr(line)
    ensures SetOr(st, line) == st
  {
    hide HasOr;
  }

  lemma FirstCalls(st: RState, line: seq<Tok>, t: RTest, w: string, a: Asked, h: Header)
    requires TestOk(t) && CallChars(w) && CALL <= w && Asks(w, h) == Some(a)
    requires line == [KIf, LPar] + TestToks(t) + [AndAnd, Raw(w)]
    ensures Calls(st, line, 0, h) == Call(AddLits(st, t.lits, h), Some(a), false, 2)
  {
    hide Calls, AddLits, TestToks, Word, Asks, Call, CallChars, TestOk;
    var after := [AndAnd, Raw(w)];
    Strange(w);
    TestPart(st, line, t, after, h);
    var st2, at := AddLits(st, t.lits, h), 2 + |TestToks(t)|;
    assert line[at] == after[0] && line[at + 1] == after[1] && |line| == at + 2;
    CallsSkip(st2, line, at, h);
    RawCall(st2, line, at + 1, w, a, h);
  }

  lemma RawCall(st: RState, line: seq<Tok>, i: nat, w: string, a: Asked, h: Header)
    requires 0 < i && |line| == i + 1 && line[i] == Raw(w) && line[i - 1] == AndAnd
    requires CALL <= w && Asks(w, h) == Some(a) && !Word(w, ">=", 0)
    ensures Calls(st, line, i, h) == Call(st, Some(a), false, 2)
  {
    hide Call, Asks, Word;
    assert ThreshAt(line, i + 1) == 2;
    CallsEnd(Call(st, Some(a), false, 2), line, h);
  }

  /** The second, with nothing in it the reader knows. */
  lemma SecondPiece(st: RState, y: string, n: nat, h: Header)
    requires CallChars(y) && !(CALL <= y)
    ensures ReadLine(st, [Raw(y), Ge, Num(n), RPar], h) == st
  {
    hide Word, CallChars;
    var line := [Raw(y), Ge, Num(n), RPar];
    Strange(y);
    assert Bare(st, line) == st && KIf !in line;
    assert !HasCall(line) && SetOr(st, line) == st;
    CallsSkip(st, line, 0, h);
    CallsSkip(st, line, 1, h);
    CallsSkip(st, line, 2, h);
    CallsSkip(st, line, 3, h);
    CallsEnd(st, line, h);
    assert forall x :: x in line ==> !x.Scan?;
    NoScan(line);
    NoParen(st, y, n);
  }

  lemma NoParen(st: RState, y: string, n: nat)
    requires '{' !in y
    ensures Braces(st, [Raw(y), Ge, Num(n), RPar]) == st
  {
    var line := [Raw(y), Ge, Num(n), RPar];
    NoBraces(st, line, []);
    assert line + [] == line;
  }

  // ---- and the lines after ----------------------------------------------------------------

  lemma {:induction false} AddMore(st: RState, s: seq<RLit>, l: RLit, h: Header)
    ensures AddLits(st, s + [l], h) == AddLit(AddLits(st, s, h), l, h)
    decreases |s|
  {
    hide AddLit;
    if s == [] {
      assert s + [l] == [l] && [l][1..] == [];
    } else {
      assert (s + [l])[1..] == s[1..] + [l] && (s + [l])[0] == s[0];
      AddMore(AddLit(st, s[0], h), s[1..], l, h);
    }
  }
}
