/** A draft whose test is longer than the reader's buffer: eight counted matchers of sixteen
    markers each, every one to be found nine times. */
module LongLine {
  import opened TargetC
  import opened DraftModel
  import opened ExprSource
  import opened Matchers
  import opened ExprTokens
  import opened ExprMeaning
  import opened Conditions
  import opened Order
  import opened Generate
  import opened IdList
  import opened IdRoom
  import opened IdEdits
  import opened DraftEdits
  import opened Refusals
  import opened Closed
  import opened Lines
  import opened CallText
  import opened Reader
  import opened Rebuild
  import opened ReadMeaning
  import opened RoundTrip
  import opened Reopen
  import opened Reopened
  import opened Samples
  import opened Widths
  import opened CutLines
  import opened Failures

  // ---- the draft ----------------------------------------------------------------------------

  function Run(a: nat, b: nat): (r: seq<nat>)
    requires a <= b
    ensures |r| == b - a && forall i :: 0 <= i < |r| ==> r[i] == a + i
  {
    seq(b - a, i requires 0 <= i < b - a => a + i)
  }

  /** One of the markers 10 to 16 of its own, and 17 to 31. */
  function With(x: nat): (r: seq<nat>)
    ensures |r| == 16 && r[0] == x && r[1..] == Run(17, 32)
  {
    [x] + Run(17, 32)
  }

  function SetOf(j: nat): (r: seq<nat>)
    ensures |r| == 16
  {
    if j == 0 then Run(0, 16) else With(if j == 1 then 16 else 8 + j)
  }

  function Heavy(strs: seq<nat>, thresh: nat): RLit { RLit(Find(FindMulti, SCAN_ALL, strs), thresh, false) }

  function Eight(): (r: seq<RLit>)
    ensures |r| == 8 && forall j :: 0 <= j < 8 ==> r[j] == Heavy(SetOf(j), 9)
  {
    seq(8, j requires 0 <= j < 8 => Heavy(SetOf(j), 9))
  }

  function Test(calls: seq<RLit>): RTest { RTest(false, calls) }

  function Top(calls: seq<RLit>): RTop { TLeaf(RLeaf(Test(calls), Infect, Auto)) }

  function Conds(calls: seq<RLit>): seq<Cond> { [Made(Some(Test(calls)), 0, -1, Infect, Auto)] }

  function Long(): (m: Model)
    ensures |m.grp| == 8 && |m.decl| == 32 && m.cnd == Conds(Eight()) && m.sizeMax == None
  {
    DraftOf(Eight(), 32, Conds(Eight()))
  }

  lemma SetRising(j: nat)
    requires j < 8
    ensures Rising(SetOf(j)) && forall i :: 0 <= i < 16 ==> SetOf(j)[i] < 32
  {
    var s := SetOf(j);
    if j > 0 {
      assert s == [s[0]] + Run(17, 32);
      assert forall i :: 1 <= i < 16 ==> s[i] == 16 + i;
    }
  }

  lemma SetsDiffer(a: nat, b: nat)
    requires a < b < 8
    ensures SetOf(a) != SetOf(b)
  {
    assert SetOf(b)[0] == if b == 1 then 16 else 8 + b;
  }

  lemma EightPlain()
    ensures PlainCalls(Eight(), 32)
  {
    hide SetOf, Rising;
    forall j: nat | j < 8
      ensures PlainCall(Eight()[j], 32)
    {
      SetRising(j);
    }
    forall a, b | 0 <= a < b < 8
      ensures StrsOf(Eight()[a].call) != StrsOf(Eight()[b].call)
    {
      SetsDiffer(a, b);
    }
    forall i: nat | i < 32
      ensures Claimed(Eight(), i)
    {
      SetHas(i);
      assert i in StrsOf(Eight()[if i < 16 then 0 else 1].call);
    }
  }

  lemma SetHas(i: nat)
    requires i < 32
    ensures i in SetOf(if i < 16 then 0 else 1)
  {
    if i < 16 { assert SetOf(0)[i] == i; } else { assert SetOf(1) == [16] + Run(17, 32) && SetOf(1)[i - 16] == i; }
  }

  // ---- it is a plain draft ------------------------------------------------------------------

  lemma {:induction false} NoBarIn(lits: seq<Lit>)
    ensures '|' !in Print(lits, false)
    decreases |lits|
  {
    hide Dec;
    if lits != [] {
      NoBarIn(lits[..|lits| - 1]);
      var l := lits[|lits| - 1];
      assert '|' !in Dec(l.n);
    }
  }

  lemma CondText(calls: seq<RLit>)
    requires 0 < |calls| <= MAX_GROUP
    ensures var c := Conds(calls)[0]; var text := c.expr;
      && text == Print(Numbered(calls, 0), false) && text != "" && |text| < EXPR_ROOM && RowList(text, false, |calls|)
      && Ids(text) == Numbered(calls, 0) && '|' !in text && c.op == false && c.parent == -1 && c.level == Infect
      && VariantOf(c) == Auto && c.join == JoinOr
    ensures forall g: nat :: g < |calls| ==> Consulted(Conds(calls), g)
  {
    hide Print, Ids, Numbered, Uses;
    ListText(calls, 0, false, |calls|);
    NoBarIn(Numbered(calls, 0));
    forall g: nat | g < |calls|
      ensures Consulted(Conds(calls), g)
    {
      UsesEach(calls, 0, false, g);
      assert Uses(Conds(calls)[0].expr, g);
    }
  }

  lemma LongReady()
    ensures Bounded(Long()) && Forest(Long().cnd) && Ready(Long(), []) && RowLists(Long()) && LitTotal(Long().cnd) == 8
    ensures forall g: nat :: g < 8 ==> !Shared(Long(), g) && Long().grp[g].thresh == 9 && !IsAt(Long().grp[g])
  {
    hide Shared, RowList, Consulted, Accepted, Ids, IsAt, Print, Numbered, Plain;
    var c := Conds(Eight());
    EightPlain();
    CondText(Eight());
    SampleReady(Eight(), 32, c);
    forall g: nat | g < 8
      ensures Long().grp[g].thresh == 9 && !IsAt(Long().grp[g])
    {
      SearchIs(Eight(), 32, c, g);
    }
    assert c[..0] == [];
    assert LitCount(c[0]) == 8;
    assert LitTotal(c) == LitTotal([]) + LitCount(c[0]);
  }

  lemma OneCond(c: seq<Cond>)
    requires |c| == 1 && c[0].parent == -1
    ensures Members(c, 0) == [0] && RunEnd(c, 0) == 0 && Heads(c, -1, 0) == [0] && !HasKids(c, 0) && Forest(c)
    ensures Ordered(c) == [0] && HeadsStrongest(c) && EndsRanked(c)
  {
    hide HasKids, ByLevel;
    FlatNoKids(c, 0);
    NextSib(c, 0);
    assert Heads(c, -1, 1) == [];
    assert Heads(c, -1, 0) == [0] + [];
    LoneOrder(c);
  }

  lemma LoneOrder(c: seq<Cond>)
    requires |c| == 1 && Members(c, 0) == [0] && Heads(c, -1, 0) == [0]
    ensures Ordered(c) == [0] && HeadsStrongest(c) && EndsRanked(c)
  {
    hide Members, RunEnd, Heads, ByLevel, Ordered;
    var heads: seq<nat> := [0];
    assert ByRank(c, heads);
    ByRankOrdered(c, heads);
    OrderedOf(c, heads);
  }

  lemma LongSeparable()
    ensures Separable(Long(), []) && Ordered(Long().cnd) == [0] && EndsRanked(Long().cnd)
  {
    hide Long, Conds, Bounded, Ready, RowLists, LitTotal, Shared, IsAt, HeadsStrongest, EndsRanked, Ordered;
    hide VariantOf, Forest;
    CondText(Eight());
    OneIs(Eight());
    OneCond(Long().cnd);
    LongReady();
    FlatSeparable(Long());
  }

  lemma OneIs(calls: seq<RLit>)
    ensures |Conds(calls)| == 1 && Conds(calls)[0].parent == -1
  {
    hide Print, Numbered;
  }

  lemma LongTops()
    ensures var m := Long();
      && TextsIn(m) && UnitIn1(m.cnd, Ordered(m.cnd)) && TopsOf(m, Ordered(m.cnd)) == [Top(Eight())]
  {
    hide Print, Ids, Numbered, CallTok, Strs, Mask, Members, HasKids, RunEnd, Ordered, Conds, Long, Heads;
    var m := Long();
    LongSeparable();
    CondText(Eight());
    OneIs(Eight());
    OneCond(m.cnd);
    LongLits();
    LongTest(m);
    LoneTop(m, 0);
    assert [0][1..] == [];
  }

  lemma LongLits()
    ensures var m := Long();
      |m.grp| == 8 && InRange(m, Numbered(Eight(), 0)) && LitsOf(m, Numbered(Eight(), 0)) == Eight()
  {
    hide CallTok, Strs, Mask, Conds, Eight, Bits, Groups, LitOf, SetOf;
    EightPlain();
    var m := Long();
    forall j: nat | j < 8
      ensures LitOf(m, Lit(j + 1, false)) == Eight()[j]
    {
      LongLit(j);
    }
  }

  lemma LongLit(j: nat)
    requires j < 8
    ensures LitOf(Long(), Lit(j + 1, false)) == Eight()[j]
  {
    hide CallTok, Strs, Mask, Conds, SetOf, Bits, Groups;
    EightPlain();
    SearchIs(Eight(), 32, Conds(Eight()), j);
  }

  lemma LongTest(m: Model)
    requires |m.cnd| == 1 && |m.grp| == 8 && Ids(m.cnd[0].expr) == Numbered(Eight(), 0) && m.cnd[0].op == false
    requires InRange(m, Numbered(Eight(), 0)) && LitsOf(m, Numbered(Eight(), 0)) == Eight()
    ensures TextsIn(m) && TestOf(m, 0) == Test(Eight())
  {
    hide Ids, Numbered, LitsOf;
  }

  // ---- its line -----------------------------------------------------------------------------

  lemma SetWidth(j: nat)
    requires j < 8
    ensures |Markers(SetOf(j))| == if j == 0 then 70 else 80
  {
    hide Dec, Markers;
    if j == 0 {
      MarkersWidth(Run(0, 10), 1);
      MarkersWidth(Run(10, 16), 2);
      MarkersAppend(Run(0, 10), Run(10, 16));
      assert Run(0, 10) + Run(10, 16) == Run(0, 16);
    } else {
      var s := SetOf(j);
      assert s == [s[0]] + Run(17, 32);
      MarkersWidth(s, 2);
    }
  }

  lemma HeavyWidth(j: nat)
    requires j < 8
    ensures |Spell(Eight()[j].call, WholeFile())| == if j == 0 then 111 else 121
    ensures |Spelled(LitToks(Eight()[j]), WholeFile())| == if j == 0 then 116 else 126
  {
    hide SetOf, Markers, Spell, Spelled, LitToks;
    SetWidth(j);
    CallWidth(Eight()[j]);
    KindWidth(FindMulti);
    LitWidth(Eight()[j]);
  }

  function Seven(): seq<RLit> { Eight()[..7] }

  lemma TestLong()
    ensures TestOk(Test(Eight())) && TestOk(Test(Seven()))
    ensures |Spelled(IfLine(Test(Eight())), WholeFile())| == 1031
    ensures |Spelled(TestToks(Test(Seven())), WholeFile())| == 896
  {
    hide Spell, Spelled, LitToks, TailToks, SetOf, LitOk;
    EightPlain();
    forall j: nat | j < 8
      ensures LitOk(Eight()[j])
    {
      SearchOk(Eight(), 32, j);
    }
    HeavyWidth(0);
    var s, t := Eight()[1..], Seven()[1..];
    forall i | 0 <= i < 7
      ensures |Spelled(LitToks(s[i]), WholeFile())| == 126
    {
      HeavyWidth(i + 1);
    }
    IfWidth(Test(Eight()));
    TailWidth(s, 126);
    assert forall i :: 0 <= i < 6 ==> t[i] == s[i];
    TailWidth(t, 126);
    SpelledAppend(LitToks(Seven()[0]), TailToks(false, t), WholeFile());
  }

  /** The part of the test in front of the eighth call, that call, and what follows it. */
  function Before(): seq<Tok> { [KIf, LPar] + TestToks(Test(Seven())) + [AndAnd] }

  function Last(): Tok { Find(FindMulti, SCAN_ALL, With(15)) }

  lemma LineIs()
    ensures IfLine(Test(Eight())) == Before() + [Last()] + [Ge, Num(9), RPar] && |Spelled(Before(), WholeFile())| == 904
  {
    hide Spell, Spelled, LitToks, TailToks, TestToks, SetOf, TestOk;
    TestLong();
    var last := Eight()[7];
    assert Seven() + [last] == Eight();
    TestAppend(Seven(), [last]);
    TestIs([last]);
    assert [last][1..] == [];
    TailEnd(false);
    LastToks();
    var name := WholeFile();
    SpelledAppend([KIf, LPar] + TestToks(Test(Seven())), [AndAnd], name);
    SpelledAppend([KIf, LPar], TestToks(Test(Seven())), name);
    Spelled2(KIf, LPar, name);
    Spelled1(AndAnd, name);
    Marks(name);
    NumWidth(0, name);
  }

  lemma LastToks()
    ensures Eight()[7] == Heavy(With(15), 9) && LitToks(Eight()[7]) == [Last(), Ge, Num(9)]
  {
  }

  // ---- where the buffer ends ----------------------------------------------------------------

  /** The eighth call up to the number of its last marker, and what is left of it. */
  function Kept(): string { CALL + ("multi" + ("(" + (WHOLE_FILE + (Markers([15] + Run(17, 31)) + ", s")))) }

  const LEFT: string := "31)"

  lemma LastSpelled()
    ensures Spell(Last(), WholeFile()) == Kept() + LEFT && |Kept()| == 118 && |LEFT| == 3
  {
    hide Markers, Run, Dec;
    var strs := [15] + Run(17, 31);
    WholeFound(SCAN_ALL);
    assert With(15) == strs + [31];
    MarkersAppend(strs, [31]);
    Dec31();
    MarkersWidth(strs, 2);
    Regroup(Markers(strs));
  }

  lemma Dec31()
    ensures Markers([31]) == ", s" + "31" + ""
  {
    assert Dec(3) == "3" && Dec(31) == "31";
    assert [31][1..] == [] && Markers([]) == "";
  }

  lemma Regroup(m: string)
    ensures CALL + ("multi" + "(" + (WHOLE_FILE + (m + (", s" + "31" + "") + ")")))
         == CALL + ("multi" + ("(" + (WHOLE_FILE + (m + ", s")))) + LEFT
    ensures CALL + ("multi" + ("(" + (WHOLE_FILE + (m + (", s" + "31" + "") + ")"))))
         == CALL + ("multi" + ("(" + (WHOLE_FILE + (m + ", s")))) + LEFT
  {
  }

  lemma KeptChars()
    ensures CallChars(Kept()) && CALL <= Kept() && CallChars(LEFT) && !(CALL <= LEFT)
  {
    hide Markers, Run;
    WholeFileName();
    MarkersChars([15] + Run(17, 31));
    assert CallChars(CALL) && CallChars("multi") && CallChars("(") && CallChars(", s");
  }

  /** What the reader makes of it: fifteen markers and one without a number. */
  lemma KeptAsks(h: Header)
    requires h.name == WholeFile()
    ensures Asks(Kept(), h) == Some(AskedOf(Heavy([15] + Run(17, 31), 2).call, h).(ids := IdsOf([15] + Run(17, 31))
      + ["s"]))
  {
    hide Markers, Run, Asks, MaskOf, Hold, IdsOf;
    var strs := [15] + Run(17, 31);
    assert KindWord(FindMulti) == "multi" && WholeFile()(SCAN_ALL) == WHOLE_FILE;
    assert Few(strs) by { assert forall i :: 1 <= i < |strs| ==> strs[i] == Run(17, 31)[i - 1]; }
    FindRead(FindMulti, SCAN_ALL, strs, ", s", h);
    LoneS();
  }

  lemma LoneS()
    ensures MarkerIds(", s") == ["s"]
  {
    MarkerNext("s", "");
    assert ", " + ("s" + "") == ", s";
    assert MarkerIds("") == [];
    assert ["s"] + [] == ["s"];
  }

  lemma Lettered()
    ensures forall i :: 0 <= i < |Before()| ==> Spell(Before()[i], WholeFile()) != ""
  {
    hide TestToks;
    TestLong();
    LineInside(Test(Seven()));
    assert forall t :: t in Before() ==> t == KIf || t == LPar || t == AndAnd || t in TestToks(Test(Seven()));
    forall i | 0 <= i < |Before()|
      ensures Spell(Before()[i], WholeFile()) != ""
    {
      var t := Before()[i];
      assert t in Before();
      SpellSome(t, WholeFile());
    }
  }

  lemma SpellSome(t: Tok, name: Naming)
    requires !t.Raw?
    ensures Spell(t, name) != ""
  {
  }

  /** The two lines the buffer makes of the test. */
  lemma LongPieces()
    ensures Pieces(IfLine(Test(Eight())), 1022, WholeFile())
      == [Before() + [Raw(Kept())], [Raw(LEFT), Ge, Num(9), RPar]]
  {
    hide Spell, Spelled, Before, Last, Kept, CutHead, CutTail, Pieces, IfLine, Eight, TestOk, WholeFile;
    var name, line := WholeFile(), IfLine(Test(Eight()));
    LineIs();
    TestLong();
    LastSpelled();
    Lettered();
    CutInside(Before(), Last(), [Ge, Num(9), RPar], 1022, name);
    TwoPieces(line, 1022, name);
    Halves(Kept(), LEFT);
    assert [Raw(LEFT)] + [Ge, Num(9), RPar] == [Raw(LEFT), Ge, Num(9), RPar];
  }

  lemma Halves(a: string, b: string)
    ensures (a + b)[..|a|] == a && (a + b)[|a|..] == b
  {
  }

  // ---- and the draft that comes back --------------------------------------------------------

  /** The matchers read: seven of them as they were, the eighth without its last marker and to be
      found twice. */
  function Seen(): (r: seq<RLit>)
    ensures |r| == 8
  {
    Seven() + [Heavy([15] + Run(17, 31), 2)]
  }

  lemma TwoRead(st: RState, h: Header)
    requires h.name == WholeFile() && |st.cnd| < MAX_GROUP
    ensures ReadPieces(st, Pieces(IfLine(Test(Eight())), 1022, h.name), h) == AddLits(Begin(st, false), Seen(), h)
  {
    hide Kept, AddLits, AddLit, Call, Asks, ReadLine, Pieces, TestToks, Run, Begin, TestOk, CallChars, AskedOf, Eight;
    hide IfLine;
    var l := Heavy([15] + Run(17, 31), 2);
    LongPieces();
    TestLong();
    KeptChars();
    KeptAsks(h);
    var a := Asks(Kept(), h).value;
    assert Before() + [Raw(Kept())] == [KIf, LPar] + TestToks(Test(Seven())) + [AndAnd, Raw(Kept())];
    FirstPiece(st, Test(Seven()), Kept(), a, h);
    var mid := AddLits(Begin(st, false), Seven(), h);
    CutCall(mid, l, a, h);
    AddMore(Begin(st, false), Seven(), l, h);
    SecondPiece(AddLits(Begin(st, false), Seen(), h), LEFT, 9, h);
    var p := [Before() + [Raw(Kept())], [Raw(LEFT), Ge, Num(9), RPar]];
    PiecesTwo(st, p[0], p[1], h);
  }

  lemma PiecesTwo(st: RState, a: seq<Tok>, b: seq<Tok>, h: Header)
    ensures ReadPieces(st, [a, b], h) == ReadLine(ReadLine(st, a, h), b, h)
  {
    hide ReadLine;
    assert [a, b][1..] == [b] && [b][1..] == [];
    assert ReadPieces(ReadLine(st, a, h), [b], h) == ReadLine(ReadLine(st, a, h), b, h);
  }

  lemma SeenOk()
    ensures TestOk(Test(Seen())) && CallsOk(Seen(), 32, OneRange())
  {
    hide Eight, Run, MaskOf, Hold;
    EightPlain();
    forall j: nat | j < 7
      ensures LitOk(Seen()[j]) && CallOk(Seen()[j].call, 32, OneRange())
    {
      SearchOk(Eight(), 32, j);
    }
    var strs := [15] + Run(17, 31);
    assert forall i :: 1 <= i < |strs| ==> strs[i] == Run(17, 31)[i - 1];
    WholeFound(SCAN_ALL);
    assert forall s :: s in strs ==> s == 15 || s in Run(17, 31);
    assert Seen()[7] == Heavy(strs, 2);
  }

  lemma {:induction false} OpenedSame(open: nat, line: seq<Tok>)
    requires forall t :: t in line ==> t != LBrace && t != RBrace
    ensures Opened(open, line) == open
    decreases |line|
  {
    if line != [] {
      assert line[0] in line && forall t :: t in line[1..] ==> t in line;
      OpenedSame(open, line[1..]);
    }
  }

  lemma {:induction false} LitsLen(st: RState, s: seq<RLit>, h: Header)
    ensures |AddLits(st, s, h).decl| == |st.decl|
    decreases |s|
  {
    hide Marked, AskedOf, Fitted;
    if s != [] { LitsLen(AddLit(st, s[0], h), s[1..], h); }
  }

  /** The verdict and the closing brace. */
  lemma RestRead(st: RState, calls: seq<RLit>, h: Header, at: Layout)
    requires h.name == WholeFile() && at.open <= 2
    requires Content(st, calls, [Made(Some(Test(calls)), 0, -1, NoVerdict, Auto)], h) && st.pendIf == 0
    ensures var r := ReadAll(st, ScanLine(Infect, Auto) + [Newline] + [RBrace, Newline], at, h);
      r.cnd == Conds(calls) && r.grp == st.grp && r.decl == st.decl
  {
    hide ReadLine, Brief, AllFit, Judged, Content, Made, Wired, Groups, Spelled, ReadAll, ReadWhole;
    var a, b: seq<Tok> := ScanLine(Infect, Auto), [RBrace];
    var t := a + [Newline] + [RBrace, Newline];
    ScanBrief(Infect);
    Text1(b);
    assert Text([a, b]) == a + [Newline] + Text([b]) by { assert [a, b][1..] == [b]; }
    assert b + [Newline] == [RBrace, Newline];
    BriefFit([a, b], at, h.name);
    FitsWhole(st, t, at, h);
    Text1(a);
    ReadText(st, [a], [RBrace, Newline], h);
    ReadOne(st, a, h);
    ContentLength(st, calls, [Made(Some(Test(calls)), 0, -1, NoVerdict, Auto)], h);
    ScanRead(st, Infect, Auto, 0, h);
    JudgedMade(Some(Test(calls)), 0, -1, Infect, Auto);
    CloseLine(ReadLine(st, a, h), h);
  }

  lemma OneLineRead(st: RState, line: seq<Tok>, rest: seq<Tok>, at: Layout, h: Header)
    requires Newline !in line
    ensures ReadAll(st, line + [Newline] + rest, at, h)
         == ReadAll(ReadPieces(st, Pieces(line, Room(at, line), h.name), h), rest, Lines.Next(at, line), h)
  {
    hide ReadPieces, Pieces, Room, Lines.Next;
    var t := line + [Newline] + rest;
    LineLenIs(line, rest);
    assert t[..|line|] == line && t[|line| + 1..] == rest;
  }

  /** After the test, the condition over the matchers seen. */
  lemma LongTested()
    ensures var h, st := OneRange(), Start(Blank(32)); var r := AddLits(Begin(st, false), Seen(), h);
      && Content(r, Seen(), [Made(Some(Test(Seen())), 0, -1, NoVerdict, Auto)], h) && r.pendIf == 0 && |r.decl| == 32
  {
    hide AddLits, Content, Seen, Made, Blank, TestOk;
    var h, st := OneRange(), Start(Blank(32));
    StartContent(Blank(32), h);
    SeenOk();
    Tested(st, Test(Seen()), h, [], []);
    assert [] + Seen() == Seen();
    LitsLen(Begin(st, false), Seen(), h);
    var c := Made(Some(Test(Seen())), 0, -1, NoVerdict, Auto);
    assert [] + [c] == [c];
  }

  /** The draft read back: the same condition over the matchers seen. */
  lemma LongBack()
    ensures var h := OneRange(); var t := IfLine(Test(Eight())) + [Newline]
      + (ScanLine(Infect, Auto) + [Newline] + [RBrace, Newline]);
      var back := ReadBack(Blank(32), t, h);
      && back.cnd == Conds(Seen()) && back.grp == Groups(Seen(), h) && Wired(back.decl, Seen()) && |back.decl| == 32
      && back.sizeMax == None
  {
    hide AddLits, ReadPieces, Pieces, Content, Wired, Groups, Seen, Made, Eight, Blank, IfLine, ScanLine, Spelled;
    hide TestOk, Conds;
    hide Begin, ReadAll, Opened, Start;
    var h, line := OneRange(), IfLine(Test(Eight()));
    var rest := ScanLine(Infect, Auto) + [Newline] + [RBrace, Newline];
    var st := Start(Blank(32));
    TestLong();
    LineShape(Test(Eight()));
    OneLineRead(st, line, rest, INSIDE, h);
    StartEmpty(Blank(32));
    TwoRead(st, h);
    LongTested();
    var r := AddLits(Begin(st, false), Seen(), h);
    RestRead(r, Seen(), h, Lines.Next(INSIDE, line));
    ContentParts(r, Seen(), [Made(Some(Test(Seen())), 0, -1, NoVerdict, Auto)], h);
  }

  lemma StartEmpty(decl: seq<Decl>)
    ensures Start(decl).cnd == []
  {
  }

  lemma ContentParts(st: RState, calls: seq<RLit>, cnd: seq<Cond>, h: Header)
    requires Content(st, calls, cnd, h)
    ensures st.grp == Groups(calls, h) && Wired(st.decl, calls)
  {
  }

  lemma LineShape(t: RTest)
    requires TestOk(t)
    ensures var line := IfLine(t);
      Newline !in line && line[0] == KIf && line[|line| - 1] == RPar && Opened(1, line) == 1
  {
    hide TestToks, TestOk;
    IfClean(t);
    LineInside(t);
    assert forall x :: x in IfLine(t) ==> x in [KIf, LPar] || x in TestToks(t) || x == RPar;
    OpenedSame(1, IfLine(t));
  }

  // ---- what the two say ---------------------------------------------------------------------

  lemma OneMeans(m: Model, calls: seq<RLit>, h: Header, o: Obj)
    requires m.cnd == Conds(calls) && m.grp == Groups(calls, h) && Wired(m.decl, calls) && m.sizeMax == None
    requires CallsOk(calls, |m.decl|, h) && TestOk(Test(calls))
    ensures |m.grp| <= 32 && Forest(m.cnd)
    ensures Meaning(m, o) == if TestHolds(Test(calls), o) then Report(Infect, Auto) else Fell
  {
    hide Wired, Groups, CallsOk, TestOk, TestHolds, FirstOf, Ordered, Print;
    FewMatchers(m, calls, h);
    var s := [Top(calls)];
    assert s[1..] == [] && calls + [] == calls;
    OneCond(m.cnd);
    OneFrom(m, calls, h);
    hide From;
    TopsRead(m, calls, s, 0, 0, h, o);
  }

  lemma OneFrom(m: Model, calls: seq<RLit>, h: Header)
    requires m.cnd == Conds(calls) && m.grp == Groups(calls, h) && Wired(m.decl, calls) && |m.grp| <= 32
    requires CallsOk(calls, |m.decl|, h) && TestOk(Test(calls))
    ensures From(m, calls, [Top(calls)], 0, 0, h)
  {
    hide Wired, Groups, CallsOk, TestOk, Print, Numbered;
    var s := [Top(calls)];
    assert s[1..] == [] && calls + [] == calls;
    assert TopsLits(s) == TopLits(s[0]) + TopsLits(s[1..]);
    assert TopsConds(s, 0, 0) == TopConds(s[0], 0, 0) + [];
    assert TopOk(s[0]) by { assert NameOk(Auto); }
    assert ShallowAt(m.cnd, 0, 0);
  }

  // ---- an object where they differ ----------------------------------------------------------

  lemma {:induction false} HitsAppend(o: Obj, r: bv32, a: seq<nat>, b: seq<nat>)
    ensures Hits(o, r, a + b) == Hits(o, r, a) + Hits(o, r, b)
    decreases |a|
  {
    if a == [] {
      assert a + b == b;
    } else {
      assert (a + b)[1..] == a[1..] + b;
      HitsAppend(o, r, a[1..], b);
    }
  }

  /** The markers 0 to 14 and 16 to 24. */
  function Most(): Obj { Found(s => s <= 14 || 16 <= s <= 24) }

  lemma RunHits(a: nat, b: nat)
    requires a <= b
    ensures b <= 15 || (16 <= a && b <= 25) ==> Hits(Most(), SCAN_ALL, Run(a, b)) == b - a
    ensures 25 <= a ==> Hits(Most(), SCAN_ALL, Run(a, b)) == 0
  {
    hide Hits;
    var o := Most();
    forall s: nat | s in Run(a, b)
      ensures a <= s < b
    {
      var i :| 0 <= i < b - a && Run(a, b)[i] == s;
    }
    assert forall s: nat :: o.found(SCAN_ALL, s) <==> s <= 14 || 16 <= s <= 24;
    HitsAll(o, Run(a, b));
  }

  lemma HitsAll(o: Obj, s: seq<nat>)
    ensures (forall x :: x in s ==> o.found(SCAN_ALL, x)) ==> Hits(o, SCAN_ALL, s) == |s|
    ensures (forall x :: x in s ==> !o.found(SCAN_ALL, x)) ==> Hits(o, SCAN_ALL, s) == 0
  {
  }

  lemma OneHit(x: nat)
    ensures Hits(Most(), SCAN_ALL, [x]) == if x <= 14 || 16 <= x <= 24 then 1 else 0
  {
    assert [x][1..] == [];
  }

  lemma SetHits(x: nat, b: nat)
    requires 25 <= b
    ensures Hits(Most(), SCAN_ALL, [x] + Run(17, b)) == 8 + if x <= 14 || 16 <= x <= 24 then 1 else 0
  {
    hide Hits, Most;
    var o := Most();
    assert Run(17, b) == Run(17, 25) + Run(25, b);
    RunHits(17, 25);
    RunHits(25, b);
    OneHit(x);
    HitsAppend(o, SCAN_ALL, Run(17, 25), Run(25, b));
    HitsAppend(o, SCAN_ALL, [x], Run(17, b));
  }

  lemma FirstHits()
    ensures Hits(Most(), SCAN_ALL, Run(0, 16)) == 15
  {
    hide Hits, Most;
    assert Run(0, 16) == Run(0, 15) + [15];
    RunHits(0, 15);
    OneHit(15);
    HitsAppend(Most(), SCAN_ALL, Run(0, 15), [15]);
  }

  lemma HeavyHolds(strs: seq<nat>, thresh: nat, o: Obj)
    ensures LitHolds(Heavy(strs, thresh), o) <==> Hits(o, SCAN_ALL, strs) >= thresh
  {
  }

  lemma SetHeavy(j: nat)
    requires j < 8
    ensures LitHolds(Eight()[j], Most()) <==> j < 7
  {
    hide Hits, Most, LitHolds;
    HeavyHolds(SetOf(j), 9, Most());
    if j == 0 { FirstHits(); } else { SetHits(if j == 1 then 16 else 8 + j, 32); }
  }

  lemma SeenHeavy(j: nat)
    requires j < 8
    ensures LitHolds(Seen()[j], Most())
  {
    hide Hits, Most, Run, Eight, LitHolds;
    if j < 7 {
      SetHeavy(j);
    } else {
      SetHits(15, 31);
      HeavyHolds([15] + Run(17, 31), 2, Most());
    }
  }

  lemma EightFails()
    ensures TestOk(Test(Eight())) && TestOk(Test(Seen()))
    ensures !TestHolds(Test(Eight()), Most()) && TestHolds(Test(Seen()), Most())
  {
    hide Most, Eight, Seen, LitHolds, LitOk, IfLine, Spelled;
    TestLong();
    SeenOk();
    SetHeavy(7);
    forall j: nat | j < 8
      ensures LitHolds(Seen()[j], Most())
    {
      SeenHeavy(j);
    }
    NotAll(Test(Eight()), 7, Most());
    AllHold(Test(Seen()), Most());
  }

  lemma NotAll(t: RTest, j: nat, o: Obj)
    requires TestOk(t) && !t.op && j < |t.lits| && !LitHolds(t.lits[j], o)
    ensures !TestHolds(t, o)
  {
    hide LitHolds;
  }

  lemma AllHold(t: RTest, o: Obj)
    requires TestOk(t) && !t.op && forall j: nat :: j < |t.lits| ==> LitHolds(t.lits[j], o)
    ensures TestHolds(t, o)
  {
    hide LitHolds;
  }

  /** Everything but the length of its line is as the reader wants it, and what comes back gives
      another verdict. */
  lemma LongComesBack()
    ensures var m := Long();
      && Separable(m, []) && |m.grp| <= 32 && Forest(m.cnd) && EndsRanked(m.cnd)
          && Apart(WholeFile(), Ranges(m, |m.grp|))
      && !AllFit(BodyToks(m), INSIDE, WholeFile()) && Meaning(m, Most()) == Fell
      && var back := Back(m, Blank(32), WholeFile());
      && |back.grp| <= 32 && Forest(back.cnd) && Meaning(back, Most()) == Report(Infect, Auto)
  {
    hide Long, Separable, BodyToks, Most, TestHolds, Meaning, Eight, Seen, Wired, Groups, CallsOk, TestOk, Conds;
    hide ReadBack, EndsRanked;
    hide AllFit, Apart, Ranges, Blank, IfLine, ScanLine, TextsIn, TopsOf;
    var m, h := Long(), OneRange();
    LongSeparable();
    LongReady();
    BodyIs(m, []);
    LongTops();
    LeafText();
    LongRange();
    LongWide();
    LongBack();
    EightFails();
    SeenOk();
    LongFrom();
    OneMeans(m, Eight(), h, Most());
    OneMeans(Back(m, Blank(32), WholeFile()), Seen(), h, Most());
  }

  lemma LeafText()
    ensures Text(TopsLines([Top(Eight())])) + [RBrace, Newline]
         == IfLine(Test(Eight())) + [Newline] + (ScanLine(Infect, Auto) + [Newline] + [RBrace, Newline])
  {
    hide IfLine, ScanLine, Eight;
    var a, b := IfLine(Test(Eight())), ScanLine(Infect, Auto);
    var s := [Top(Eight())];
    assert s[1..] == [];
    assert TopsLines(s) == [a, b] + [];
    assert [a, b] + [] == [a] + [b] == [a, b];
    TextAppend([a], [b]);
    Text1(a);
    Text1(b);
  }

  lemma LongRange()
    ensures |Long().grp| <= 32 && Ranges(Long(), 8) == [SCAN_ALL] && Apart(WholeFile(), Ranges(Long(), 8))
  {
    hide Mask, Strs, Conds, Ranges;
    var m := Long();
    EightPlain();
    forall g: nat | g < 8
      ensures Mask(m, g) == SCAN_ALL && Strs(m, g) != []
    {
      SearchIs(Eight(), 32, Conds(Eight()), g);
    }
    OneRangeApart(m);
    RangesOne(m, 8);
  }

  lemma {:induction false} RangesOne(m: Model, g: nat)
    requires 0 < g <= |m.grp| <= 32 && forall k :: 0 <= k < g ==> Mask(m, k) == SCAN_ALL && Strs(m, k) != []
    ensures Ranges(m, g) == [SCAN_ALL]
    decreases g
  {
    hide Mask, Strs;
    if g > 1 { RangesOne(m, g - 1); }
  }

  lemma TooWide(line: seq<Tok>, rest: seq<Tok>, at: Layout, name: Naming)
    requires Newline !in line && |Spelled(line, name)| > Room(at, line)
    ensures !AllFit(line + [Newline] + rest, at, name)
  {
    hide Spelled, Room;
    LineLenIs(line, rest);
    assert (line + [Newline] + rest)[..|line|] == line;
  }

  lemma LongWide()
    ensures var t := IfLine(Test(Eight())) + [Newline] + (ScanLine(Infect, Auto) + [Newline] + [RBrace, Newline]);
      !AllFit(t, INSIDE, WholeFile())
  {
    hide Spelled, IfLine, ScanLine, TestOk, Eight, AllFit, Opened;
    TestLong();
    LineShape(Test(Eight()));
    TooWide(IfLine(Test(Eight())), ScanLine(Infect, Auto) + [Newline] + [RBrace, Newline], INSIDE, WholeFile());
  }

  lemma LongFrom()
    ensures var m := Long();
      m.grp == Groups(Eight(), OneRange()) && Wired(m.decl, Eight()) && CallsOk(Eight(), 32, OneRange())
  {
    hide Wired, Groups, CallOk, Eight, Conds;
    EightPlain();
    BitsWired(Eight(), 32);
    forall j: nat | j < 8
      ensures CallOk(Eight()[j].call, 32, OneRange())
    {
      SearchOk(Eight(), 32, j);
    }
  }
}
