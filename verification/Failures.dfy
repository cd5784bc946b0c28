/** Drafts at which the reader or the level loop does not keep what was said. */
module Failures {
  import opened TargetC
  import opened DraftModel
  import opened ExprSource
  import opened Matchers
  import opened ExprTokens
  import opened ExprMeaning
  import opened Conditions
  import opened BranchTokens
  import opened Order
  import opened Generate
  import opened IdList
  import opened IdRoom
  import opened IdEdits
  import opened DraftEdits
  import opened Refusals
  import opened Closed
  import opened Lines
  import opened CallText
  import opened Reader
  import opened Rebuild
  import opened ReadMeaning
  import opened RoundTrip
  import opened Reopen
  import opened Reopened
  import opened Samples
  import opened Widths
  import Verdicts

  // ---- conditions that each ask one matcher -------------------------------------------------

  /** Is marker k anywhere in the file? */
  function Any(k: nat): RLit { RLit(Find(FindAny, SCAN_ALL, [k]), 0, false) }

  function AnyOf(n: nat): (r: seq<RLit>)
    ensures |r| == n && forall k :: 0 <= k < n ==> r[k] == Any(k)
  {
    seq(n, k requires 0 <= k < n => Any(k))
  }

  function One(k: nat, join: Join, level: Level): Cond {
    Cond(Print(Numbered([Any(k)], k), false), false, join, level, 0, "", -1)
  }

  /** Condition k asks matcher k. */
  ghost predicate Ones(cnd: seq<Cond>) {
    forall k :: 0 <= k < |cnd| ==> cnd[k] == One(k, cnd[k].join, cnd[k].level)
  }

  function AskingOne(cnd: seq<Cond>): (m: Model)
    requires |cnd| <= MAX_GROUP
    ensures m.cnd == cnd && |m.grp| == |cnd| && |m.decl| == |cnd| && m.sizeMax == None
  {
    DraftOf(AnyOf(|cnd|), |cnd|, cnd)
  }

  lemma AnyPlain(n: nat)
    requires n <= MAX_GROUP
    ensures PlainCalls(AnyOf(n), n)
  {
    forall i: nat | i < n
      ensures Claimed(AnyOf(n), i)
    {
      assert i in StrsOf(AnyOf(n)[i].call);
    }
    forall a, b | 0 <= a < b < n
      ensures StrsOf(AnyOf(n)[a].call) != StrsOf(AnyOf(n)[b].call)
    {
      assert StrsOf(AnyOf(n)[a].call)[0] == a;
    }
  }

  lemma OneText(cnd: seq<Cond>, k: nat)
    requires Ones(cnd) && |cnd| <= MAX_GROUP && k < |cnd|
    ensures var text := cnd[k].expr;
      && text != "" && |text| < EXPR_ROOM && RowList(text, false, |cnd|) && Ids(text) == [Lit(k + 1, false)]
      && '|' !in text && Uses(text, k) && cnd[k].op == false && cnd[k].parent == -1
  {
    assert cnd[k] == One(k, cnd[k].join, cnd[k].level);
    ListText([Any(k)], k, false, |cnd|);
    UsesEach([Any(k)], k, false, k);
    var lits := Numbered([Any(k)], k);
    assert lits == [Lit(k + 1, false)];
    assert lits[..0] == [];
    assert Print(lits, false) == "" + "" + Dec(k + 1);
    hide Print, Ids, Uses;
  }

  lemma OneReady(cnd: seq<Cond>)
    requires Ones(cnd) && 0 < |cnd| <= MAX_GROUP
    ensures var m := AskingOne(cnd);
      && Bounded(m) && Forest(cnd) && Ready(m, []) && RowLists(m) && |m.grp| <= 32
      && (forall g :: 0 <= g < |m.grp| ==> !Shared(m, g) && m.grp[g].thresh == 0 && !IsAt(m.grp[g]))
  {
    hide Shared, RowList, Uses, Accepted, Ids, IsAt;
    var n := |cnd|;
    var m := AskingOne(cnd);
    AnyPlain(n);
    forall k: nat | k < n
      ensures cnd[k].expr != "" && |cnd[k].expr| < EXPR_ROOM && Consulted(cnd, k) && RowList(cnd[k].expr, false, n)
      ensures m.grp[k].thresh == 0 && !IsAt(m.grp[k]) && cnd[k].op == false && cnd[k].parent == -1
    {
      OneText(cnd, k);
      SearchIs(AnyOf(n), n, cnd, k);
    }
    SampleReady(AnyOf(n), n, cnd);
  }

  lemma OneTest(cnd: seq<Cond>, k: nat)
    requires Ones(cnd) && 0 < |cnd| <= MAX_GROUP && k < |cnd|
    ensures var m := AskingOne(cnd); TextsIn(m) && TestOf(m, k) == RTest(false, [Any(k)])
  {
    var n := |cnd|;
    var m := AskingOne(cnd);
    AnyPlain(n);
    forall i: nat | i < n
      ensures InRange(m, Ids(cnd[i].expr))
    {
      OneText(cnd, i);
    }
    OneText(cnd, k);
    SearchIs(AnyOf(n), n, cnd, k);
    hide Ids, CallTok;
    assert LitOf(m, Lit(k + 1, false)) == Any(k);
  }

  /** And holds where marker k is found. */
  lemma OneHolds(cnd: seq<Cond>, k: nat, o: Obj)
    requires Ones(cnd) && 0 < |cnd| <= MAX_GROUP && k < |cnd|
    ensures var m := AskingOne(cnd); |m.grp| <= 32 && (TextHolds(m, cnd[k].expr, o) <==> o.found(SCAN_ALL, k))
  {
    hide Wired, Groups, Print, TextHolds, CallOk, Bits;
    var n := |cnd|;
    var m, calls, t := AskingOne(cnd), AnyOf(n), RTest(false, [Any(k)]);
    AnyPlain(n);
    BitsWired(calls, n);
    forall j: nat | j < n
      ensures CallOk(calls[j].call, n, OneRange()) && LitOk(calls[j])
    {
      SearchOk(calls, n, j);
    }
    assert calls[k] == Any(k);
    assert calls[k..k + 1] == t.lits;
    ReadMeaning.TestRead(m, calls, t, k, OneRange(), o);
    assert cnd[k] == One(k, cnd[k].join, cnd[k].level);
    assert t.lits[0] == Any(k);
    assert [k][0] == k;
  }

  // ---- a run with a weak head, written out of turn ------------------------------------------

  function WeakHead(): (r: seq<Cond>)
    ensures |r| == 2
  {
    [One(0, JoinAnd, Suspect), One(1, JoinOr, Infect)]
  }

  function Found(f: nat -> bool): Obj {
    Obj((r: bv32, s: nat) => f(s), (p: Place, s: nat) => false, (b: bv32) => 0, 0)
  }

  lemma SmallText(cnd: seq<Cond>, k: nat)
    requires Ones(cnd) && 0 < |cnd| <= MAX_GROUP && k < |cnd|
    ensures TextOk(AskingOne(cnd), cnd[k].expr)
  {
    hide Print, Lex, SOr;
    assert cnd[k] == One(k, cnd[k].join, cnd[k].level);
    var lits := Numbered([Any(k)], k);
    LexPrint(lits, false, "");
    assert Print(lits, false) + "" == Print(lits, false);
    LexNone();
    assert ListToks(lits, false) + [] == [SId(k + 1, false)];
    OneRead(k + 1);
  }

  lemma OneRead(n: nat)
    ensures SOr([SId(n, false)]) == Some((CId(n, false), []))
  {
    var t := [SId(n, false)];
    assert t[1..] == [];
    assert SUnary(t) == Some((CId(n, false), []));
    assert SConj(t) == Some((CId(n, false), []));
  }

  /** "1 and 2", the first suspect and the second an infection, on an object with the second marker
      only: nothing is what the draft says, and the body reports the infection. */
  lemma WeakHeadMisreports()
    ensures var m := AskingOne(WeakHead()); var o := Found(s => s == 1);
      && Verdicts.WeakPair(m.cnd) && Ready(m, []) && |m.grp| <= 32 && Forest(m.cnd)
      && Meaning(m, o) == Fell && Exec(BodyStmts(m), o, map[]) == Report(Infect, Auto)
  {
    hide BodyStmts, Written, Ordered, Ready, TextHolds, HasKids, UnitMeaning, TextOk, Members, Heads, AskingOne;
    hide WeakHead, Ones, Bounded;
    hide RunEnd, Shared, RowLists, Conclude;
    var cnd := WeakHead();
    var m, o := AskingOne(cnd), Found(s => s == 1);
    WeakHeadIs();
    OneReady(cnd);
    OneHolds(cnd, 0, o);
    OneHolds(cnd, 1, o);
    SmallText(cnd, 0);
    SmallText(cnd, 1);
    Verdicts.WeakPairMembers(cnd);
    Verdicts.WeakPairWritten(cnd);
    OneFalls(m, o);
    Verdicts.WeakRunMisreports(m, 0, 0, o);
  }

  lemma WeakHeadIs()
    ensures var c := WeakHead(); Ones(c) && Verdicts.WeakPair(c) && Conclude(c[1]) == Report(Infect, Auto)
  {
    assert Ones(WeakHead()) by { hide Print, Numbered; }
    OneText(WeakHead(), 0);
    OneText(WeakHead(), 1);
    hide Print, Numbered, Ones;
  }

  lemma OneFalls(m: Model, o: Obj)
    requires |m.grp| <= 32 && Forest(m.cnd) && Heads(m.cnd, -1, 0) == [0] && |m.cnd| == 2
      && !TextHolds(m, m.cnd[0].expr, o)
    ensures forall b :: b in Heads(m.cnd, -1, 0) && b < |m.cnd| ==> UnitMeaning(m, b, o).Fell?
  {
    hide Heads, TextHolds, UnitMeaning;
    Verdicts.RunFalls(m, 0, o);
  }

  // ---- a run that ends weaker than it begins ------------------------------------------------

  function WeakEnd(): (r: seq<Cond>)
    ensures |r| == 3
  {
    [One(0, JoinAnd, Infect), One(1, JoinOr, Suspect), One(2, JoinOr, Infect)]
  }

  lemma FlatNoKids(c: seq<Cond>, i: nat)
    requires forall k :: 0 <= k < |c| ==> c[k].parent == -1
    ensures !HasKids(c, i)
  {
  }

  lemma NextSib(c: seq<Cond>, i: nat)
    requires (forall k :: 0 <= k < |c| ==> c[k].parent == -1) && i < |c|
    ensures SibNext(c, i) == i + 1
  {
  }

  lemma WeakEndMembers(c: seq<Cond>)
    requires |c| == 3 && (forall k :: 0 <= k < 3 ==> c[k].parent == -1 && c[k].expr != "")
    requires c[0].join == JoinAnd && c[1].join == JoinOr && c[2].join == JoinOr
    ensures Members(c, 0) == [0, 1] && RunEnd(c, 0) == 1 && Members(c, 1) == [1] && Members(c, 2) == [2]
      && RunEnd(c, 2) == 2
    ensures Heads(c, -1, 0) == [0, 2]
  {
    hide HasKids, SibNext, Heads;
    FlatNoKids(c, 0);
    FlatNoKids(c, 1);
    FlatNoKids(c, 2);
    NextSib(c, 0);
    assert Members(c, 1) == [1];
    assert Members(c, 0) == [0] + Members(c, 1);
    TwoHeads(c);
  }

  lemma TwoHeads(c: seq<Cond>)
    requires |c| == 3 && (forall k :: 0 <= k < 3 ==> c[k].parent == -1) && RunEnd(c, 0) == 1 && RunEnd(c, 2) == 2
    ensures Heads(c, -1, 0) == [0, 2]
  {
    hide RunEnd;
    assert Heads(c, -1, 3) == [];
    assert Heads(c, -1, 2) == [2] + [];
    assert Heads(c, -1, 0) == [0] + Heads(c, -1, 2);
  }

  lemma WeakEndShape()
    ensures var c := WeakEnd();
      && Ones(c) && (forall k: nat :: k < 3 ==> !HasKids(c, k)) && Forest(c) && HeadsStrongest(c)
      && Members(c, 0) == [0, 1] && RunEnd(c, 0) == 1 && Members(c, 1) == [1] && Members(c, 2) == [2]
          && RunEnd(c, 2) == 2
      && Ordered(c) == [0, 2]
  {
    hide Members, RunEnd, Heads, HasKids, ByLevel, One, Ordered;
    var c := WeakEnd();
    Ones3();
    forall k: nat | k < 3
      ensures c[k].expr != "" && !HasKids(c, k) && c[k].parent == -1
    {
      OneText(c, k);
      FlatNoKids(c, k);
    }
    Joins3();
    WeakEndMembers(c);
    hide WeakEnd, ByRank, HeadsStrongest;
    WeakEndOrder(c);
  }

  lemma WeakEndOrder(c: seq<Cond>)
    requires |c| == 3 && (forall k :: 0 <= k < 3 ==> c[k].parent == -1)
    requires Members(c, 0) == [0, 1] && Members(c, 2) == [2] && Heads(c, -1, 0) == [0, 2]
    requires c[0].level == Infect && c[1].level == Suspect && c[2].level == Infect
    ensures Ordered(c) == [0, 2] && HeadsStrongest(c) && Forest(c)
  {
    hide Members, Heads, ByLevel, Ordered;
    var heads: seq<nat> := [0, 2];
    assert ByRank(c, heads);
    ByRankOrdered(c, heads);
    OrderedOf(c, heads);
  }

  lemma OrderedOf(c: seq<Cond>, heads: seq<nat>)
    requires Heads(c, -1, 0) == heads && forall i :: 0 <= i < |heads| ==> heads[i] < |c|
    ensures Ordered(c) == ByLevel(c, heads, Infect) + ByLevel(c, heads, Suspect) + ByLevel(c, heads, NoVerdict)
  {
    hide Heads, ByLevel;
  }

  lemma Ones3()
    ensures Ones(WeakEnd()) && forall k :: 0 <= k < 3 ==> WeakEnd()[k].parent == -1
  {
    hide Print, Numbered;
  }

  lemma Joins3()
    ensures var c := WeakEnd();
      && c[0].join == JoinAnd && c[1].join == JoinOr && c[2].join == JoinOr
      && c[0].level == Infect && c[1].level == Suspect && c[2].level == Infect
  {
  }

  lemma PairTop(m: Model)
    requires TextsIn(m) && |m.cnd| == 3 && !HasKids(m.cnd, 0) && Members(m.cnd, 0) == [0, 1] && RunEnd(m.cnd, 0) == 1
    requires TestOf(m, 0) == RTest(false, [Any(0)]) && TestOf(m, 1) == RTest(false, [Any(1)])
    requires VariantOf(m.cnd[1]) == Auto
    ensures TopOf(m, 0) == TLeaf(RLeaf(RTest(false, [Any(0), Any(1)]), m.cnd[1].level, Auto))
  {
    hide HasKids, TextsIn, TestOf, Members, RunEnd, VariantOf;
    var u: seq<nat> := [0, 1];
    assert u[1..] == [1] && u[1..][1..] == [];
    assert RunLits(m, [1]) == [Any(1)] + [];
    assert RunLits(m, u) == [Any(0)] + RunLits(m, u[1..]);
    assert [Any(0)] + ([Any(1)] + []) == [Any(0), Any(1)];
  }

  lemma LoneTop(m: Model, k: nat)
    requires TextsIn(m) && k < |m.cnd| && !HasKids(m.cnd, k) && Members(m.cnd, k) == [k] && RunEnd(m.cnd, k) == k
    requires VariantOf(m.cnd[k]) == Auto
    ensures TopOf(m, k) == TLeaf(RLeaf(TestOf(m, k), m.cnd[k].level, Auto))
  {
    hide HasKids, TextsIn, TestOf, Members, RunEnd, VariantOf;
  }

  lemma WeakEndTops()
    ensures var c := WeakEnd(); var m := AskingOne(c);
      && TextsIn(m) && UnitIn1(c, Ordered(c)) && EndLevel(c, 0) == Suspect && EndLevel(c, 2) == Infect
      && TopsOf(m, Ordered(c)) == [TLeaf(RLeaf(RTest(false, [Any(0), Any(1)]), Suspect, Auto)),
                                   TLeaf(RLeaf(RTest(false, [Any(2)]), Infect, Auto))]
  {
    hide One, Ordered, Members, HasKids, TextsIn, TestOf, Heads, RunEnd, TopOf, VariantOf, Ones;
    var c := WeakEnd();
    var m := AskingOne(c);
    WeakEndShape();
    Joins3();
    hide AskingOne, WeakEnd;
    OneTest(c, 0);
    OneTest(c, 1);
    OneTest(c, 2);
    Autos();
    PairTop(m);
    LoneTop(m, 2);
    TopsAre(m, Ordered(c));
  }

  lemma Autos()
    ensures forall k :: 0 <= k < 3 ==> VariantOf(WeakEnd()[k]) == Auto
  {
    hide Print, Numbered;
  }

  lemma WeakEndSeparable()
    ensures Separable(AskingOne(WeakEnd()), [])
  {
    hide One, Ordered, Members, HasKids, Heads, RunEnd, HeadsStrongest, Ready, RowLists, Shared, LitCount, IsAt;
    hide LitTotal, Ones;
    var c := WeakEnd();
    var m := AskingOne(c);
    WeakEndShape();
    Autos();
    assert |c| == 3;
    hide WeakEnd;
    OneReady(c);
    forall k: nat | k < 3
      ensures '|' !in c[k].expr && LitCount(c[k]) == 1 && c[k].parent == -1
    {
      OneText(c, k);
      IdCount(c[k], Lit(k + 1, false));
    }
    hide AskingOne;
    Total3(c);
    FlatSeparable(m);
  }

  lemma IdCount(c: Cond, l: Lit)
    requires Ids(c.expr) == [l]
    ensures LitCount(c) == 1
  {
  }

  /** A draft of top-level and-lists is plain. */
  lemma FlatSeparable(m: Model)
    requires Bounded(m) && Forest(m.cnd) && Ready(m, []) && RowLists(m) && m.sizeMax == None && |m.grp| <= 32
    requires forall g :: 0 <= g < |m.grp| ==> !Shared(m, g) && m.grp[g].thresh < 0x1_0000_0000 && !IsAt(m.grp[g])
    requires forall k :: 0 <= k < |m.cnd| ==>
      m.cnd[k].parent == -1 && '|' !in m.cnd[k].expr && VariantOf(m.cnd[k]) == Auto
    requires HeadsStrongest(m.cnd) && LitTotal(m.cnd) <= MAX_GROUP
    ensures Separable(m, [])
  {
    hide Members, Heads, RunEnd, HeadsStrongest, Ready, RowLists, Shared, LitTotal, IsAt, Bounded, VariantOf;
    forall h: nat, x: nat | h < |m.cnd| && x in Members(m.cnd, h)
      ensures x < |m.cnd|
    {
      InRun(m.cnd, h, x);
    }
  }

  lemma Total3(c: seq<Cond>)
    requires |c| == 3 && forall k :: 0 <= k < 3 ==> LitCount(c[k]) == 1
    ensures LitTotal(c) == 3
  {
    hide LitCount;
    assert c[..2][..1] == c[..1] && c[..1][..0] == [] && c[..2][1] == c[1];
    assert LitTotal(c[..1]) == 1;
    assert LitTotal(c[..2]) == 2;
  }

  // ---- and the draft that comes back --------------------------------------------------------

  lemma TwoLeafText(a: RLeaf, b: RLeaf)
    requires a.level != NoVerdict && b.level != NoVerdict
    ensures TopsLines([TLeaf(a), TLeaf(b)])
         == [IfLine(a.test), ScanLine(a.level, a.variant), IfLine(b.test), ScanLine(b.level, b.variant)]
  {
    hide IfLine, ScanLine;
    var s := [TLeaf(a), TLeaf(b)];
    assert s[1..] == [TLeaf(b)] && s[1..][1..] == [];
    assert TopsLines(s[1..]) == LeafLines(b) + [];
    assert TopsLines(s) == LeafLines(a) + TopsLines(s[1..]);
  }

  lemma FourText(a: seq<Tok>, b: seq<Tok>, c: seq<Tok>, d: seq<Tok>, e: seq<Tok>)
    ensures Text([a, b, c, d]) + e + [Newline] == Text([a, b, c, d, e])
    ensures |Text([a, b, c, d, e])| == |a| + |b| + |c| + |d| + |e| + 5
  {
    TextAppend([a, b, c, d], [e]);
    assert [a, b, c, d] + [e] == [a, b, c, d, e];
    Text1(e);
    Text1(d);
    TextAppend([a, b, c], [d]);
    assert [a, b, c] + [d] == [a, b, c, d];
    Text1(c);
    TextAppend([a, b], [c]);
    assert [a, b] + [c] == [a, b, c];
    Text1(b);
    TextAppend([a], [b]);
    assert [a] + [b] == [a, b];
    Text1(a);
  }

  lemma PairTest()
    ensures var t := RTest(false, [Any(0), Any(1)]); TestOk(t) && |IfLine(t)| == 6
    ensures var t := RTest(false, [Any(2)]); TestOk(t) && |IfLine(t)| == 4
  {
    assert [Any(0), Any(1)][1..] == [Any(1)] && [Any(1)][1..] == [] && [Any(2)][1..] == [];
    assert TailToks(false, [Any(1)]) == [AndAnd] + LitToks(Any(1)) + [];
  }

  lemma PairFits(s: seq<RTop>)
    requires s == [TLeaf(RLeaf(RTest(false, [Any(0), Any(1)]), Suspect, Auto)),
      TLeaf(RLeaf(RTest(false, [Any(2)]), Infect, Auto))]
    ensures AllFit(Text(TopsLines(s)) + [RBrace, Newline], INSIDE, WholeFile())
  {
    hide TopsLines, Text, IfLine, Brief, TestOk, AllFit;
    var t, u := RTest(false, [Any(0), Any(1)]), RTest(false, [Any(2)]);
    PairTest();
    IfBrief(t);
    IfBrief(u);
    ScanBrief(Suspect);
    ScanBrief(Infect);
    TwoLeafText(s[0].leaf, s[1].leaf);
    var a, b := ScanLine(Suspect, Auto), ScanLine(Infect, Auto);
    FourText(IfLine(t), a, IfLine(u), b, [RBrace]);
    BriefFit([IfLine(t), a, IfLine(u), b, [RBrace]], INSIDE, WholeFile());
    assert Text([IfLine(t), a, IfLine(u), b]) + [RBrace] + [Newline] == Text([IfLine(t), a, IfLine(u), b])
        + [RBrace, Newline];
  }

  lemma WeakEndFits()
    ensures var m := AskingOne(WeakEnd()); |m.grp| <= 32 && Forest(m.cnd) && AllFit(BodyToks(m), INSIDE, WholeFile())
  {
    hide AskingOne, WeakEnd, Separable, BodyToks, TextsIn, TopsLines, Text, Ordered, TopsOf, AllFit, Forest;
    var m := AskingOne(WeakEnd());
    WeakEndTops();
    WeakEndSeparable();
    BodyIs(m, []);
    PairFits(TopsOf(m, Ordered(m.cnd)));
  }

  lemma OneRangeApart(m: Model)
    requires |m.grp| <= 32 && forall g :: 0 <= g < |m.grp| ==> Mask(m, g) == SCAN_ALL
    ensures Apart(WholeFile(), Ranges(m, |m.grp|))
  {
    hide Mask, Strs;
    var r := Ranges(m, |m.grp|);
    forall i, j | 0 <= i < j < |r|
      ensures r[i] == SCAN_ALL && r[j] == SCAN_ALL
    {
      assert r[i] in r && r[j] in r;
    }
  }

  lemma AskingOneApart(cnd: seq<Cond>)
    requires Ones(cnd) && 0 < |cnd| <= MAX_GROUP
    ensures |AskingOne(cnd).grp| <= 32 && Apart(WholeFile(), Ranges(AskingOne(cnd), |cnd|))
  {
    hide Ranges, Mask;
    var m, n := AskingOne(cnd), |cnd|;
    AnyPlain(n);
    forall g: nat | g < n
      ensures Mask(m, g) == SCAN_ALL
    {
      SearchIs(AnyOf(n), n, cnd, g);
    }
    OneRangeApart(m);
  }

  /** "1 and 2", an infection and then suspect, and "3", an infection, on an object with all three:
      suspect is what the draft says, and an infection what it says once generated and opened. */
  lemma WeakEndComesBack()
    ensures var m := AskingOne(WeakEnd()); var o := Found(s => true);
      && Readable(m, [], WholeFile()) && !EndsRanked(m.cnd) && Meaning(m, o) == Report(Suspect, Auto)
      && var back := Back(m, Blank(3), WholeFile());
      && |back.grp| <= 32 && Forest(back.cnd) && Meaning(back, o) == Report(Infect, Auto)
  {
    hide Separable, AllFit, Apart, BodyToks, TextHolds, Meaning, Ordered, Members, RunEnd, HasKids, Heads, TopsOf;
    hide TextsIn, Blank;
    hide UnitMeaning, Ones, Unmarked, Ranges, Back, One;
    var c := WeakEnd();
    var m, o := AskingOne(c), Found(s => true);
    WeakEndShape();
    WeakEndTops();
    WeakEndSeparable();
    WeakEndFits();
    AskingOneApart(c);
    Autos();
    Joins3();
    assert |c| == 3;
    hide WeakEnd, AskingOne;
    OneHolds(c, 0, o);
    OneHolds(c, 1, o);
    OneHolds(c, 2, o);
    Verdicts.RunConcludes(m, 0, o);
    Verdicts.RunConcludes(m, 2, o);
    TwoSpeak(m, o);
    OrderLost(m, [], Blank(3), WholeFile(), 0, 1, o);
  }

  /** Two branches conclude, and the second ends stronger. */
  lemma TwoSpeak(m: Model, o: Obj)
    requires |m.grp| <= 32 && Forest(m.cnd) && |m.cnd| == 3 && Ordered(m.cnd) == [0, 2]
    requires Rank(EndLevel(m.cnd, 2)) < Rank(EndLevel(m.cnd, 0))
    requires !UnitMeaning(m, 0, o).Fell? && !UnitMeaning(m, 2, o).Fell?
    ensures SpeaksFirst(m, 0, o) && SpeaksAfter(m, 1, o) && !EndsRanked(m.cnd)
  {
    hide Ordered, UnitMeaning, EndLevel;
    var heads := Ordered(m.cnd);
    assert heads[0] == 0 && heads[1] == 2;
  }
}
