/** A draft, its generated body, and the draft that body is read back as. */
module Reopen {
  import opened TargetC
  import opened DraftModel
  import opened ExprSource
  import opened Matchers
  import opened ExprTokens
  import opened ExprMeaning
  import opened Conditions
  import opened BranchTokens
  import opened Order
  import opened Visits
  import opened Generate
  import opened IdList
  import opened IdRoom
  import opened IdEdits
  import opened DraftEdits
  import opened Refusals
  import opened Closed
  import opened CallText
  import opened Reader
  import opened Rebuild
  import opened ReadMeaning
  import opened RoundTrip
  import Verdicts

  // ---- which drafts come back -------------------------------------------------------------

  ghost predicate InRange(m: Model, lits: seq<Lit>) { forall i :: 0 <= i < |lits| ==> 1 <= lits[i].n <= |m.grp| }

  function LitCount(c: Cond): nat { |Ids(c.expr)| }

  function LitTotal(cnd: seq<Cond>): nat {
    if cnd == [] then 0 else LitTotal(cnd[..|cnd| - 1]) + LitCount(cnd[|cnd| - 1])
  }

  /** An accepted draft of string and find_at matchers that share no call, whose places can be read
      back and whose conditions are row lists at most one level deep. */
  ghost predicate Listed(m: Model, rngAdd: seq<bv32>) {
    && Bounded(m) && Forest(m.cnd) && Ready(m, rngAdd) && RowLists(m) && m.sizeMax == None
    && (forall g :: 0 <= g < |m.grp| ==> !Shared(m, g) && m.grp[g].thresh < 0x1_0000_0000)
    && (forall g :: 0 <= g < |m.grp| && IsAt(m.grp[g]) ==> PlaceOk(m.grp[g].place))
    && (forall k :: 0 <= k < |m.cnd| && m.cnd[k].parent >= 0 ==> m.cnd[m.cnd[k].parent].parent == -1)
    && (forall k :: 0 <= k < |m.cnd| ==> NameOk(VariantOf(m.cnd[k])))
  }

  /** And whose text the reader takes apart as it was put together: silence only at the top, runs
      of and-lists, and no more literals than a draft has matchers. */
  ghost predicate Separable(m: Model, rngAdd: seq<bv32>) {
    && Listed(m, rngAdd)
    && (forall k :: 0 <= k < |m.cnd| && m.cnd[k].parent >= 0 ==> m.cnd[k].level != NoVerdict)
    && (forall h, x :: 0 <= h < |m.cnd| && x in Members(m.cnd, h) && |Members(m.cnd, h)| > 1 ==> '|' !in m.cnd[x].expr)
    && HeadsStrongest(m.cnd)
    && LitTotal(m.cnd) <= MAX_GROUP
  }

  /** What a branch concludes when its own test decides. */
  function EndLevel(cnd: seq<Cond>, h: nat): Level
    requires h < |cnd|
  {
    cnd[RunEnd(cnd, h)].level
  }

  /** In the order branches are written, none concludes stronger than one before it. */
  ghost predicate EndsRanked(cnd: seq<Cond>) {
    var heads := Ordered(cnd);
    && UnitIn1(cnd, heads)
    && forall i, j :: 0 <= i < j < |heads| ==> Rank(EndLevel(cnd, heads[i])) <= Rank(EndLevel(cnd, heads[j]))
  }

  // ---- the branches a draft is --------------------------------------------------------------

  function LitOf(m: Model, l: Lit): RLit
    requires 1 <= l.n <= |m.grp| <= 32
  {
    RLit(CallTok(m, l.n - 1, false), m.grp[l.n - 1].thresh, l.neg)
  }

  function LitsOf(m: Model, lits: seq<Lit>): (r: seq<RLit>)
    requires |m.grp| <= 32 && InRange(m, lits)
    ensures |r| == |lits| && forall i :: 0 <= i < |lits| ==> r[i] == LitOf(m, lits[i])
  {
    seq(|lits|, i requires 0 <= i < |lits| => LitOf(m, lits[i]))
  }

  ghost predicate TextsIn(m: Model) {
    |m.grp| <= 32 && forall k :: 0 <= k < |m.cnd| ==> InRange(m, Ids(m.cnd[k].expr))
  }

  ghost function TestOf(m: Model, k: nat): RTest
    requires TextsIn(m) && k < |m.cnd|
  {
    RTest(m.cnd[k].op, LitsOf(m, Ids(m.cnd[k].expr)))
  }

  ghost function RunLits(m: Model, u: seq<nat>): seq<RLit>
    requires TextsIn(m) && UnitIn1(m.cnd, u)
  {
    if u == [] then [] else TestOf(m, u[0]).lits + RunLits(m, u[1..])
  }

  ghost predicate UnitIn1(cnd: seq<Cond>, u: seq<nat>) { forall x :: 0 <= x < |u| ==> u[x] < |cnd| }

  ghost function LeafOf(m: Model, h: nat): RLeaf
    requires TextsIn(m) && h < |m.cnd|
  {
    var u, last := Members(m.cnd, h), m.cnd[RunEnd(m.cnd, h)];
    RLeaf(if |u| == 1 then TestOf(m, h) else RTest(false, RunLits(m, u)), last.level, VariantOf(last))
  }

  ghost function KidsOf(m: Model, heads: seq<nat>): seq<RLeaf>
    requires TextsIn(m) && UnitIn1(m.cnd, heads)
  {
    if heads == [] then [] else [LeafOf(m, heads[0])] + KidsOf(m, heads[1..])
  }

  ghost function TopOf(m: Model, h: nat): RTop
    requires TextsIn(m) && h < |m.cnd|
  {
    var c := m.cnd[h];
    if HasKids(m.cnd, h) then
      TGate(if c.expr == "" then None else Some(TestOf(m, h)), KidsOf(m, Heads(m.cnd, h, 0)), c.level, VariantOf(c))
    else TLeaf(LeafOf(m, h))
  }

  ghost function TopsOf(m: Model, heads: seq<nat>): (r: seq<RTop>)
    requires TextsIn(m) && UnitIn1(m.cnd, heads)
  {
    if heads == [] then [] else [TopOf(m, heads[0])] + TopsOf(m, heads[1..])
  }

  // ---- one test -----------------------------------------------------------------------------

  lemma ListedTexts(m: Model, rngAdd: seq<bv32>)
    requires Listed(m, rngAdd)
    ensures TextsIn(m)
  {
    hide Ready, Shared, NameOk, Ids;
  }

  ghost predicate Unshared(m: Model) {
    Plain(m) && forall g :: 0 <= g < |m.grp| ==>
        !Shared(m, g) && m.grp[g].thresh < 0x1_0000_0000 && Whole(CallTok(m, g, false))
  }

  lemma AllUnshared(m: Model, rngAdd: seq<bv32>)
    requires Listed(m, rngAdd)
    ensures Unshared(m)
  {
    hide Shared, NameOk, Ids, RowLists, Strs, PlaceOk, Mask;
    forall g: nat | g < |m.grp|
      ensures Whole(CallTok(m, g, false))
    {
      assert !Wrong(m, rngAdd, NoString(g));
      assert forall i :: 0 <= i < |Strs(m, g)| ==> Strs(m, g)[i] in Strs(m, g);
    }
  }

  /** One literal is written as the reader takes it apart. */
  lemma LitWritten(m: Model, l: Lit)
    requires Unshared(m) && 1 <= l.n <= |m.grp|
    ensures ToksOf(m, SId(l.n, l.neg)) == LitToks(LitOf(m, l)) && LitOk(LitOf(m, l))
  {
    hide Shared, Strs, Mask, PlaceOk, Few;
    assert l.n % ID_WRAP == l.n;
  }

  lemma {:induction false} TailWritten(m: Model, lits: seq<Lit>, op: bool)
    requires Unshared(m) && InRange(m, lits)
    ensures ExprToks(m, Tail(lits, op)) == TailToks(op, LitsOf(m, lits))
    decreases |lits|
  {
    hide Unshared, ToksOf, LitToks, LitOf, CallTok;
    UnsharedFew(m);
    if lits != [] {
      var l, t := lits[0], lits[1..];
      var rest := Tail(t, op);
      assert 1 <= l.n <= |m.grp|;
      LitWritten(m, l);
      TailWritten(m, t, op);
      assert Tail(lits, op) == [SepTok(op)] + ([SId(l.n, l.neg)] + rest);
      ExprToksAppend(m, [SepTok(op)], [SId(l.n, l.neg)] + rest);
      ExprToksAppend(m, [SId(l.n, l.neg)], rest);
      OneTok(m, SepTok(op));
      OneTok(m, SId(l.n, l.neg));
      SepWritten(m, op);
      var r := LitsOf(m, lits);
      assert r[0] == LitOf(m, l) && r[1..] == LitsOf(m, t);
    }
  }

  lemma UnsharedFew(m: Model)
    requires Unshared(m)
    ensures |m.grp| <= 8
  {
  }

  lemma SepWritten(m: Model, op: bool)
    requires |m.grp| <= 32
    ensures ToksOf(m, SepTok(op)) == [JoinTok(op)]
  {
  }

  lemma ListWritten(m: Model, lits: seq<Lit>, op: bool)
    requires Unshared(m) && InRange(m, lits) && lits != []
    ensures |m.grp| <= 32
    ensures var t := RTest(op, LitsOf(m, lits)); ExprToks(m, ListToks(lits, op)) == TestToks(t) && TestOk(t)
  {
    UnsharedFew(m);
    forall i | 0 <= i < |lits|
      ensures LitOk(LitOf(m, lits[i]))
    {
      LitWritten(m, lits[i]);
    }
    hide Unshared, ToksOf, LitToks, LitOf, CallTok, LitOk;
    var l, t := lits[0], lits[1..];
    assert 1 <= l.n <= |m.grp|;
    LitWritten(m, l);
    TailWritten(m, t, op);
    ExprToksAppend(m, [SId(l.n, l.neg)], Tail(t, op));
    OneTok(m, SId(l.n, l.neg));
    var r := LitsOf(m, lits);
    assert r[0] == LitOf(m, l) && r[1..] == LitsOf(m, t);
  }

  /** A row list's text is the test the reader takes it for. */
  lemma TextWritten(m: Model, k: nat)
    requires Unshared(m) && TextsIn(m) && k < |m.cnd| && m.cnd[k].expr != ""
    requires m.cnd[k].expr == Print(Ids(m.cnd[k].expr), m.cnd[k].op)
    ensures TextToks(m, m.cnd[k].expr) == TestToks(TestOf(m, k)) && TestOk(TestOf(m, k))
  {
    hide Unshared, Ids, Print, Lex, ExprToks, ListToks, LitsOf, InRange, TestToks, TestOk;
    var c := m.cnd[k];
    var lits := Ids(c.expr);
    PrintNone(lits, c.op);
    LexPrint(lits, c.op, "");
    assert Print(lits, c.op) + "" == Print(lits, c.op);
    LexNone();
    assert ListToks(lits, c.op) + [] == ListToks(lits, c.op);
    ListWritten(m, lits, c.op);
  }

  // ---- a conjoined run is one and-list ------------------------------------------------------

  lemma {:induction false} TailAppend(op: bool, a: seq<RLit>, b: seq<RLit>)
    ensures TailToks(op, a + b) == TailToks(op, a) + TailToks(op, b)
    decreases |a|
  {
    hide LitToks;
    if a == [] {
      assert a + b == b;
    } else {
      assert (a + b)[1..] == a[1..] + b;
      TailAppend(op, a[1..], b);
    }
  }

  lemma TestAppend(a: seq<RLit>, b: seq<RLit>)
    requires a != [] && b != []
    ensures TestToks(RTest(false, a + b)) == TestToks(RTest(false, a)) + [AndAnd] + TestToks(RTest(false, b))
  {
    hide LitToks, TailToks, TestToks;
    assert (a + b)[1..] == a[1..] + b && (a + b)[0] == a[0];
    TailAppend(false, a[1..], b);
    TestIs(a + b);
    TestIs(a);
    TestIs(b);
    TailIs(b);
    Regroup4(LitToks(a[0]), TailToks(false, a[1..]), [AndAnd], LitToks(b[0]), TailToks(false, b[1..]));
  }

  lemma TestIs(s: seq<RLit>)
    requires s != []
    ensures TestToks(RTest(false, s)) == LitToks(s[0]) + TailToks(false, s[1..])
  {
    hide LitToks, TailToks;
  }

  lemma TailIs(s: seq<RLit>)
    requires s != []
    ensures TailToks(false, s) == [AndAnd] + LitToks(s[0]) + TailToks(false, s[1..])
  {
    hide LitToks;
  }

  lemma Regroup4(a: seq<Tok>, b: seq<Tok>, c: seq<Tok>, d: seq<Tok>, e: seq<Tok>)
    ensures a + (b + (c + d + e)) == (a + b) + c + (d + e)
  {
  }

  lemma {:induction false} BarWritten(lits: seq<Lit>)
    requires |lits| > 1
    ensures '|' in Print(lits, true)
    decreases |lits|
  {
    hide Item;
  }

  /** Without a "|" a list is an and-list, whatever its word would be. */
  lemma PlainWritten(m: Model, k: nat)
    requires Unshared(m) && TextsIn(m) && k < |m.cnd| && m.cnd[k].expr != "" && '|' !in m.cnd[k].expr
    requires m.cnd[k].expr == Print(Ids(m.cnd[k].expr), m.cnd[k].op)
    ensures TermToks(m, k) == TestToks(RTest(false, TestOf(m, k).lits)) && TestOk(TestOf(m, k))
  {
    TextWritten(m, k);
    hide Unshared, Ids, Print, LitsOf, TextToks, TestOk, LitToks, TextsIn, InRange;
    var lits := Ids(m.cnd[k].expr);
    if |lits| > 1 && m.cnd[k].op { BarWritten(lits); }
    var t := TestOf(m, k);
    assert |t.lits| == |lits|;
    if |lits| <= 1 { TailNone(t.op, t.lits); }
  }

  lemma TailNone(op: bool, s: seq<RLit>)
    requires |s| <= 1
    ensures TestToks(RTest(op, s)) == TestToks(RTest(false, s))
  {
    hide LitToks;
    if s != [] { assert s[1..] == []; }
  }

  ghost predicate RunListed(m: Model, u: seq<nat>) {
    && Unshared(m) && TextsIn(m) && UnitIn1(m.cnd, u)
    && forall x :: 0 <= x < |u| ==>
      m.cnd[u[x]].expr != "" && '|' !in m.cnd[u[x]].expr
          && m.cnd[u[x]].expr == Print(Ids(m.cnd[u[x]].expr), m.cnd[u[x]].op)
  }

  lemma {:induction false} RunWritten(m: Model, u: Unit)
    requires RunListed(m, u)
    ensures |m.grp| <= 32 && TermsToks(m, u) == TestToks(RTest(false, RunLits(m, u)))
      && TestOk(RTest(false, RunLits(m, u)))
    decreases |u|
  {
    hide Unshared, TextsIn, Ids, Print, LitToks, LitOk, TestOf, TermToks, TestToks;
    FewTexts(m);
    PlainWritten(m, u[0]);
    var a := TestOf(m, u[0]).lits;
    if |u| == 1 {
      assert RunLits(m, u[1..]) == [];
      assert RunLits(m, u) == a + [] == a;
    } else {
      var t := u[1..];
      assert forall x :: 0 <= x < |t| ==> t[x] == u[x + 1];
      RunWritten(m, t);
      TestAppend(a, RunLits(m, t));
    }
  }

  lemma FewTexts(m: Model)
    requires TextsIn(m)
    ensures |m.grp| <= 32
  {
  }

  // ---- whole branches -----------------------------------------------------------------------

  lemma {:induction false} TextAppend(a: seq<seq<Tok>>, b: seq<seq<Tok>>)
    ensures Text(a + b) == Text(a) + Text(b)
    decreases |a|
  {
    if a == [] {
      assert a + b == b;
    } else {
      assert (a + b)[1..] == a[1..] + b;
      TextAppend(a[1..], b);
    }
  }

  lemma TextNone()
    ensures Text([]) == []
  {
  }

  lemma Text1(a: seq<Tok>)
    ensures Text([a]) == a + [Newline]
  {
    assert [a][1..] == [];
  }

  /** The lines of a leaf, run together. */
  lemma LeafText(x: RLeaf, c: Cond)
    requires x.level == c.level && x.variant == VariantOf(c)
    ensures Text(LeafLines(x)) == [KIf, LPar] + TestToks(x.test) + [RPar] + LeafToks(c)
  {
    hide TestToks;
    var line := IfLine(x.test);
    if x.level == NoVerdict {
      assert LeafLines(x) == [line + [LBrace]] + ([[KReturn, Semi]] + [[RBrace]]);
      TextAppend([line + [LBrace]], [[KReturn, Semi]] + [[RBrace]]);
      TextAppend([[KReturn, Semi]], [[RBrace]]);
      Text1(line + [LBrace]);
      Text1([KReturn, Semi]);
      Text1([RBrace]);
    } else {
      assert LeafLines(x) == [line] + [ScanLine(x.level, x.variant)];
      TextAppend([line], [ScanLine(x.level, x.variant)]);
      Text1(line);
      Text1(ScanLine(x.level, x.variant));
    }
  }

  ghost predicate Written1(m: Model, k: nat)
    requires k < |m.cnd|
  {
    m.cnd[k].expr == Print(Ids(m.cnd[k].expr), m.cnd[k].op)
  }

  /** Every branch head h under consideration: its texts are lists, its runs and-lists. */
  ghost predicate HeadListed(m: Model, h: nat) {
    && h < |m.cnd| && Unshared(m) && TextsIn(m) && Forest(m.cnd)
    && (if |Members(m.cnd, h)| == 1 then Written1(m, h) else RunListed(m, Members(m.cnd, h)))
  }

  lemma LeafWritten(m: Model, h: nat)
    requires HeadListed(m, h) && !HasKids(m.cnd, h) && m.cnd[h].expr != ""
    ensures |m.grp| <= 32 && UnitToks(m, h) == Text(LeafLines(LeafOf(m, h))) && TestOk(LeafOf(m, h).test)
  {
    hide Unshared, TextsIn, Ids, Print, TestOf, TestToks, TestOk, LeafToks, LeafLines, TextToks, TermsToks, Text;
    FewTexts(m);
    var u := Members(m.cnd, h);
    var x, last := LeafOf(m, h), m.cnd[RunEnd(m.cnd, h)];
    LeafText(x, last);
    if |u| == 1 {
      TextWritten(m, h);
      assert RunEnd(m.cnd, h) == h;
    } else {
      RunWritten(m, u);
    }
  }

  lemma {:induction false} KidsWritten(m: Model, heads: seq<nat>, lo: nat)
    requires |m.grp| <= 32 && Forest(m.cnd) && lo <= |m.cnd| && HeadsIn(m.cnd, heads, lo)
    requires forall i :: 0 <= i < |heads| ==>
      HeadListed(m, heads[i]) && !HasKids(m.cnd, heads[i]) && m.cnd[heads[i]].expr != ""
    requires TextsIn(m)
    ensures UnitsToks(m, heads, lo) == Text(KidsLines(KidsOf(m, heads)))
    ensures |KidsOf(m, heads)| == |heads| && forall i :: 0 <= i < |heads| ==> KidsOf(m, heads)[i] == LeafOf(m, heads[i])
    decreases |heads|
  {
    hide TextsIn, HeadListed, HasKids, UnitToks, LeafOf, Text, LeafLines;
    if heads == [] {
      TextNone();
    } else {
      LeafWritten(m, heads[0]);
      KidsWritten(m, heads[1..], lo);
      var x, rest := LeafOf(m, heads[0]), KidsOf(m, heads[1..]);
      assert ([x] + rest)[1..] == rest;
      TextAppend(LeafLines(x), KidsLines(rest));
    }
  }

  lemma OwnText(c: Cond)
    ensures var own := if c.level == NoVerdict then [] else [ScanLine(c.level, VariantOf(c))];
      Text(own) + [RBrace, Newline] == GateTail(c)
  {
    hide Text;
    TextNone();
    if c.level != NoVerdict { Text1(ScanLine(c.level, VariantOf(c))); }
  }

  lemma HeadText(m: Model, c: Cond, test: Option<RTest>)
    requires |m.grp| <= 32 && (c.expr == "" <==> test.None?)
    requires test.Some? ==> TextToks(m, c.expr) == TestToks(test.value)
    ensures Text([HeadLine(test)]) == GateHead(m, c)
  {
    hide TestToks, TextToks, Text;
    Text1(HeadLine(test));
  }

  lemma GateText(m: Model, c: Cond, test: Option<RTest>, kids: seq<RLeaf>)
    requires |m.grp| <= 32 && (c.expr == "" <==> test.None?)
    requires test.Some? ==> TextToks(m, c.expr) == TestToks(test.value)
    ensures Text(TopLines(TGate(test, kids, c.level, VariantOf(c)))) == GateHead(m, c) + Text(KidsLines(kids))
      + GateTail(c)
  {
    hide TestToks, TextToks, KidsLines, Text, GateHead, GateTail, HeadLine, ScanLine;
    var own := if c.level == NoVerdict then [] else [ScanLine(c.level, VariantOf(c))];
    var head, close: seq<seq<Tok>> := [HeadLine(test)], [[RBrace]];
    TextAppend(head + KidsLines(kids) + own, close);
    TextAppend(head + KidsLines(kids), own);
    TextAppend(head, KidsLines(kids));
    Text1([RBrace]);
    OwnText(c);
    HeadText(m, c, test);
    Regroup(GateHead(m, c), Text(KidsLines(kids)), Text(own), [RBrace, Newline]);
  }

  lemma Regroup(a: seq<Tok>, b: seq<Tok>, c: seq<Tok>, d: seq<Tok>)
    ensures ((a + b) + c) + d == a + b + (c + d)
  {
  }

  // ---- the whole body -----------------------------------------------------------------------

  lemma ListedBasics(m: Model, rngAdd: seq<bv32>, k: nat)
    requires Listed(m, rngAdd) && k < |m.cnd|
    ensures Unshared(m) && TextsIn(m) && Written1(m, k) && |m.grp| <= 32 && NameOk(VariantOf(m.cnd[k]))
    ensures !HasKids(m.cnd, k) ==> m.cnd[k].expr != ""
    ensures m.cnd[k].parent >= 0 ==> !HasKids(m.cnd, k)
  {
    hide Shared, NameOk, Ids, HasKids, Unshared;
    ListedTexts(m, rngAdd);
    AllUnshared(m, rngAdd);
    assert !Wrong(m, rngAdd, EmptyCondition);
    if m.cnd[k].parent >= 0 { TopsOnly(m, rngAdd, k); }
  }

  lemma TopsOnly(m: Model, rngAdd: seq<bv32>, k: nat)
    requires Listed(m, rngAdd) && k < |m.cnd| && m.cnd[k].parent >= 0
    ensures !HasKids(m.cnd, k)
  {
    hide Ready, RowLists, NameOk, Shared;
  }

  lemma HeadIsListed(m: Model, rngAdd: seq<bv32>, h: nat)
    requires Separable(m, rngAdd) && h < |m.cnd|
    ensures HeadListed(m, h)
  {
    hide Unshared, TextsIn, NameOk, Ids, Print, HasKids, HeadsStrongest, LitTotal, RowLists, Ready;
    ListedBasics(m, rngAdd, h);
    var u := Members(m.cnd, h);
    if |u| > 1 {
      forall x | 0 <= x < |u|
        ensures m.cnd[u[x]].expr != "" && '|' !in m.cnd[u[x]].expr && Written1(m, u[x])
      {
        assert u[x] in u;
        ListedBasics(m, rngAdd, u[x]);
      }
    }
  }

  lemma KidsAre(m: Model, rngAdd: seq<bv32>, h: nat)
    requires Separable(m, rngAdd) && h < |m.cnd|
    ensures TextsIn(m) && Forest(m.cnd) && HeadsIn(m.cnd, Heads(m.cnd, h, 0), h + 1)
      && UnitIn1(m.cnd, Heads(m.cnd, h, 0))
    ensures var heads := Heads(m.cnd, h, 0);
      forall i :: 0 <= i < |heads| ==>
        && HeadListed(m, heads[i]) && !HasKids(m.cnd, heads[i]) && m.cnd[heads[i]].expr != ""
        && m.cnd[RunEnd(m.cnd, heads[i])].level != NoVerdict && m.cnd[RunEnd(m.cnd, heads[i])].parent >= 0
  {
    KidsAbove(m.cnd, h);
    ListedBasics(m, rngAdd, h);
    hide HeadListed, TextsIn, NameOk, HasKids, HeadsStrongest, LitTotal, Listed;
    var heads := Heads(m.cnd, h, 0);
    forall i | 0 <= i < |heads|
      ensures HeadListed(m, heads[i]) && !HasKids(m.cnd, heads[i]) && m.cnd[heads[i]].expr != ""
      ensures m.cnd[RunEnd(m.cnd, heads[i])].level != NoVerdict && m.cnd[RunEnd(m.cnd, heads[i])].parent >= 0
    {
      HeadIsListed(m, rngAdd, heads[i]);
      ListedBasics(m, rngAdd, heads[i]);
      InRun(m.cnd, heads[i], RunEnd(m.cnd, heads[i]));
    }
  }

  lemma LeafIsOk(m: Model, rngAdd: seq<bv32>, h: nat)
    requires Separable(m, rngAdd) && h < |m.cnd| && !HasKids(m.cnd, h)
    ensures TextsIn(m) && |m.grp| <= 32 && LeafOk(LeafOf(m, h)) && UnitToks(m, h) == Text(LeafLines(LeafOf(m, h)))
    ensures LeafOf(m, h).level == m.cnd[RunEnd(m.cnd, h)].level
  {
    HeadIsListed(m, rngAdd, h);
    ListedBasics(m, rngAdd, h);
    ListedBasics(m, rngAdd, RunEnd(m.cnd, h));
    hide Separable, HeadListed, TextsIn, NameOk, HasKids, TestOk, UnitToks, LeafLines, Text, TestOf;
    LeafWritten(m, h);
  }

  lemma {:induction false} KidsOkay(m: Model, rngAdd: seq<bv32>, heads: seq<nat>)
    requires Separable(m, rngAdd) && TextsIn(m) && UnitIn1(m.cnd, heads)
    requires forall i :: 0 <= i < |heads| ==>
      !HasKids(m.cnd, heads[i]) && m.cnd[RunEnd(m.cnd, heads[i])].level != NoVerdict
    ensures var s := KidsOf(m, heads); |s| == |heads| && forall i :: 0 <= i < |s| ==>
      LeafOk(s[i]) && s[i].level != NoVerdict
    decreases |heads|
  {
    hide Separable, TextsIn, HasKids, LeafOk, LeafOf, RunEnd, UnitToks, LeafLines;
    if heads != [] {
      LeafIsOk(m, rngAdd, heads[0]);
      KidsOkay(m, rngAdd, heads[1..]);
    }
  }

  lemma KidsSome(cnd: seq<Cond>, i: nat)
    requires Forest(cnd) && i < |cnd| && HasKids(cnd, i)
    ensures Heads(cnd, i, 0) != [] && Members(cnd, i) == [i]
  {
    var k :| 0 <= k < |cnd| && cnd[k].parent == i;
    HeadsFound(cnd, i, 0, k);
  }

  lemma {:induction false} HeadsFound(cnd: seq<Cond>, p: int, at: nat, k: nat)
    requires at <= k < |cnd| && cnd[k].parent == p
    ensures Heads(cnd, p, at) != []
    decreases |cnd| - at
  {
    hide RunEnd;
    if cnd[at].parent != p { HeadsFound(cnd, p, at + 1, k); }
  }

  /** What a gate is made of, the way the reader will see it. */
  lemma GateParts(m: Model, rngAdd: seq<bv32>, h: nat)
    requires Separable(m, rngAdd) && h < |m.cnd| && HasKids(m.cnd, h)
    requires TextsIn(m) && |m.grp| <= 32 && Forest(m.cnd)
    requires HeadsIn(m.cnd, Heads(m.cnd, h, 0), h + 1) && UnitIn1(m.cnd, Heads(m.cnd, h, 0))
    ensures var kids := KidsOf(m, Heads(m.cnd, h, 0));
      && kids != [] && (forall i :: 0 <= i < |kids| ==> LeafOk(kids[i]) && kids[i].level != NoVerdict)
      && UnitsToks(m, Heads(m.cnd, h, 0), h + 1) == Text(KidsLines(kids))
  {
    hide Separable, TextsIn, Unshared, HeadListed, HasKids, LeafOk, KidsOf, Text, KidsLines, UnitsToks, Heads, RunEnd;
    hide LeafOf, Members, NameOk;
    hide Written1;
    KidsAre(m, rngAdd, h);
    KidsSome(m.cnd, h);
    var heads := Heads(m.cnd, h, 0);
    KidsOkay(m, rngAdd, heads);
    KidsWritten(m, heads, h + 1);
  }

  lemma GateTest(m: Model, rngAdd: seq<bv32>, h: nat)
    requires Separable(m, rngAdd) && h < |m.cnd| && HasKids(m.cnd, h) && TextsIn(m) && |m.grp| <= 32 && Forest(m.cnd)
    ensures m.cnd[h].expr != "" ==> TextToks(m, m.cnd[h].expr) == TestToks(TestOf(m, h)) && TestOk(TestOf(m, h))
    ensures NameOk(VariantOf(m.cnd[h])) && UnitToks(m, h) == CondToks(m, h)
  {
    hide Separable, TextsIn, Unshared, HasKids, TestOk, NameOk, TestOf, CondToks, Heads, TextToks, TestToks;
    hide VariantOf, Print, Ids;
    ListedOf(m, rngAdd);
    ListedBasics(m, rngAdd, h);
    KidsSome(m.cnd, h);
    if m.cnd[h].expr != "" { TextWritten(m, h); }
  }

  lemma ListedOf(m: Model, rngAdd: seq<bv32>)
    requires Separable(m, rngAdd)
    ensures Listed(m, rngAdd)
  {
    hide Listed;
  }

  lemma GateWritten(m: Model, rngAdd: seq<bv32>, h: nat)
    requires Separable(m, rngAdd) && h < |m.cnd| && HasKids(m.cnd, h)
    ensures TextsIn(m) && |m.grp| <= 32 && Forest(m.cnd) && TopOk(TopOf(m, h))
      && UnitToks(m, h) == Text(TopLines(TopOf(m, h)))
  {
    hide Separable, TextsIn, HasKids, LeafOk, TestOk, NameOk, KidsOf, TestOf, Text, KidsLines, UnitsToks, GateHead;
    hide GateTail;
    hide TopLines, Heads, Members, UnitToks, TextToks, TestToks, VariantOf;
    ListedOf(m, rngAdd);
    ReopenBasics(m, rngAdd);
    KidsAre(m, rngAdd, h);
    GateParts(m, rngAdd, h);
    GateTest(m, rngAdd, h);
    var c := m.cnd[h];
    var test := if c.expr == "" then None else Some(TestOf(m, h));
    GateText(m, c, test, KidsOf(m, Heads(m.cnd, h, 0)));
  }

  lemma LeafLinesAre(x: RLeaf)
    ensures TopLines(TLeaf(x)) == LeafLines(x)
  {
    hide LeafLines;
  }

  lemma TopWritten(m: Model, rngAdd: seq<bv32>, h: nat)
    requires Separable(m, rngAdd) && h < |m.cnd|
    ensures TextsIn(m) && |m.grp| <= 32 && Forest(m.cnd) && TopOk(TopOf(m, h))
      && UnitToks(m, h) == Text(TopLines(TopOf(m, h)))
  {
    hide HasKids, UnitToks, TopLines, Text, LeafOk, LeafOf, LeafLines;
    if HasKids(m.cnd, h) {
      GateWritten(m, rngAdd, h);
    } else {
      LeafIsOk(m, rngAdd, h);
      LeafLinesAre(LeafOf(m, h));
    }
  }

  lemma ReopenBasics(m: Model, rngAdd: seq<bv32>)
    requires Listed(m, rngAdd)
    ensures TextsIn(m) && Unshared(m) && |m.grp| <= 32 && Forest(m.cnd)
  {
    hide Shared, NameOk, Ids, RowLists, Accepted;
    ListedTexts(m, rngAdd);
    AllUnshared(m, rngAdd);
  }

  lemma {:induction false} TopsWritten(m: Model, rngAdd: seq<bv32>, heads: seq<nat>)
    requires Separable(m, rngAdd) && UnitIn1(m.cnd, heads)
    ensures TextsIn(m) && |m.grp| <= 32 && Forest(m.cnd) && HeadsIn(m.cnd, heads, 0)
    ensures TopsOk(TopsOf(m, heads)) && UnitsToks(m, heads, 0) == Text(TopsLines(TopsOf(m, heads)))
    decreases |heads|
  {
    hide Separable, TextsIn, HasKids, UnitToks, TopLines, Text, TopOk, TopOf;
    ListedOf(m, rngAdd);
    ReopenBasics(m, rngAdd);
    if heads == [] {
      TextNone();
    } else {
      TopWritten(m, rngAdd, heads[0]);
      TopsWritten(m, rngAdd, heads[1..]);
      var x, rest := TopOf(m, heads[0]), TopsOf(m, heads[1..]);
      assert ([x] + rest)[1..] == rest;
      TextAppend(TopLines(x), TopsLines(rest));
    }
  }

  // ---- what the branches mean is what the draft means ---------------------------------------

  lemma LitMeans(m: Model, l: Lit, o: Obj)
    requires Unshared(m) && 1 <= l.n <= |m.grp|
    ensures LitHolds(LitOf(m, l), o) <==> Lits(m, o)(l.n) != l.neg
  {
    hide Shared, Strs, Mask, Hits, Usable;
  }

  lemma ListMeans(m: Model, lits: seq<Lit>, op: bool, o: Obj)
    requires Unshared(m) && InRange(m, lits) && TestOk(RTest(op, LitsOf(m, lits)))
    ensures TestHolds(RTest(op, LitsOf(m, lits)), o) <==> ListHolds(op, lits, Lits(m, o))
  {
    hide Unshared, LitHolds, LitOf, IdHolds;
    UnsharedFew(m);
    var t := RTest(op, LitsOf(m, lits));
    forall i: nat | i < |lits|
      ensures Lits(m, o)(lits[i].n) != lits[i].neg <==> LitHolds(t.lits[i], o)
    {
      LitMeans(m, lits[i], o);
    }
    ListIs(t, t.op, lits, Lits(m, o), o);
  }

  lemma TestMeans(m: Model, k: nat, o: Obj)
    requires Unshared(m) && TextsIn(m) && k < |m.cnd| && m.cnd[k].expr != "" && Written1(m, k)
    ensures TestOk(TestOf(m, k)) && (TestHolds(TestOf(m, k), o) <==> TextHolds(m, m.cnd[k].expr, o))
  {
    hide Unshared, Ids, Print, TestOk, TestHolds, IdHolds, Holds, Read, LitsOf, InRange, TextToks, TestToks, ListHolds;
    var c := m.cnd[k];
    var lits := Ids(c.expr);
    TextWritten(m, k);
    PrintNone(lits, c.op);
    var r := ListReads(lits, c.op);
    assert InRange(m, lits);
    ListMeans(m, lits, c.op, o);
  }

  lemma AllAppend(a: seq<RLit>, b: seq<RLit>, o: Obj)
    requires TestOk(RTest(false, a)) && TestOk(RTest(false, b))
    ensures TestOk(RTest(false, a + b))
    ensures TestHolds(RTest(false, a + b), o) <==> TestHolds(RTest(false, a), o) && TestHolds(RTest(false, b), o)
  {
    hide LitHolds;
    var s := a + b;
    assert forall i :: 0 <= i < |a| ==> s[i] == a[i];
    assert forall i :: 0 <= i < |b| ==> s[|a| + i] == b[i];
    if TestHolds(RTest(false, s), o) {
      forall i | 0 <= i < |a| ensures LitHolds(a[i], o) { assert LitHolds(s[i], o); }
      forall i | 0 <= i < |b| ensures LitHolds(b[i], o) { assert LitHolds(s[|a| + i], o); }
    }
  }

  /** A text without a "|" holds when all its literals do. */
  lemma PlainMeans(m: Model, k: nat, o: Obj)
    requires Unshared(m) && TextsIn(m) && k < |m.cnd| && m.cnd[k].expr != "" && Written1(m, k) && '|' !in m.cnd[k].expr
    ensures var t := RTest(false, TestOf(m, k).lits); TestOk(t) && (TestHolds(t, o) <==> TextHolds(m, m.cnd[k].expr, o))
  {
    TestMeans(m, k, o);
    hide Unshared, Ids, Print, LitsOf, TextsIn, InRange, TextHolds, LitHolds, LitOk;
    var lits := Ids(m.cnd[k].expr);
    if |lits| > 1 && m.cnd[k].op { BarWritten(lits); }
    var t := TestOf(m, k);
    assert |t.lits| == |lits|;
    if |lits| <= 1 && t.op { OneLit(t, o); }
  }

  lemma OneLit(t: RTest, o: Obj)
    requires TestOk(t) && |t.lits| == 1
    ensures TestOk(RTest(false, t.lits)) && (TestHolds(RTest(false, t.lits), o) <==> TestHolds(t, o))
  {
    hide LitHolds;
    assert TestHolds(t, o) <==> LitHolds(t.lits[0], o);
    assert TestHolds(RTest(false, t.lits), o) <==> LitHolds(t.lits[0], o);
  }

  lemma {:induction false} RunMeans(m: Model, u: Unit, o: Obj)
    requires RunListed(m, u)
    ensures |m.grp| <= 32 && UnitIn(m.cnd, u, 0)
    ensures TestOk(RTest(false, RunLits(m, u))) && (TestHolds(RTest(false, RunLits(m, u)), o) <==> RunHolds(m, u, o))
    decreases |u|
  {
    hide Unshared, TextsIn, Ids, Print, TestOk, TestHolds, TestOf, TextHolds;
    FewTexts(m);
    PlainMeans(m, u[0], o);
    var a := TestOf(m, u[0]).lits;
    if |u| == 1 {
      assert RunLits(m, u[1..]) == [];
      assert RunLits(m, u) == a + [] == a;
    } else {
      var t := u[1..];
      assert forall x :: 0 <= x < |t| ==> t[x] == u[x + 1];
      RunMeans(m, t, o);
      RunHoldsCons(m, u, o);
      AllAppend(a, RunLits(m, t), o);
    }
  }

  lemma ToldIs(c: Cond)
    ensures Conclude(c) == Told(c.level, VariantOf(c))
  {
  }

  lemma LeafMeans(m: Model, h: nat, o: Obj)
    requires HeadListed(m, h) && !HasKids(m.cnd, h) && m.cnd[h].expr != "" && LeafOk(LeafOf(m, h))
    ensures |m.grp| <= 32 && UnitMeaning(m, h, o) == LeafMeaning(LeafOf(m, h), o)
  {
    hide Unshared, TextsIn, Ids, Print, TestOf, TestOk, TestHolds, TextHolds, RunHolds, NameOk, HasKids, Conclude;
    hide VariantOf;
    FewTexts(m);
    var u := Members(m.cnd, h);
    ToldIs(m.cnd[RunEnd(m.cnd, h)]);
    if |u| == 1 { TestMeans(m, h, o); } else { RunMeans(m, u, o); }
  }

  lemma LeafMeansAt(m: Model, rngAdd: seq<bv32>, h: nat, o: Obj)
    requires Separable(m, rngAdd) && h < |m.cnd| && !HasKids(m.cnd, h)
    ensures TextsIn(m) && |m.grp| <= 32 && Forest(m.cnd) && LeafOk(LeafOf(m, h))
      && UnitMeaning(m, h, o) == LeafMeaning(LeafOf(m, h), o)
  {
    hide Separable, HeadListed, LeafOk, LeafMeaning, UnitMeaning, HasKids, UnitToks, Text, LeafLines;
    ListedOf(m, rngAdd);
    ReopenBasics(m, rngAdd);
    HeadIsListed(m, rngAdd, h);
    ListedBasics(m, rngAdd, h);
    LeafIsOk(m, rngAdd, h);
    LeafMeans(m, h, o);
  }

  lemma {:induction false} KidsMeans(m: Model, rngAdd: seq<bv32>, heads: seq<nat>, lo: nat, o: Obj)
    requires Separable(m, rngAdd) && TextsIn(m) && |m.grp| <= 32 && Forest(m.cnd) && lo <= |m.cnd|
      && HeadsIn(m.cnd, heads, lo)
    requires UnitIn1(m.cnd, heads) && forall i :: 0 <= i < |heads| ==> !HasKids(m.cnd, heads[i])
    ensures var s := KidsOf(m, heads);
      (forall i :: 0 <= i < |s| ==> LeafOk(s[i])) && FirstOf(m, heads, lo, o) == KidsMeaning(s, o)
    decreases |heads|
  {
    hide Separable, TextsIn, HasKids, LeafOk, LeafMeaning, UnitMeaning, LeafOf;
    if heads != [] {
      LeafMeansAt(m, rngAdd, heads[0], o);
      KidsMeans(m, rngAdd, heads[1..], lo, o);
      var x, rest := LeafOf(m, heads[0]), KidsOf(m, heads[1..]);
      assert ([x] + rest)[1..] == rest;
    }
  }

  lemma GateMeans(m: Model, rngAdd: seq<bv32>, h: nat, o: Obj)
    requires Separable(m, rngAdd) && h < |m.cnd| && HasKids(m.cnd, h)
    ensures TextsIn(m) && |m.grp| <= 32 && Forest(m.cnd) && TopOk(TopOf(m, h))
      && UnitMeaning(m, h, o) == TopMeaning(TopOf(m, h), o)
  {
    hide Separable, TextsIn, Unshared, HeadListed, HasKids, LeafOk, TestOk, NameOk, KidsOf, TestOf, KidsMeaning;
    hide TestHolds, TextHolds;
    hide UnitToks, Text, TopLines, Heads, FirstOf, TopOk, Members, RunEnd;
    GateWritten(m, rngAdd, h);
    GateOk(TopOf(m, h));
    ListedOf(m, rngAdd);
    ListedBasics(m, rngAdd, h);
    KidsAre(m, rngAdd, h);
    KidsSome(m.cnd, h);
    KidsMeans(m, rngAdd, Heads(m.cnd, h, 0), h + 1, o);
    var c := m.cnd[h];
    if c.expr != "" { TestMeans(m, h, o); } else { EmptyHolds(m, o); }
    GateToldIs(c);
    hide Conclude, Conditions.GateVerdict, VariantOf;
  }

  lemma GateOk(x: RTop)
    requires TopOk(x) && x.TGate?
    ensures (x.test.Some? ==> TestOk(x.test.value)) && forall i :: 0 <= i < |x.kids| ==> LeafOk(x.kids[i])
  {
    hide LeafOk, TestOk, NameOk;
  }

  lemma GateToldIs(c: Cond)
    ensures Conditions.GateVerdict(c) == if c.level == NoVerdict then Fell else Report(c.level, VariantOf(c))
  {
  }

  lemma TopMeans(m: Model, rngAdd: seq<bv32>, h: nat, o: Obj)
    requires Separable(m, rngAdd) && h < |m.cnd|
    ensures TextsIn(m) && |m.grp| <= 32 && Forest(m.cnd) && TopOk(TopOf(m, h))
      && UnitMeaning(m, h, o) == TopMeaning(TopOf(m, h), o)
  {
    hide HasKids, LeafOk, LeafOf, LeafMeaning, UnitMeaning;
    if HasKids(m.cnd, h) { GateMeans(m, rngAdd, h, o); } else { LeafMeansAt(m, rngAdd, h, o); }
  }

  lemma {:induction false} TopsMeans(m: Model, rngAdd: seq<bv32>, heads: seq<nat>, o: Obj)
    requires Separable(m, rngAdd) && UnitIn1(m.cnd, heads)
    ensures TextsIn(m) && |m.grp| <= 32 && Forest(m.cnd) && HeadsIn(m.cnd, heads, 0)
    ensures TopsOk(TopsOf(m, heads)) && FirstOf(m, heads, 0, o) == TopsMeaning(TopsOf(m, heads), o)
    decreases |heads|
  {
    hide Separable, TextsIn, HasKids, TopOk, TopOf, TopMeaning, UnitMeaning;
    ListedOf(m, rngAdd);
    ReopenBasics(m, rngAdd);
    if heads != [] {
      TopMeans(m, rngAdd, heads[0], o);
      TopsMeans(m, rngAdd, heads[1..], o);
      var x, rest := TopOf(m, heads[0]), TopsOf(m, heads[1..]);
      assert ([x] + rest)[1..] == rest;
    }
  }
}
