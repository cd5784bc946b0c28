/** Opening what was generated gives back a draft that says the same of every object. */
module Reopened {
  import opened TargetC
  import opened DraftModel
  import opened ExprSource
  import opened Matchers
  import opened ExprTokens
  import opened ExprMeaning
  import opened Conditions
  import opened BranchTokens
  import opened Order
  import opened Visits
  import opened Generate
  import opened IdList
  import opened DraftEdits
  import opened Refusals
  import opened Closed
  import opened Lines
  import opened CallText
  import opened Reader
  import opened Rebuild
  import opened ReadMeaning
  import opened RoundTrip
  import opened Reopen
  import Verdicts

  // ---- how many conditions and matchers come back -------------------------------------------

  function LitAt(cnd: seq<Cond>, k: nat): nat { if k < |cnd| then LitCount(cnd[k]) else 0 }

  function SumOver(cnd: seq<Cond>, s: seq<nat>): nat { if s == [] then 0 else LitAt(cnd, s[0]) + SumOver(cnd, s[1..]) }

  lemma {:induction false} SumAppend(cnd: seq<Cond>, a: seq<nat>, b: seq<nat>)
    ensures SumOver(cnd, a + b) == SumOver(cnd, a) + SumOver(cnd, b)
    decreases |a|
  {
    hide LitAt;
    if a == [] {
      assert a + b == b;
    } else {
      assert (a + b)[1..] == a[1..] + b;
      SumAppend(cnd, a[1..], b);
    }
  }

  lemma SumOne(cnd: seq<Cond>, k: nat)
    ensures SumOver(cnd, [k]) == LitAt(cnd, k)
  {
    assert [k][1..] == [];
  }

  lemma {:induction false} RunCount(m: Model, u: seq<nat>)
    requires TextsIn(m) && UnitIn1(m.cnd, u)
    ensures |RunLits(m, u)| == SumOver(m.cnd, u)
    decreases |u|
  {
    hide Ids, TextsIn, LitOf;
    if u != [] { RunCount(m, u[1..]); }
  }

  lemma NoKidsVisit(cnd: seq<Cond>, h: nat)
    requires Forest(cnd) && h < |cnd| && !HasKids(cnd, h)
    ensures UnitVisit(cnd, h) == Members(cnd, h)
  {
    KidsAbove(cnd, h);
    NoHeads(cnd, h, 0);
    assert [h] + [] == [h];
  }

  lemma LeafCount(m: Model, h: nat)
    requires TextsIn(m) && Forest(m.cnd) && h < |m.cnd| && !HasKids(m.cnd, h)
    ensures |LeafOf(m, h).test.lits| == SumOver(m.cnd, UnitVisit(m.cnd, h)) && |UnitVisit(m.cnd, h)| >= 1
  {
    hide Ids, TextsIn, LitOf, HasKids;
    NoKidsVisit(m.cnd, h);
    var u := Members(m.cnd, h);
    if |u| == 1 { SumOne(m.cnd, h); assert u == [h]; } else { RunCount(m, u); }
  }

  lemma {:induction false} KidsTotal(m: Model, heads: seq<nat>, lo: nat)
    requires TextsIn(m) && Forest(m.cnd) && lo <= |m.cnd| && HeadsIn(m.cnd, heads, lo) && UnitIn1(m.cnd, heads)
    requires forall i :: 0 <= i < |heads| ==> !HasKids(m.cnd, heads[i])
    ensures |KidsOf(m, heads)| == |heads| <= |UnitsVisit(m.cnd, heads, lo)|
    ensures |LeafLits(KidsOf(m, heads))| == SumOver(m.cnd, UnitsVisit(m.cnd, heads, lo))
    decreases |heads|
  {
    hide TextsIn, HasKids, LeafOf, UnitVisit;
    if heads != [] {
      LeafCount(m, heads[0]);
      KidsTotal(m, heads[1..], lo);
      SumAppend(m.cnd, UnitVisit(m.cnd, heads[0]), UnitsVisit(m.cnd, heads[1..], lo));
      var x, rest := LeafOf(m, heads[0]), KidsOf(m, heads[1..]);
      assert ([x] + rest)[1..] == rest;
    }
  }

  lemma TopTotal(m: Model, rngAdd: seq<bv32>, h: nat, base: nat, at: nat)
    requires Separable(m, rngAdd) && h < |m.cnd|
    ensures TextsIn(m) && Forest(m.cnd) && |TopConds(TopOf(m, h), base, at)| <= |UnitVisit(m.cnd, h)|
    ensures |TopLits(TopOf(m, h))| == SumOver(m.cnd, UnitVisit(m.cnd, h))
  {
    ListedOf(m, rngAdd);
    ReopenBasics(m, rngAdd);
    TopShape(TopOf(m, h), base, at);
    if HasKids(m.cnd, h) {
      GateTotal(m, rngAdd, h);
    } else {
      hide Ids, TextsIn, HasKids, LeafOf, Separable, Listed, UnitVisit, TopConds;
      LeafCount(m, h);
    }
  }

  lemma GateVisit(cnd: seq<Cond>, h: nat)
    requires Forest(cnd) && h < |cnd| && HasKids(cnd, h)
    ensures HeadsIn(cnd, Heads(cnd, h, 0), h + 1)
    ensures UnitVisit(cnd, h) == [h] + UnitsVisit(cnd, Heads(cnd, h, 0), h + 1)
  {
    hide HasKids, Heads, Members, UnitsVisit;
    KidsAbove(cnd, h);
    KidsSome(cnd, h);
  }

  lemma GateTotal(m: Model, rngAdd: seq<bv32>, h: nat)
    requires Separable(m, rngAdd) && h < |m.cnd| && HasKids(m.cnd, h) && TextsIn(m) && Forest(m.cnd)
    ensures TopOf(m, h).TGate? && 1 + |TopOf(m, h).kids| <= |UnitVisit(m.cnd, h)|
    ensures |TopLits(TopOf(m, h))| == SumOver(m.cnd, UnitVisit(m.cnd, h))
  {
    hide TextsIn, HasKids, LeafOf, KidsOf, Separable, Heads, Members, UnitsVisit, UnitVisit, LeafLits, LitAt, SumOver;
    hide HeadLits;
    var heads := Heads(m.cnd, h, 0);
    KidsAre(m, rngAdd, h);
    GateVisit(m.cnd, h);
    KidsTotal(m, heads, h + 1);
    SumAppend(m.cnd, [h], UnitsVisit(m.cnd, heads, h + 1));
    SumOne(m.cnd, h);
    OwnCount(m, h);
  }

  lemma OwnCount(m: Model, h: nat)
    requires TextsIn(m) && h < |m.cnd|
    ensures |HeadLits(if m.cnd[h].expr == "" then None else Some(TestOf(m, h)))| == LitAt(m.cnd, h)
  {
    hide LitOf;
    if m.cnd[h].expr == "" { assert Ids("") == []; }
  }

  lemma {:induction false} TopsTotal(m: Model, rngAdd: seq<bv32>, heads: seq<nat>, base: nat, at: nat)
    requires Separable(m, rngAdd) && UnitIn1(m.cnd, heads)
    ensures TextsIn(m) && Forest(m.cnd) && HeadsIn(m.cnd, heads, 0)
    ensures |TopsConds(TopsOf(m, heads), base, at)| <= |UnitsVisit(m.cnd, heads, 0)|
    ensures |TopsLits(TopsOf(m, heads))| == SumOver(m.cnd, UnitsVisit(m.cnd, heads, 0))
    decreases |heads|
  {
    hide TextsIn, Separable, TopOf, TopConds, TopLits, UnitVisit;
    ListedOf(m, rngAdd);
    ReopenBasics(m, rngAdd);
    if heads != [] {
      var x, rest := TopOf(m, heads[0]), TopsOf(m, heads[1..]);
      var c := TopConds(x, base, at);
      TopTotal(m, rngAdd, heads[0], base, at);
      TopsTotal(m, rngAdd, heads[1..], base + |TopLits(x)|, at + |c|);
      SumAppend(m.cnd, UnitVisit(m.cnd, heads[0]), UnitsVisit(m.cnd, heads[1..], 0));
      assert ([x] + rest)[1..] == rest;
    }
  }

  lemma {:induction false} SumWithoutOne(cnd: seq<Cond>, s: seq<nat>, p: nat)
    requires p < |s|
    ensures SumOver(cnd, s) == SumOver(cnd, s[..p] + s[p + 1..]) + LitAt(cnd, s[p])
  {
    hide LitAt;
    assert s == s[..p] + ([s[p]] + s[p + 1..]);
    SumAppend(cnd, s[..p], [s[p]] + s[p + 1..]);
    SumAppend(cnd, [s[p]], s[p + 1..]);
    SumOne(cnd, s[p]);
    SumAppend(cnd, s[..p], s[p + 1..]);
  }

  lemma {:induction false} SumShorter(cnd: seq<Cond>, s: seq<nat>)
    requires cnd != [] && forall i :: 0 <= i < |s| ==> s[i] < |cnd| - 1
    ensures SumOver(cnd, s) == SumOver(cnd[..|cnd| - 1], s)
    decreases |s|
  {
    hide LitCount;
    if s != [] { SumShorter(cnd, s[1..]); }
  }

  lemma TimesWithout(s: seq<nat>, p: nat, j: nat)
    requires p < |s|
    ensures Times(s, j) == Times(s[..p] + s[p + 1..], j) + if j == s[p] then 1 else 0
  {
    assert s == s[..p] + ([s[p]] + s[p + 1..]);
    TimesAppend(s[..p], [s[p]] + s[p + 1..], j);
    TimesAppend([s[p]], s[p + 1..], j);
    TimesAppend(s[..p], s[p + 1..], j);
    TimesOne(s[p], j);
  }

  ghost predicate Once(s: seq<nat>, n: nat) {
    (forall j: nat :: j < n ==> Times(s, j) == 1) && forall i :: 0 <= i < |s| ==> s[i] < n
  }

  /** Whatever is met once each adds up to the whole. */
  lemma {:induction false} OnceSum(cnd: seq<Cond>, s: seq<nat>)
    requires Once(s, |cnd|)
    ensures |s| == |cnd| && SumOver(cnd, s) == LitTotal(cnd)
    decreases |cnd|
  {
    hide LitCount, Times;
    if cnd == [] {
      assert (s + [0])[0] >= 0;
    } else {
      var n := |cnd| - 1;
      assert Times(s, n) == 1;
      var p := Position(s, n);
      var t := s[..p] + s[p + 1..];
      OnceWithout(s, p, n);
      OnceSum(cnd[..n], t);
      SumWithoutOne(cnd, s, p);
      SumShorter(cnd, t);
    }
  }

  lemma Position(s: seq<nat>, x: nat) returns (p: nat)
    requires Times(s, x) == 1
    ensures p < |s| && s[p] == x
  {
    assert x in multiset(s);
    p :| 0 <= p < |s| && s[p] == x;
  }

  lemma OnceWithout(s: seq<nat>, p: nat, n: nat)
    requires p < |s| && s[p] == n && Once(s, n + 1)
    ensures Once(s[..p] + s[p + 1..], n)
  {
    hide Times;
    var t := s[..p] + s[p + 1..];
    forall j: nat | j < n
      ensures Times(t, j) == 1
    {
      TimesWithout(s, p, j);
    }
    TimesWithout(s, p, n);
    forall i | 0 <= i < |t|
      ensures t[i] < n
    {
      var v := if i < p then s[i] else s[i + 1];
      assert t[i] == v && v < n + 1;
      if v == n { TimesSome(t, i); }
    }
  }

  lemma TimesSome(s: seq<nat>, i: nat)
    requires i < |s|
    ensures Times(s, s[i]) >= 1
  {
    assert s[i] in multiset(s);
  }

  lemma {:induction false} UnitVisitIn(cnd: seq<Cond>, h: nat, x: nat)
    requires Forest(cnd) && h < |cnd| && x in UnitVisit(cnd, h)
    ensures x < |cnd|
    decreases |cnd| - h, 0, 0
  {
    hide HasKids;
    if |Members(cnd, h)| == 1 && x != h {
      KidsAbove(cnd, h);
      UnitsVisitIn(cnd, Heads(cnd, h, 0), h + 1, x);
    }
  }

  lemma {:induction false} UnitsVisitIn(cnd: seq<Cond>, heads: seq<nat>, lo: nat, x: nat)
    requires Forest(cnd) && lo <= |cnd| && HeadsIn(cnd, heads, lo) && x in UnitsVisit(cnd, heads, lo)
    ensures x < |cnd|
    decreases |cnd| - lo, 1, |heads|
  {
    hide UnitVisit;
    if x in UnitVisit(cnd, heads[0]) { UnitVisitIn(cnd, heads[0], x); } else { UnitsVisitIn(cnd, heads[1..], lo, x); }
  }

  lemma AllMet(cnd: seq<Cond>)
    requires Forest(cnd)
    ensures Once(UnitsVisit(cnd, Ordered(cnd), 0), |cnd|)
  {
    hide UnitsVisit, Times, Ordered;
    var heads := Ordered(cnd);
    var s := UnitsVisit(cnd, heads, 0);
    forall j: nat | j < |cnd|
      ensures Times(s, j) == 1
    {
      OrderedOnce(cnd, j);
    }
    forall i | 0 <= i < |s|
      ensures s[i] < |cnd|
    {
      UnitsVisitIn(cnd, heads, 0, s[i]);
    }
  }

  /** No more conditions come back than there were, and as many matchers as literals. */
  lemma Sizes(m: Model, rngAdd: seq<bv32>)
    requires Separable(m, rngAdd)
    ensures TextsIn(m) && UnitIn1(m.cnd, Ordered(m.cnd))
    ensures |TopsConds(TopsOf(m, Ordered(m.cnd)), 0, 0)| <= |m.cnd|
    ensures |TopsLits(TopsOf(m, Ordered(m.cnd)))| == LitTotal(m.cnd)
  {
    hide TextsIn, Listed, Separable, UnitsVisit, Once, TopsConds, TopsLits, TopsOf, LitTotal, Ordered, Forest;
    ListedOf(m, rngAdd);
    ReopenBasics(m, rngAdd);
    AllMet(m.cnd);
    TopsTotal(m, rngAdd, Ordered(m.cnd), 0, 0);
    OnceSum(m.cnd, UnitsVisit(m.cnd, Ordered(m.cnd), 0));
  }

  // ---- every call is one the reader knows ---------------------------------------------------

  ghost predicate FromMatcher(m: Model, l: RLit)
    requires |m.grp| <= 32
  {
    exists g :: 0 <= g < |m.grp| && l.call == CallTok(m, g, false)
  }

  ghost predicate AllFrom(m: Model, s: seq<RLit>)
    requires |m.grp| <= 32
  {
    forall i :: 0 <= i < |s| ==> FromMatcher(m, s[i])
  }

  lemma FromAppend(m: Model, a: seq<RLit>, b: seq<RLit>)
    requires |m.grp| <= 32 && AllFrom(m, a) && AllFrom(m, b)
    ensures AllFrom(m, a + b)
  {
    hide FromMatcher;
  }

  lemma TestFrom(m: Model, k: nat)
    requires TextsIn(m) && k < |m.cnd|
    ensures |m.grp| <= 32 && AllFrom(m, TestOf(m, k).lits)
  {
    hide Ids, CallTok;
  }

  lemma {:induction false} RunFrom(m: Model, u: seq<nat>)
    requires TextsIn(m) && UnitIn1(m.cnd, u)
    ensures |m.grp| <= 32 && AllFrom(m, RunLits(m, u))
    decreases |u|
  {
    hide TextsIn, TestOf, FromMatcher;
    FewTexts(m);
    if u != [] {
      TestFrom(m, u[0]);
      RunFrom(m, u[1..]);
      FromAppend(m, TestOf(m, u[0]).lits, RunLits(m, u[1..]));
    }
  }

  lemma LeafFrom(m: Model, h: nat)
    requires TextsIn(m) && h < |m.cnd|
    ensures |m.grp| <= 32 && AllFrom(m, LeafOf(m, h).test.lits)
  {
    hide TextsIn, TestOf, AllFrom;
    FewTexts(m);
    TestFrom(m, h);
    RunFrom(m, Members(m.cnd, h));
  }

  lemma {:induction false} KidsFrom(m: Model, heads: seq<nat>)
    requires TextsIn(m) && UnitIn1(m.cnd, heads)
    ensures |m.grp| <= 32 && AllFrom(m, LeafLits(KidsOf(m, heads)))
    decreases |heads|
  {
    hide TextsIn, LeafOf, FromMatcher;
    FewTexts(m);
    if heads != [] {
      LeafFrom(m, heads[0]);
      KidsFrom(m, heads[1..]);
      var x, rest := LeafOf(m, heads[0]), KidsOf(m, heads[1..]);
      assert ([x] + rest)[1..] == rest;
      FromAppend(m, x.test.lits, LeafLits(rest));
    }
  }

  lemma TopFrom(m: Model, h: nat)
    requires TextsIn(m) && h < |m.cnd|
    ensures |m.grp| <= 32 && AllFrom(m, TopLits(TopOf(m, h)))
  {
    hide TextsIn, LeafOf, KidsOf, LeafLits, TestOf, HasKids, FromMatcher, Heads;
    FewTexts(m);
    var heads := Heads(m.cnd, h, 0);
    assert UnitIn1(m.cnd, heads);
    LeafFrom(m, h);
    TestFrom(m, h);
    KidsFrom(m, heads);
    FromAppend(m, HeadLits(if m.cnd[h].expr == "" then None else Some(TestOf(m, h))), LeafLits(KidsOf(m, heads)));
  }

  lemma {:induction false} TopsFrom(m: Model, heads: seq<nat>)
    requires TextsIn(m) && UnitIn1(m.cnd, heads)
    ensures |m.grp| <= 32 && AllFrom(m, TopsLits(TopsOf(m, heads)))
    decreases |heads|
  {
    hide TextsIn, TopOf, TopLits, FromMatcher;
    FewTexts(m);
    if heads != [] {
      TopFrom(m, heads[0]);
      TopsFrom(m, heads[1..]);
      var x, rest := TopOf(m, heads[0]), TopsOf(m, heads[1..]);
      assert ([x] + rest)[1..] == rest;
      FromAppend(m, TopLits(x), TopsLits(rest));
    }
  }

  lemma MaskNotNone(m: Model, g: nat)
    requires g < |m.grp| <= 32
    ensures Mask(m, g) != 0
  {
  }

  /** No two ranges have names the reader takes for one. */
  ghost predicate Apart(name: Naming, ranges: seq<bv32>) {
    forall i, j :: 0 <= i < j < |ranges| ==> Hold(name(ranges[i])) != Hold(name(ranges[j]))
  }

  function HeaderOf(m: Model, name: Naming): Header
    requires |m.grp| <= 32
  {
    Header(name, Ranges(m, |m.grp|))
  }

  /** A declared range is found again by its name. */
  lemma {:induction false} RangeFound(h: Header, n: nat, i: nat)
    requires Apart(h.name, h.ranges) && i < n <= |h.ranges|
    ensures LastNamed(h, Hold(h.name(h.ranges[i])), n) == h.ranges[i]
    decreases n
  {
    hide Hold;
    if i < n - 1 { RangeFound(h, n - 1, i); }
  }

  /** The generator writes a declared range, and its markers in order. */
  lemma CallKnownAs(m: Model, rngAdd: seq<bv32>, g: nat, name: Naming)
    requires Ready(m, rngAdd) && g < |m.grp| && Apart(name, Ranges(m, |m.grp|))
    ensures CallOk(CallTok(m, g, false), |m.decl|, HeaderOf(m, name))
  {
    hide StrsFrom, Mask, Accepted, Hold;
    AcceptedCounts(m, rngAdd, g);
    StrsRising(m, g, 0);
    MaskNotNone(m, g);
    var ranges := Ranges(m, |m.grp|);
    assert Mask(m, g) in ranges;
    var i: nat :| i < |ranges| && ranges[i] == Mask(m, g);
    RangeFound(HeaderOf(m, name), |ranges|, i);
    assert Strs(m, g)[0] in Strs(m, g);
  }

  lemma CallsKnown(m: Model, rngAdd: seq<bv32>, s: seq<RLit>, name: Naming)
    requires Ready(m, rngAdd) && AllFrom(m, s) && Apart(name, Ranges(m, |m.grp|))
    ensures CallsOk(s, |m.decl|, HeaderOf(m, name))
  {
    hide CallTok, CallOk, Accepted, Ranges;
    forall i | 0 <= i < |s|
      ensures CallOk(s[i].call, |m.decl|, HeaderOf(m, name))
    {
      assert FromMatcher(m, s[i]);
      var g: nat :| g < |m.grp| && s[i].call == CallTok(m, g, false);
      CallKnownAs(m, rngAdd, g, name);
    }
  }

  // ---- the branches and how they end --------------------------------------------------------

  lemma TopLevelIs(m: Model, h: nat)
    requires TextsIn(m) && Forest(m.cnd) && h < |m.cnd|
    ensures TopLevel(TopOf(m, h)) == EndLevel(m.cnd, h)
  {
    hide TextsIn, HasKids, TestOf, KidsOf, RunLits, Heads, Members, RunEnd;
    if HasKids(m.cnd, h) { GateAlone(m.cnd, h); }
  }

  /** A gate is conjoined with nothing. */
  lemma GateAlone(cnd: seq<Cond>, h: nat)
    requires Forest(cnd) && h < |cnd| && HasKids(cnd, h)
    ensures RunEnd(cnd, h) == h
  {
    KidsSome(cnd, h);
  }

  lemma {:induction false} TopsAre(m: Model, heads: seq<nat>)
    requires TextsIn(m) && UnitIn1(m.cnd, heads)
    ensures var s := TopsOf(m, heads); |s| == |heads| && forall i :: 0 <= i < |s| ==> s[i] == TopOf(m, heads[i])
    decreases |heads|
  {
    hide TextsIn, TopOf;
    if heads != [] { TopsAre(m, heads[1..]); }
  }

  lemma RankedIs(m: Model)
    requires TextsIn(m) && Forest(m.cnd) && UnitIn1(m.cnd, Ordered(m.cnd))
    ensures Ranked(TopsOf(m, Ordered(m.cnd))) <==> EndsRanked(m.cnd)
  {
    hide TextsIn, Ordered, TopOf, TopLevel, EndLevel;
    var heads := Ordered(m.cnd);
    TopsAre(m, heads);
    forall i | 0 <= i < |heads|
      ensures TopLevel(TopsOf(m, heads)[i]) == EndLevel(m.cnd, heads[i])
    {
      TopLevelIs(m, heads[i]);
    }
  }

  // ---- the draft that comes back ------------------------------------------------------------

  lemma {:induction false} NoCounters(m: Model, g: nat)
    requires |m.grp| <= 32 && forall k :: 0 <= k < |m.grp| ==> !Shared(m, k)
    ensures DeclsToks(m, g) == []
    decreases |m.grp| - g
  {
    hide Shared, Lead, DeclToks;
    if g < |m.grp| { NoCounters(m, g + 1); }
  }

  /** The body is the lines of its branches, and the brace that ends it. */
  lemma BodyIs(m: Model, rngAdd: seq<bv32>)
    requires Separable(m, rngAdd)
    ensures TextsIn(m) && UnitIn1(m.cnd, Ordered(m.cnd)) && |m.grp| <= 32 && Forest(m.cnd)
    ensures BodyToks(m) == Text(TopsLines(TopsOf(m, Ordered(m.cnd)))) + [RBrace, Newline]
  {
    hide TextsIn, UnitsToks, Text, TopsLines, TopsOf, Written, Shared, RowLists, Accepted, NameOk, LitTotal;
    hide HeadsStrongest, Heads, Members;
    NoCounters(m, 0);
    WrittenSorted(m.cnd);
    TopsWritten(m, rngAdd, Ordered(m.cnd));
    assert [] + [] + [] + Text(TopsLines(TopsOf(m, Ordered(m.cnd)))) == Text(TopsLines(TopsOf(m, Ordered(m.cnd))));
  }

  /** Generated, and opened again. */
  function Back(m: Model, decl: seq<Decl>, name: Naming): Model
    requires |m.grp| <= 32 && Forest(m.cnd)
  {
    ReadBack(decl, BodyToks(m), HeaderOf(m, name))
  }

  /** The draft can be written so that it can be read: its branches are plain, no line of its body
      is longer than the reader's buffer, and its ranges have names of their own. */
  ghost predicate Readable(m: Model, rngAdd: seq<bv32>, name: Naming) {
    && Separable(m, rngAdd) && |m.grp| <= 32 && Forest(m.cnd)
    && AllFit(BodyToks(m), INSIDE, name) && Apart(name, Ranges(m, |m.grp|))
  }

  lemma ReadyOf(m: Model, rngAdd: seq<bv32>)
    requires Separable(m, rngAdd)
    ensures Ready(m, rngAdd) && m.sizeMax == None && LitTotal(m.cnd) <= MAX_GROUP && |m.cnd| <= MAX_GROUP
  {
    hide Ready, RowLists, HeadsStrongest, LitTotal, NameOk, Shared, PlaceOk;
  }

  /** It comes back holding its branches, in the order they were written. */
  lemma BackFrom(m: Model, rngAdd: seq<bv32>, decl: seq<Decl>, name: Naming)
    requires Readable(m, rngAdd, name) && |decl| == |m.decl| && Unmarked(decl)
    ensures TextsIn(m) && UnitIn1(m.cnd, Ordered(m.cnd))
    ensures var s := TopsOf(m, Ordered(m.cnd)); var back := Back(m, decl, name);
      From(back, TopsLits(s), s, 0, 0, HeaderOf(m, name)) && back.sizeMax == None
  {
    hide TextsIn, Separable, Unmarked, Text, TopsLines, TopsOf, BodyToks, Ordered, TopsConds, TopsLits, ReadBack;
    hide WholeBack, CallsOk;
    hide TopsOk, AllFrom, Ranges, AllFit, From;
    ListedOf(m, rngAdd);
    ReopenBasics(m, rngAdd);
    BodyIs(m, rngAdd);
    var heads, h := Ordered(m.cnd), HeaderOf(m, name);
    var s := TopsOf(m, heads);
    TopsWritten(m, rngAdd, heads);
    Sizes(m, rngAdd);
    TopsFrom(m, heads);
    ReadyOf(m, rngAdd);
    CallsKnown(m, rngAdd, TopsLits(s), name);
    FitsBack(decl, BodyToks(m), h);
    ReadFrom(decl, s, h);
  }

  /** Branch k of the draft that comes back is the k-th that was written: it has its level, and it
      says the same of every object. */
  ghost predicate SameBranches(m: Model, back: Model, o: Obj)
    requires |m.grp| <= 32 && Forest(m.cnd)
  {
    var was, now := Ordered(m.cnd), Heads(back.cnd, -1, 0);
    && |back.grp| <= 32 && Forest(back.cnd) && |now| == |was|
    && forall k :: 0 <= k < |was| ==>
         && was[k] < |m.cnd| && now[k] < |back.cnd| && back.cnd[now[k]].level == EndLevel(m.cnd, was[k])
         && UnitMeaning(back, now[k], o) == UnitMeaning(m, was[k], o)
  }

  lemma BranchesSame(m: Model, rngAdd: seq<bv32>, decl: seq<Decl>, name: Naming, o: Obj)
    requires Readable(m, rngAdd, name) && |decl| == |m.decl| && Unmarked(decl)
    ensures SameBranches(m, Back(m, decl, name), o)
  {
    hide Separable, Unmarked, TopsOf, TextsIn, BodyToks, Ordered, TopsLits, ReadBack, Ranges, AllFit, Apart, Back;
    hide Heads, EndLevel;
    hide TopOf, TopOk, TopLevel, UnitMeaning, TopMeaning, From, FirstOf, TopsMeaning;
    BackFrom(m, rngAdd, decl, name);
    var was, back := Ordered(m.cnd), Back(m, decl, name);
    var s := TopsOf(m, was);
    TopsPlaced(back, TopsLits(s), s, 0, 0, HeaderOf(m, name), o);
    TopsAre(m, was);
    var now := Heads(back.cnd, -1, 0);
    forall k | 0 <= k < |was|
      ensures was[k] < |m.cnd| && now[k] < |back.cnd| && back.cnd[now[k]].level == EndLevel(m.cnd, was[k])
      ensures UnitMeaning(back, now[k], o) == UnitMeaning(m, was[k], o)
    {
      TopMeans(m, rngAdd, was[k], o);
      TopLevelIs(m, was[k]);
    }
  }

  /** It tries its branches in the order they were written if and only if none of them concludes
      stronger than one written before it. */
  lemma SameOrderIff(m: Model, rngAdd: seq<bv32>, decl: seq<Decl>, name: Naming, o: Obj)
    requires Readable(m, rngAdd, name) && |decl| == |m.decl| && Unmarked(decl)
    ensures var back := Back(m, decl, name); Ordered(back.cnd) == Heads(back.cnd, -1, 0) <==> EndsRanked(m.cnd)
  {
    hide Separable, AllFit, Apart, Unmarked, TopsOf, TextsIn, Ordered, TopsLits, Back, Heads, Placed, Ranked;
    hide EndsRanked, From, UnitIn1;
    BackFrom(m, rngAdd, decl, name);
    var s, back := TopsOf(m, Ordered(m.cnd)), Back(m, decl, name);
    TopsPlaced(back, TopsLits(s), s, 0, 0, HeaderOf(m, name), o);
    RankedOrdered(back, s, o);
    RankedIs(m);
  }

  /** Generate a draft, open what was written, and the draft that comes back says of every object
      exactly what the first one said. */
  lemma GenerateThenOpen(m: Model, rngAdd: seq<bv32>, decl: seq<Decl>, name: Naming, o: Obj)
    requires Readable(m, rngAdd, name) && EndsRanked(m.cnd) && |decl| == |m.decl| && Unmarked(decl)
    ensures var back := Back(m, decl, name);
      |back.grp| <= 32 && Forest(back.cnd) && Meaning(back, o) == Meaning(m, o)
  {
    hide Separable, Unmarked, TopsOf, TextsIn, BodyToks, Ordered, TopsLits, ReadBack, Ranges, AllFit, Apart, Back;
    hide Heads, EndsRanked;
    hide TopOf, TopOk, TopLevel, UnitMeaning, TopMeaning, From, FirstOf, TopsMeaning;
    BackFrom(m, rngAdd, decl, name);
    ReadyOf(m, rngAdd);
    SameOrderIff(m, rngAdd, decl, name, o);
    var heads := Ordered(m.cnd);
    var s, back := TopsOf(m, heads), Back(m, decl, name);
    TopsRead(back, TopsLits(s), s, 0, 0, HeaderOf(m, name), o);
    TopsMeans(m, rngAdd, heads, o);
  }

  // ---- when the order is lost ---------------------------------------------------------------

  /** With the levels branches end at for their own, k is tried before j. */
  predicate Overtakes(cnd: seq<Cond>, heads: seq<nat>, k: nat, j: nat)
    requires k < |heads| && j < |heads| && heads[k] < |cnd| && heads[j] < |cnd|
  {
    var rk, rj := Rank(EndLevel(cnd, heads[k])), Rank(EndLevel(cnd, heads[j]));
    rk < rj || (rk == rj && k < j)
  }

  /** Branch i concludes, no branch written before it does. */
  ghost predicate SpeaksFirst(m: Model, i: nat, o: Obj)
    requires |m.grp| <= 32 && Forest(m.cnd)
  {
    var heads := Ordered(m.cnd);
    && i < |heads| && heads[i] < |m.cnd| && !UnitMeaning(m, heads[i], o).Fell?
    && forall k :: 0 <= k < i ==> heads[k] < |m.cnd| && UnitMeaning(m, heads[k], o).Fell?
  }

  /** Branch j concludes, and none that overtakes it does. */
  ghost predicate SpeaksAfter(m: Model, j: nat, o: Obj)
    requires |m.grp| <= 32 && Forest(m.cnd)
  {
    var heads := Ordered(m.cnd);
    && j < |heads| && UnitIn1(m.cnd, heads) && !UnitMeaning(m, heads[j], o).Fell?
    && forall k :: 0 <= k < |heads| && k != j && Overtakes(m.cnd, heads, k, j) ==> UnitMeaning(m, heads[k], o).Fell?
  }

  /** The first of two branches speaks for the draft that was written, and for the one that comes
      back the second: if it concludes stronger than the first, and no third comes before. */
  lemma OrderLost(m: Model, rngAdd: seq<bv32>, decl: seq<Decl>, name: Naming, i: nat, j: nat, o: Obj)
    requires Readable(m, rngAdd, name) && |decl| == |m.decl| && Unmarked(decl)
    requires SpeaksFirst(m, i, o) && SpeaksAfter(m, j, o)
    ensures Meaning(m, o) == UnitMeaning(m, Ordered(m.cnd)[i], o)
    ensures var back := Back(m, decl, name);
      |back.grp| <= 32 && Forest(back.cnd) && Meaning(back, o) == UnitMeaning(m, Ordered(m.cnd)[j], o)
  {
    hide Separable, Unmarked, TextsIn, BodyToks, ReadBack, Ranges, AllFit, Apart, Back, Heads, ByLevel, UnitMeaning;
    hide From, FirstOf, TopsOf;
    BackFrom(m, rngAdd, decl, name);
    ReadyOf(m, rngAdd);
    BranchesSame(m, rngAdd, decl, name, o);
    hide Ordered;
    Verdicts.FirstWins(m, Ordered(m.cnd), i, o);
    BackSpeaks(m, Back(m, decl, name), j, o);
  }

  lemma BackSpeaks(m: Model, back: Model, j: nat, o: Obj)
    requires |m.grp| <= 32 && Forest(m.cnd) && SameBranches(m, back, o) && SpeaksAfter(m, j, o)
    ensures FirstOf(back, Ordered(back.cnd), 0, o) == UnitMeaning(m, Ordered(m.cnd)[j], o)
  {
    hide Ordered, UnitMeaning, Heads, FirstOf, EndLevel;
    var was, now := Ordered(m.cnd), Heads(back.cnd, -1, 0);
    Verdicts.HeadsIncrease(back.cnd, -1, 0);
    assert now[j] in now;
    forall h | h in now && h < |back.cnd| && !UnitMeaning(back, h, o).Fell?
      ensures h == now[j] || Verdicts.Before(back.cnd, now[j], h)
    {
      var k: nat :| k < |now| && now[k] == h;
      assert k != j ==> !Overtakes(m.cnd, was, k, j);
    }
    assert Verdicts.Strongest(back, now[j], o);
    Verdicts.StrongestSpeaks(back, o);
  }
}
