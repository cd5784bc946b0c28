/** Which verdict a draft concludes, and what goes wrong when a run begins with a weak one. */
module Verdicts {
  import opened TargetC
  import opened DraftModel
  import opened ExprSource
  import opened Matchers
  import opened ExprMeaning
  import opened Conditions
  import opened BranchTokens
  import opened BranchMeaning
  import opened Order
  import opened Visits
  import opened Generate

  predicate Increasing(s: seq<nat>) { forall i, j :: 0 <= i < j < |s| ==> s[i] < s[j] }

  lemma {:induction false} HeadsIncrease(cnd: seq<Cond>, p: int, k: nat)
    requires k <= |cnd|
    ensures Increasing(Heads(cnd, p, k))
    decreases |cnd| - k
  {
    hide Members, RunEnd, Heads;
    if k == |cnd| {
      HeadsEnd(cnd, p);
    } else {
      HeadsStep(cnd, p, k);
      HeadsIncrease(cnd, p, if cnd[k].parent == p then RunEnd(cnd, k) + 1 else k + 1);
    }
  }

  lemma HeadsEnd(cnd: seq<Cond>, p: int)
    ensures Heads(cnd, p, |cnd|) == []
  {
  }

  /** a is tried before b: a stronger level, or the same and built earlier. */
  predicate Before(cnd: seq<Cond>, a: nat, b: nat)
    requires a < |cnd| && b < |cnd|
  {
    var ra, rb := Rank(cnd[a].level), Rank(cnd[b].level);
    ra < rb || (ra == rb && a < b)
  }

  lemma {:induction false} LevelIncreases(cnd: seq<Cond>, heads: seq<nat>, lvl: Level)
    requires Increasing(heads) && forall i :: 0 <= i < |heads| ==> heads[i] < |cnd|
    ensures Increasing(ByLevel(cnd, heads, lvl))
    ensures forall h :: h in heads && cnd[h].level == lvl ==> h in ByLevel(cnd, heads, lvl)
    decreases |heads|
  {
    if heads != [] {
      LevelIncreases(cnd, heads[1..], lvl);
      var rest := ByLevel(cnd, heads[1..], lvl);
      forall i | 0 <= i < |rest|
        ensures heads[0] < rest[i]
      {
        assert rest[i] in heads[1..];
      }
    }
  }

  /** The order branches are tried in is strictly increasing, and leaves none out. */
  lemma OrderedSorted(cnd: seq<Cond>)
    ensures forall i, j :: 0 <= i < j < |Ordered(cnd)| ==> Before(cnd, Ordered(cnd)[i], Ordered(cnd)[j])
    ensures forall h :: h in Ordered(cnd) <==> h in Heads(cnd, -1, 0)
  {
    hide Heads, ByLevel;
    var heads := Heads(cnd, -1, 0);
    HeadsIncrease(cnd, -1, 0);
    LevelIncreases(cnd, heads, Infect);
    LevelIncreases(cnd, heads, Suspect);
    LevelIncreases(cnd, heads, NoVerdict);
    forall h | h in heads
      ensures h in Ordered(cnd)
    {
      var lvl := cnd[h].level;
      assert h in ByLevel(cnd, heads, lvl);
    }
  }

  lemma {:induction false} FirstWins(m: Model, s: seq<nat>, i: nat, o: Obj)
    requires |m.grp| <= 32 && Forest(m.cnd) && HeadsIn(m.cnd, s, 0) && i <= |s|
    requires forall j :: 0 <= j < i ==> UnitMeaning(m, s[j], o).Fell?
    requires i < |s| ==> !UnitMeaning(m, s[i], o).Fell?
    ensures FirstOf(m, s, 0, o) == if i < |s| then UnitMeaning(m, s[i], o) else Fell
    decreases |s|
  {
    hide UnitMeaning;
    if i > 0 { FirstWins(m, s[1..], i - 1, o); }
  }

  /** Branch b concludes, and no branch tried before it does. */
  ghost predicate Strongest(m: Model, b: nat, o: Obj)
    requires |m.grp| <= 32 && Forest(m.cnd)
  {
    && b in Heads(m.cnd, -1, 0) && b < |m.cnd| && !UnitMeaning(m, b, o).Fell?
    && forall h :: h in Heads(m.cnd, -1, 0) && h < |m.cnd| && !UnitMeaning(m, h, o).Fell? ==>
         h == b || Before(m.cnd, b, h)
  }

  /** The strongest branch that concludes is the one that speaks - the earliest of equals -
      whatever order they were written in; and silence means that none does. */
  lemma StrongestSpeaks(m: Model, o: Obj)
    requires |m.grp| <= 32 && Forest(m.cnd)
    ensures HeadsIn(m.cnd, Ordered(m.cnd), 0)
    ensures forall b :: Strongest(m, b, o) ==> FirstOf(m, Ordered(m.cnd), 0, o) == UnitMeaning(m, b, o)
    ensures FirstOf(m, Ordered(m.cnd), 0, o).Fell? <==>
      forall h :: h in Heads(m.cnd, -1, 0) && h < |m.cnd| ==> UnitMeaning(m, h, o).Fell?
  {
    hide UnitMeaning, Heads, Ordered, FirstOf;
    var s := Ordered(m.cnd);
    OrderedSorted(m.cnd);
    if exists i :: 0 <= i < |s| && !UnitMeaning(m, s[i], o).Fell? {
      var i := FirstFiring(m, s, o);
      FirstWins(m, s, i, o);
      assert s[i] in s;
      forall b | Strongest(m, b, o)
        ensures b == s[i]
      {
        assert b in s;
        var x :| 0 <= x < |s| && s[x] == b;
      }
    } else {
      FirstWins(m, s, |s|, o);
      forall h | h in s
        ensures UnitMeaning(m, h, o).Fell?
      {
        var x :| 0 <= x < |s| && s[x] == h;
      }
    }
  }

  lemma {:induction false} FirstFiring(m: Model, s: seq<nat>, o: Obj) returns (i: nat)
    requires |m.grp| <= 32 && Forest(m.cnd) && HeadsIn(m.cnd, s, 0)
    requires exists i :: 0 <= i < |s| && !UnitMeaning(m, s[i], o).Fell?
    ensures i < |s| && !UnitMeaning(m, s[i], o).Fell?
    ensures forall j :: 0 <= j < i ==> UnitMeaning(m, s[j], o).Fell?
  {
    hide UnitMeaning;
    i := 0;
    while UnitMeaning(m, s[i], o).Fell?
      invariant 0 <= i < |s|
      invariant forall j :: 0 <= j < i ==> UnitMeaning(m, s[j], o).Fell?
      decreases |s| - i
    {
      i := i + 1;
    }
  }

  // ---- separate leaves ---------------------------------------------------------------------

  /** Every condition is a leaf of its own at the top level. */
  ghost predicate Flat(cnd: seq<Cond>) {
    forall k :: 0 <= k < |cnd| ==> cnd[k].parent == -1 && cnd[k].join == JoinOr
  }

  lemma {:induction false} FlatHeads(cnd: seq<Cond>, k: nat)
    requires Flat(cnd) && k <= |cnd|
    ensures forall h: nat :: h in Heads(cnd, -1, k) <==> k <= h < |cnd|
    ensures forall h: nat :: h < |cnd| ==> Members(cnd, h) == [h]
    decreases |cnd| - k
  {
    if k < |cnd| { FlatHeads(cnd, k + 1); }
  }

  /** Of the leaves that hold, the generated body concludes the least level, and the earliest
      of those; a leaf that reports nothing is reached only when nothing that reports holds. */
  lemma StrongestLeafWins(m: Model, o: Obj, b: nat)
    requires Bounded(m) && TextsOk(m) && Flat(m.cnd) && m.sizeMax.None?
    requires b < |m.cnd| && TextHolds(m, m.cnd[b].expr, o)
    requires forall k :: 0 <= k < |m.cnd| && k != b && TextHolds(m, m.cnd[k].expr, o) ==> Before(m.cnd, b, k)
    ensures Exec(BodyStmts(m), o, map[]) == Conclude(m.cnd[b])
  {
    hide BodyStmts, Heads, Members, HasKids, TextHolds, FirstOf, Ordered, BodyToks, PStmts, UnitMeaning, Strongest;
    hide TextsOk;
    FlatHeads(m.cnd, 0);
    FlatForest(m.cnd);
    CompilationPreservesMeaning(m, o);
    FlatStrongest(m, o, b);
    StrongestSpeaks(m, o);
  }

  lemma FlatForest(cnd: seq<Cond>)
    requires Flat(cnd)
    ensures Forest(cnd) && HeadsStrongest(cnd)
  {
    hide Heads, Members;
    FlatHeads(cnd, 0);
  }

  lemma FlatStrongest(m: Model, o: Obj, b: nat)
    requires |m.grp| <= 32 && Flat(m.cnd) && Forest(m.cnd) && b < |m.cnd| && TextHolds(m, m.cnd[b].expr, o)
    requires forall k :: 0 <= k < |m.cnd| && k != b && TextHolds(m, m.cnd[k].expr, o) ==> Before(m.cnd, b, k)
    ensures Strongest(m, b, o) && UnitMeaning(m, b, o) == Conclude(m.cnd[b])
  {
    hide Heads, Members, HasKids, TextHolds, FirstOf, RunHolds;
    FlatHeads(m.cnd, 0);
    forall k: nat | k < |m.cnd|
      ensures UnitMeaning(m, k, o) == if TextHolds(m, m.cnd[k].expr, o) then Conclude(m.cnd[k]) else Fell
    {
      NoKids(m.cnd, k);
    }
  }

  lemma NoKids(cnd: seq<Cond>, k: nat)
    requires Flat(cnd)
    ensures !HasKids(cnd, k)
  {
  }

  // ---- any run that begins with a weak verdict ----------------------------------------------

  /** Whatever a pass marks off at the top it has written, from the head of a branch it wrote. */
  lemma {:induction false} MarkedBy(cnd: seq<Cond>, lvl: Level, k: nat, done: set<nat>, x: nat) returns (y: nat)
    requires Forest(cnd) && k <= |cnd| && x < |cnd| && cnd[x].parent == -1
    requires x in Pass(cnd, lvl, k, done).1 && x !in done
    ensures y in Pass(cnd, lvl, k, done).0 && y < |cnd| && y <= x <= RunEnd(cnd, y) && cnd[y].parent == -1
      && cnd[y].level == lvl
    decreases |cnd| - k
  {
    hide Members, RunEnd, Pass;
    if k == |cnd| {
      PassEnd(cnd, lvl, done);
      assert false;
    } else {
      PassStep(cnd, lvl, k, done);
      if cnd[k].parent >= 0 || k in done || cnd[k].level != lvl {
        y := MarkedBy(cnd, lvl, k + 1, done, x);
      } else if k <= x <= RunEnd(cnd, k) {
        y := k;
      } else {
        y := MarkedBy(cnd, lvl, RunEnd(cnd, k) + 1, done + Span(k, RunEnd(cnd, k)), x);
      }
    }
  }

  lemma InsideRun(cnd: seq<Cond>, h: nat, x: nat, y: nat)
    requires Forest(cnd) && h in Heads(cnd, -1, 0) && h < |cnd| && x in Members(cnd, h) && x < |cnd|
    requires y <= x <= RunEnd(cnd, y) && y < |cnd| && cnd[y].parent == -1 && cnd[y].level != cnd[h].level
    ensures y in Members(cnd, h) && y != h
  {
    hide Members, RunEnd, Heads;
    InRun(cnd, h, x);
    HeadTop(cnd, h);
    if y < h { HeadUncovered(cnd, -1, 0, h, y); }
    InRun(cnd, h, y);
  }

  /** Where a run has a member stronger than its head, one of its members is written as the head of
      a branch of its own. */
  lemma TailWritten(cnd: seq<Cond>, h: nat, x: nat) returns (y: nat)
    requires Forest(cnd) && h in Heads(cnd, -1, 0) && h < |cnd| && x in Members(cnd, h) && x < |cnd|
    requires Rank(cnd[x].level) < Rank(cnd[h].level)
    ensures y in Written(cnd) && y in Members(cnd, h) && y != h
  {
    hide Members, RunEnd, Heads, Pass;
    HeadTop(cnd, h);
    InRun(cnd, h, x);
    var p0 := Pass(cnd, Infect, 0, {});
    if cnd[x].level == Infect { PassCovers(cnd, Infect, 0, {}, x); } else { PassCovers(cnd, Suspect, 0, p0.1, x); }
    if x in p0.1 { y := MarkedBy(cnd, Infect, 0, {}, x); } else { y := MarkedBy(cnd, Suspect, 0, p0.1, x); }
    InsideRun(cnd, h, x, y);
  }

  lemma RunConcludes(m: Model, y: nat, o: Obj)
    requires |m.grp| <= 32 && Forest(m.cnd) && y < |m.cnd| && !HasKids(m.cnd, y)
    requires forall z :: z in Members(m.cnd, y) && z < |m.cnd| ==> TextHolds(m, m.cnd[z].expr, o)
    ensures UnitMeaning(m, y, o) == Conclude(m.cnd[RunEnd(m.cnd, y)])
  {
    hide TextHolds, HasKids;
    var u := Members(m.cnd, y);
    forall x | 0 <= x < |u|
      ensures u[x] < |m.cnd| && TextHolds(m, m.cnd[u[x]].expr, o)
    {
      assert u[x] in u;
    }
  }

  lemma RunFalls(m: Model, h: nat, o: Obj)
    requires |m.grp| <= 32 && Forest(m.cnd) && h < |m.cnd| && !TextHolds(m, m.cnd[h].expr, o)
    ensures UnitMeaning(m, h, o).Fell?
  {
    hide TextHolds, HasKids;
    assert Members(m.cnd, h)[0] == h;
  }

  /** The body concludes what such a run concludes although the run's head does not hold - on every
      object where the run holds from that member on and no branch written earlier concludes. When
      no branch of the draft concludes there, the draft says nothing. */
  lemma WeakRunMisreports(m: Model, h: nat, i: nat, o: Obj)
    requires Bounded(m) && Forest(m.cnd) && TextsOk(m) && m.sizeMax.None?
    requires h in Heads(m.cnd, -1, 0) && h < |m.cnd| && i < |Written(m.cnd)|
    requires var y := Written(m.cnd)[i]; y < |m.cnd| && y in Members(m.cnd, h) && y != h
    requires !TextHolds(m, m.cnd[h].expr, o)
    requires forall z :: z in Members(m.cnd, Written(m.cnd)[i]) && z < |m.cnd| ==> TextHolds(m, m.cnd[z].expr, o)
    requires forall k :: 0 <= k < i ==> Written(m.cnd)[k] < |m.cnd| && UnitMeaning(m, Written(m.cnd)[k], o).Fell?
    ensures UnitMeaning(m, h, o).Fell?
    ensures Exec(BodyStmts(m), o, map[]) == Conclude(m.cnd[RunEnd(m.cnd, h)])
    ensures (forall b :: b in Heads(m.cnd, -1, 0) && b < |m.cnd| ==> UnitMeaning(m, b, o).Fell?) ==> Meaning(m, o).Fell?
  {
    hide BodyStmts, Members, RunEnd, Heads, Written, Ordered, TextHolds, UnitMeaning, HasKids, FirstOf, TextsOk;
    hide Strongest;
    var y := Written(m.cnd)[i];
    MemberPlain(m.cnd, h, y);
    TailRun(m.cnd, h, y);
    RunFalls(m, h, o);
    RunConcludes(m, y, o);
    BodyRuns(m, o);
    FirstWins(m, Written(m.cnd), i, o);
    StrongestSpeaks(m, o);
  }

  lemma MemberPlain(cnd: seq<Cond>, h: nat, y: nat)
    requires h < |cnd| && y in Members(cnd, h) && y != h
    ensures y < |cnd| && !HasKids(cnd, y)
  {
    var u := Members(cnd, h);
    var x: nat :| x < |u| && u[x] == y;
    assert u[0] == h;
    assert Linkable(cnd, u[x]);
  }

  // ---- a run that begins with a weak verdict ------------------------------------------------

  /** Two conditions joined by "and", the second concluding more strongly than the first. */
  ghost predicate WeakPair(cnd: seq<Cond>) {
    && |cnd| == 2 && cnd[0].parent == -1 && cnd[1].parent == -1
    && cnd[0].join == JoinAnd && cnd[0].expr != "" && cnd[1].expr != ""
    && Rank(cnd[1].level) < Rank(cnd[0].level)
  }

  lemma WeakPairMembers(cnd: seq<Cond>)
    requires WeakPair(cnd)
    ensures Members(cnd, 0) == [0, 1] && Members(cnd, 1) == [1]
    ensures RunEnd(cnd, 0) == 1 && RunEnd(cnd, 1) == 1
    ensures Heads(cnd, -1, 0) == [0]
  {
    assert !HasKids(cnd, 0) && !HasKids(cnd, 1);
    assert SibFrom(cnd, -1, 1) == 1 && SibFrom(cnd, -1, 2) == 2;
    assert Linked(cnd, 0) && !Linked(cnd, 1);
    assert Members(cnd, 0) == [0] + Members(cnd, 1);
    assert Heads(cnd, -1, 2) == [];
    assert Heads(cnd, -1, 0) == [0] + Heads(cnd, -1, 2);
  }

  lemma WeakPairPass(cnd: seq<Cond>, lvl: Level, done: set<nat>)
    requires WeakPair(cnd) && (done == {} || done == {1})
    ensures cnd[0].level == lvl ==> Pass(cnd, lvl, 0, done) == ([0], done + Span(0, 1))
    ensures cnd[1].level == lvl && done == {} ==> Pass(cnd, lvl, 0, done) == ([1], {1})
    ensures cnd[0].level != lvl && cnd[1].level != lvl ==> Pass(cnd, lvl, 0, done) == ([], done)
  {
    hide Members, RunEnd, Pass;
    WeakPairMembers(cnd);
    PassStep(cnd, lvl, 0, done);
    PassEnd(cnd, lvl, done);
    PassEnd(cnd, lvl, done + Span(0, 1));
    PassEnd(cnd, lvl, done + Span(1, 1));
    if cnd[0].level != lvl {
      PassStep(cnd, lvl, 1, done);
      assert {} + Span(1, 1) == {1};
      assert [1] + [] == [1];
    } else {
      assert [0] + [] == [0];
    }
  }

  lemma PassAll(cnd: seq<Cond>, lvl: Level, k: nat, done: set<nat>)
    requires k <= |cnd| && forall j: nat :: k <= j < |cnd| ==> j in done
    ensures Pass(cnd, lvl, k, done) == ([], done)
    decreases |cnd| - k
  {
    if k < |cnd| { PassAll(cnd, lvl, k + 1, done); }
  }

  lemma OneHead(cnd: seq<Cond>, h: nat)
    requires Heads(cnd, -1, 0) == [h] && h < |cnd|
    ensures Ordered(cnd) == [h]
  {
    hide Heads;
    assert [h][1..] == [];
    forall l: Level
      ensures ByLevel(cnd, [h], l) == if cnd[h].level == l then [h] else []
    {
      assert ByLevel(cnd, [], l) == [];
    }
  }

  lemma WeakPairWritten(cnd: seq<Cond>)
    requires WeakPair(cnd)
    ensures Written(cnd) == [1, 0] && Ordered(cnd) == [0]
  {
    hide Members, RunEnd, Pass, Heads, Ordered;
    WeakPairMembers(cnd);
    OneHead(cnd, 0);
    WeakPairPass(cnd, Infect, {});
    if cnd[1].level == Infect {
      assert Pass(cnd, Infect, 0, {}) == ([1], {1});
      WeakPairPass(cnd, Suspect, {1});
      if cnd[0].level == Suspect {
        PassAll(cnd, NoVerdict, 0, {1} + Span(0, 1));
        assert [1] + [0] + [] == [1, 0];
      } else {
        WeakPairPass(cnd, NoVerdict, {1});
        assert [1] + [] + [0] == [1, 0];
      }
    } else {
      WeakPairPass(cnd, Suspect, {});
      WeakPairPass(cnd, NoVerdict, {1});
      assert [] + [1] + [0] == [1, 0];
    }
  }

  /** The body then tries the second test alone before the pair: it says what the draft means
      exactly on the objects where the second does not hold without the first. */
  lemma WeakPairMisreports(m: Model, o: Obj)
    requires Bounded(m) && TextsOk(m) && WeakPair(m.cnd) && m.sizeMax.None?
    ensures Exec(BodyStmts(m), o, map[]) == Meaning(m, o)
       <==> !(TextHolds(m, m.cnd[1].expr, o) && !TextHolds(m, m.cnd[0].expr, o))
  {
    hide BodyStmts, Members, RunEnd, Heads, Written, Ordered, TextHolds;
    WeakPairMembers(m.cnd);
    WeakPairWritten(m.cnd);
    BodyRuns(m, o);
    NoKidsOfPair(m.cnd);
    hide HasKids;
    var a, b := TextHolds(m, m.cnd[0].expr, o), TextHolds(m, m.cnd[1].expr, o);
    assert RunHolds(m, [0, 1], o) <==> a && b by {
      assert [0, 1][0] == 0 && [0, 1][1] == 1;
    }
    assert [1, 0][1..] == [0] && [0][1..] == [];
    assert FirstOf(m, [], 0, o) == Fell;
    assert UnitMeaning(m, 1, o) == if b then Conclude(m.cnd[1]) else Fell;
    assert UnitMeaning(m, 0, o) == if a && b then Conclude(m.cnd[1]) else Fell;
  }

  lemma NoKidsOfPair(cnd: seq<Cond>)
    requires WeakPair(cnd)
    ensures Forest(cnd) && !HasKids(cnd, 0) && !HasKids(cnd, 1)
  {
  }
}
