/** Which conditions a generated body writes, and how often. */
module Visits {
  import opened TargetC
  import opened DraftModel
  import opened Conditions
  import opened Order

  /** The conditions whose text is written for one branch, in order. */
  function UnitVisit(cnd: seq<Cond>, h: nat): seq<nat>
    requires Forest(cnd) && h < |cnd|
    decreases |cnd| - h, 0, 0
  {
    if |Members(cnd, h)| > 1 then Members(cnd, h)
    else
      KidsAbove(cnd, h);
      [h] + UnitsVisit(cnd, Heads(cnd, h, 0), h + 1)
  }

  function UnitsVisit(cnd: seq<Cond>, heads: seq<nat>, lo: nat): seq<nat>
    requires Forest(cnd) && lo <= |cnd| && HeadsIn(cnd, heads, lo)
    decreases |cnd| - lo, 1, |heads|
  {
    if heads == [] then [] else UnitVisit(cnd, heads[0]) + UnitsVisit(cnd, heads[1..], lo)
  }

  function Times(s: seq<nat>, j: nat): nat { multiset(s)[j] }

  // ---- ancestors --------------------------------------------------------------------------

  /** The ancestor of j (or j) that sits directly under p. */
  function Under(cnd: seq<Cond>, p: int, j: nat): (r: Option<nat>)
    requires Forest(cnd) && j < |cnd|
    ensures r.Some? ==> p < r.value <= j && cnd[r.value].parent == p
    decreases j
  {
    if cnd[j].parent == p then Some(j)
    else if cnd[j].parent < 0 then None
    else Under(cnd, p, cnd[j].parent)
  }

  lemma {:induction false} UnderStep(cnd: seq<Cond>, p: int, k: nat, j: nat)
    requires Forest(cnd) && j < |cnd| && k < |cnd| && cnd[k].parent == p
    ensures Under(cnd, p, j) == Some(k) <==> j == k || Under(cnd, k, j).Some?
    decreases j
  {
    if cnd[j].parent != p && cnd[j].parent >= 0 { UnderStep(cnd, p, k, cnd[j].parent); }
  }

  lemma {:induction false} UnderTop(cnd: seq<Cond>, j: nat)
    requires Forest(cnd) && j < |cnd|
    ensures Under(cnd, -1, j).Some?
    decreases j
  {
    if cnd[j].parent >= 0 { UnderTop(cnd, cnd[j].parent); }
  }

  lemma NotUnderSelf(cnd: seq<Cond>, k: nat)
    requires Forest(cnd) && k < |cnd|
    ensures Under(cnd, k, k).None?
  {
  }

  // ---- every condition is written once under its parent -----------------------------------

  lemma TimesAppend(s: seq<nat>, t: seq<nat>, j: nat)
    ensures Times(s + t, j) == Times(s, j) + Times(t, j)
  {
  }

  lemma {:induction false} TimesIncreasing(s: seq<nat>, j: nat)
    requires forall x, y :: 0 <= x < y < |s| ==> s[x] < s[y]
    ensures Times(s, j) == if j in s then 1 else 0
    decreases |s|
  {
    if s != [] {
      assert s == [s[0]] + s[1..];
      TimesIncreasing(s[1..], j);
    }
  }

  /** A conjoined run covers exactly the conditions under it. */
  lemma RunCovers(cnd: seq<Cond>, p: int, k: nat, j: nat)
    requires Forest(cnd) && k < |cnd| && cnd[k].parent == p && j < |cnd| && |Members(cnd, k)| > 1
    ensures Times(Members(cnd, k), j)
         == if Under(cnd, p, j).Some? && k <= Under(cnd, p, j).value <= RunEnd(cnd, k) then 1 else 0
  {
    MembersIncrease(cnd, k);
    TimesIncreasing(Members(cnd, k), j);
    InRun(cnd, k, j);
    var c := Under(cnd, p, j);
    if c.Some? && k <= c.value <= RunEnd(cnd, k) {
      InRun(cnd, k, c.value);
      LeafUnder(cnd, p, k, c.value, j);
    }
  }

  /** A run's member has nothing inside it. */
  lemma LeafUnder(cnd: seq<Cond>, p: int, k: nat, c: nat, j: nat)
    requires Forest(cnd) && k < |cnd| && c in Members(cnd, k) && |Members(cnd, k)| > 1
    requires c < |cnd| && cnd[c].parent == p && j < |cnd| && Under(cnd, p, j) == Some(c)
    ensures j == c
  {
    UnderStep(cnd, p, c, j);
    if j != c {
      var kid := Under(cnd, c, j).value;
      assert HasKids(cnd, c);
    }
  }

  lemma {:induction false} VisitedOnce(cnd: seq<Cond>, p: int, k: nat, lo: nat, j: nat)
    requires Forest(cnd) && k <= |cnd| && -1 <= p < lo <= |cnd| && j < |cnd|
    requires HeadsIn(cnd, Heads(cnd, p, k), lo)
    ensures Times(UnitsVisit(cnd, Heads(cnd, p, k), lo), j)
         == if Under(cnd, p, j).Some? && Under(cnd, p, j).value >= k then 1 else 0
    decreases |cnd| - p, |cnd| - k
  {
    hide Members, HasKids, RunEnd, Under, Times;
    if k < |cnd| {
      HeadsStep(cnd, p, k);
      if cnd[k].parent != p {
        VisitedOnce(cnd, p, k + 1, lo, j);
      } else {
        var last := RunEnd(cnd, k);
        var rest := Heads(cnd, p, last + 1);
        assert Heads(cnd, p, k)[0] == k && Heads(cnd, p, k)[1..] == rest;
        assert HeadsIn(cnd, rest, lo) by {
          assert forall i :: 0 <= i < |rest| ==> rest[i] == Heads(cnd, p, k)[i + 1];
        }
        VisitedOnce(cnd, p, last + 1, lo, j);
        TimesAppend(UnitVisit(cnd, k), UnitsVisit(cnd, rest, lo), j);
        VisitedUnit(cnd, p, k, j);
      }
    } else {
      assert Heads(cnd, p, k) == [];
      TimesEmpty(j);
    }
  }

  lemma TimesOne(k: nat, j: nat)
    ensures Times([k], j) == if j == k then 1 else 0
  {
  }

  lemma TimesEmpty(j: nat)
    ensures Times([], j) == 0
  {
  }

  lemma {:induction false} VisitedUnit(cnd: seq<Cond>, p: int, k: nat, j: nat)
    requires Forest(cnd) && k < |cnd| && -1 <= p && cnd[k].parent == p && j < |cnd|
    ensures Times(UnitVisit(cnd, k), j)
         == if Under(cnd, p, j).Some? && k <= Under(cnd, p, j).value <= RunEnd(cnd, k) then 1 else 0
    decreases |cnd| - p, 0, 0
  {
    hide Members, HasKids, Under, UnitsVisit, Times, Heads;
    if |Members(cnd, k)| > 1 {
      RunCovers(cnd, p, k, j);
    } else {
      KidsAbove(cnd, k);
      VisitedOnce(cnd, k, 0, k + 1, j);
      TimesAppend([k], UnitsVisit(cnd, Heads(cnd, k, 0), k + 1), j);
      TimesOne(k, j);
      UnderStep(cnd, p, k, j);
      NotUnderSelf(cnd, k);
    }
  }

  // ---- once in the whole body, exactly when every run begins with its strongest -----------

  lemma {:induction false} VisitAppend(cnd: seq<Cond>, a: seq<nat>, b: seq<nat>)
    requires Forest(cnd) && HeadsIn(cnd, a, 0) && HeadsIn(cnd, b, 0)
    ensures HeadsIn(cnd, a + b, 0)
    ensures UnitsVisit(cnd, a + b, 0) == UnitsVisit(cnd, a, 0) + UnitsVisit(cnd, b, 0)
    decreases |a|
  {
    hide UnitVisit;
    if a == [] {
      assert a + b == b;
    } else {
      assert (a + b)[1..] == a[1..] + b;
      VisitAppend(cnd, a[1..], b);
    }
  }

  lemma {:induction false} LevelsSplit(cnd: seq<Cond>, heads: seq<nat>, j: nat)
    requires Forest(cnd) && HeadsIn(cnd, heads, 0)
    ensures Times(UnitsVisit(cnd, heads, 0), j)
         == Times(UnitsVisit(cnd, ByLevel(cnd, heads, Infect), 0), j)
          + Times(UnitsVisit(cnd, ByLevel(cnd, heads, Suspect), 0), j)
          + Times(UnitsVisit(cnd, ByLevel(cnd, heads, NoVerdict), 0), j)
    decreases |heads|
  {
    hide Times, UnitVisit;
    if heads == [] {
      TimesEmpty(j);
    } else {
      LevelsSplit(cnd, heads[1..], j);
      TimesAppend(UnitVisit(cnd, heads[0]), UnitsVisit(cnd, heads[1..], 0), j);
      LevelCons(cnd, heads, Infect, j);
      LevelCons(cnd, heads, Suspect, j);
      LevelCons(cnd, heads, NoVerdict, j);
    }
  }

  lemma LevelCons(cnd: seq<Cond>, heads: seq<nat>, lvl: Level, j: nat)
    requires Forest(cnd) && HeadsIn(cnd, heads, 0) && heads != []
    ensures Times(UnitsVisit(cnd, ByLevel(cnd, heads, lvl), 0), j)
         == Times(UnitsVisit(cnd, ByLevel(cnd, heads[1..], lvl), 0), j)
          + if cnd[heads[0]].level == lvl then Times(UnitVisit(cnd, heads[0]), j) else 0
  {
    hide Times, UnitVisit;
    var rest := ByLevel(cnd, heads[1..], lvl);
    if cnd[heads[0]].level == lvl {
      assert ByLevel(cnd, heads, lvl) == [heads[0]] + rest;
      assert ([heads[0]] + rest)[1..] == rest;
      TimesAppend(UnitVisit(cnd, heads[0]), UnitsVisit(cnd, rest, 0), j);
    } else {
      assert ByLevel(cnd, heads, lvl) == [] + rest == rest;
    }
  }

  lemma OrderedOnce(cnd: seq<Cond>, j: nat)
    requires Forest(cnd) && j < |cnd|
    ensures Times(UnitsVisit(cnd, Ordered(cnd), 0), j) == 1
  {
    hide UnitVisit, UnitsVisit, Times, Under;
    var heads := Heads(cnd, -1, 0);
    var a, b, c := ByLevel(cnd, heads, Infect), ByLevel(cnd, heads, Suspect), ByLevel(cnd, heads, NoVerdict);
    VisitedOnce(cnd, -1, 0, 0, j);
    UnderTop(cnd, j);
    LevelsSplit(cnd, heads, j);
    VisitAppend(cnd, a, b);
    VisitAppend(cnd, a + b, c);
    TimesAppend(UnitsVisit(cnd, a, 0), UnitsVisit(cnd, b, 0), j);
    TimesAppend(UnitsVisit(cnd, a + b, 0), UnitsVisit(cnd, c, 0), j);
  }

  // ---- and otherwise a member is written twice ---------------------------------------------

  lemma MemberVisited(cnd: seq<Cond>, h: nat, x: nat)
    requires Forest(cnd) && h < |cnd| && x in Members(cnd, h)
    ensures x in UnitVisit(cnd, h)
  {
  }

  lemma {:induction false} HeadVisited(cnd: seq<Cond>, heads: seq<nat>, h: nat, x: nat)
    requires Forest(cnd) && HeadsIn(cnd, heads, 0) && h in heads && x in Members(cnd, h)
    ensures x in UnitsVisit(cnd, heads, 0)
    decreases |heads|
  {
    hide Members, UnitVisit;
    if heads[0] == h { MemberVisited(cnd, h, x); } else { HeadVisited(cnd, heads[1..], h, x); }
  }

  /** Whatever a pass marks off among the top-level conditions, it writes. */
  lemma {:induction false} MarkedVisited(cnd: seq<Cond>, lvl: Level, k: nat, done: set<nat>, x: nat)
    requires Forest(cnd) && k <= |cnd| && x < |cnd| && cnd[x].parent == -1
    requires x in Pass(cnd, lvl, k, done).1 && x !in done
    ensures x in UnitsVisit(cnd, Pass(cnd, lvl, k, done).0, 0)
    decreases |cnd| - k
  {
    hide Members, RunEnd, Pass, UnitVisit;
    if k == |cnd| {
      PassEnd(cnd, lvl, done);
    } else {
      PassStep(cnd, lvl, k, done);
      if cnd[k].parent >= 0 || k in done || cnd[k].level != lvl {
        MarkedVisited(cnd, lvl, k + 1, done, x);
      } else {
        var last := RunEnd(cnd, k);
        var r := Pass(cnd, lvl, last + 1, done + Span(k, last)).0;
        assert ([k] + r)[1..] == r;
        if k <= x <= last {
          InRun(cnd, k, x);
          MemberVisited(cnd, k, x);
        } else {
          MarkedVisited(cnd, lvl, last + 1, done + Span(k, last), x);
        }
      }
    }
  }

  lemma {:induction false} PassKeeps(cnd: seq<Cond>, lvl: Level, k: nat, done: set<nat>, x: nat)
    requires k <= |cnd| && x in done
    ensures x in Pass(cnd, lvl, k, done).1
    decreases |cnd| - k
  {
    hide Members, RunEnd, Pass;
    if k == |cnd| {
      PassEnd(cnd, lvl, done);
    } else {
      PassStep(cnd, lvl, k, done);
      if cnd[k].parent >= 0 || k in done || cnd[k].level != lvl {
        PassKeeps(cnd, lvl, k + 1, done, x);
      } else {
        PassKeeps(cnd, lvl, RunEnd(cnd, k) + 1, done + Span(k, RunEnd(cnd, k)), x);
      }
    }
  }

  /** A pass leaves no top-level condition of its level unmarked. */
  lemma {:induction false} PassCovers(cnd: seq<Cond>, lvl: Level, k: nat, done: set<nat>, x: nat)
    requires Forest(cnd) && k <= x < |cnd| && cnd[x].parent == -1 && cnd[x].level == lvl
    ensures x in Pass(cnd, lvl, k, done).1
    decreases |cnd| - k
  {
    hide Members, RunEnd, Pass;
    PassStep(cnd, lvl, k, done);
    if x in done {
      PassKeeps(cnd, lvl, k, done, x);
    } else if cnd[k].parent >= 0 || k in done || cnd[k].level != lvl {
      PassCovers(cnd, lvl, k + 1, done, x);
    } else {
      var last := RunEnd(cnd, k);
      if x <= last {
        PassKeeps(cnd, lvl, last + 1, done + Span(k, last), x);
      } else {
        PassCovers(cnd, lvl, last + 1, done + Span(k, last), x);
      }
    }
  }

  /** A branch's head is marked off by its own pass only, which writes it. */
  lemma {:induction false} HeadPass(cnd: seq<Cond>, lvl: Level, k: nat, done: set<nat>, h: nat)
    requires Forest(cnd) && k <= |cnd| && h in Heads(cnd, -1, 0) && h < |cnd| && h !in done
    ensures cnd[h].level != lvl ==> h !in Pass(cnd, lvl, k, done).1
    ensures cnd[h].level == lvl && k <= h ==> h in Pass(cnd, lvl, k, done).0
    decreases |cnd| - k
  {
    hide Members, RunEnd, Pass, Heads;
    if k == |cnd| {
      PassEnd(cnd, lvl, done);
    } else {
      PassStep(cnd, lvl, k, done);
      if cnd[k].parent >= 0 || k in done || cnd[k].level != lvl {
        HeadTop(cnd, h);
        HeadPass(cnd, lvl, k + 1, done, h);
      } else {
        var last := RunEnd(cnd, k);
        if k < h { HeadUncovered(cnd, -1, 0, h, k); }
        if k != h { HeadPass(cnd, lvl, last + 1, done + Span(k, last), h); }
      }
    }
  }

  lemma HeadTop(cnd: seq<Cond>, h: nat)
    requires h in Heads(cnd, -1, 0)
    ensures h < |cnd| && cnd[h].parent == -1
  {
  }

  lemma Twice(s: seq<nat>, t: seq<nat>, x: nat)
    requires x in s && x in t
    ensures Times(s + t, x) >= 2
  {
  }

  /** A member stronger than the head of its run is written by an earlier pass and again with
      the run. */
  lemma WeakHeadTwice(cnd: seq<Cond>, h: nat, x: nat)
    requires Forest(cnd) && h in Heads(cnd, -1, 0) && x in Members(cnd, h) && x < |cnd|
    requires Rank(cnd[x].level) < Rank(cnd[h].level)
    ensures Times(UnitsVisit(cnd, Written(cnd), 0), x) >= 2
  {
    hide Members, RunEnd, Pass, Heads, UnitsVisit, UnitVisit, Times;
    HeadTop(cnd, h);
    InRun(cnd, h, x);
    var p0 := Pass(cnd, Infect, 0, {});
    var p1 := Pass(cnd, Suspect, 0, p0.1);
    var p2 := Pass(cnd, NoVerdict, 0, p1.1);
    VisitAppend(cnd, p0.0, p1.0);
    VisitAppend(cnd, p0.0 + p1.0, p2.0);
    var v0, v1, v2 := UnitsVisit(cnd, p0.0, 0), UnitsVisit(cnd, p1.0, 0), UnitsVisit(cnd, p2.0, 0);
    assert UnitsVisit(cnd, Written(cnd), 0) == v0 + v1 + v2;
    HeadPass(cnd, Infect, 0, {}, h);
    if cnd[x].level == Infect {
      PassCovers(cnd, Infect, 0, {}, x);
      MarkedVisited(cnd, Infect, 0, {}, x);
      if cnd[h].level == Suspect {
        HeadPass(cnd, Suspect, 0, p0.1, h);
        HeadVisited(cnd, p1.0, h, x);
        Twice(v0, v1, x);
        TimesAppend(v0 + v1, v2, x);
      } else {
        HeadPass(cnd, Suspect, 0, p0.1, h);
        HeadPass(cnd, NoVerdict, 0, p1.1, h);
        HeadVisited(cnd, p2.0, h, x);
        Twice(v0 + v1, v2, x);
      }
    } else {
      HeadPass(cnd, Suspect, 0, p0.1, h);
      HeadPass(cnd, NoVerdict, 0, p1.1, h);
      HeadVisited(cnd, p2.0, h, x);
      PassCovers(cnd, Suspect, 0, p0.1, x);
      if x in p0.1 { MarkedVisited(cnd, Infect, 0, {}, x); } else { MarkedVisited(cnd, Suspect, 0, p0.1, x); }
      Twice(v0 + v1, v2, x);
    }
  }

  /** Every condition is written exactly once if and only if no run at the top level begins
      with a verdict weaker than one of its later members. */
  lemma WrittenOnceIff(cnd: seq<Cond>)
    requires Forest(cnd)
    ensures (forall j :: 0 <= j < |cnd| ==> Times(UnitsVisit(cnd, Written(cnd), 0), j) == 1)
       <==> HeadsStrongest(cnd)
  {
    hide Members, RunEnd, Pass, Heads, UnitsVisit, Times, Written, Ordered;
    if HeadsStrongest(cnd) {
      WrittenSorted(cnd);
      forall j: nat | j < |cnd|
        ensures Times(UnitsVisit(cnd, Written(cnd), 0), j) == 1
      {
        OrderedOnce(cnd, j);
      }
    } else {
      var h, x :| h in Heads(cnd, -1, 0) && x in Members(cnd, h) && !(Rank(cnd[h].level) <= Rank(cnd[x].level));
      HeadTop(cnd, h);
      InRun(cnd, h, x);
      WeakHeadTwice(cnd, h, x);
    }
  }

  // ---- every condition is written at least once, whatever the runs begin with ---------------

  /** What sits under a marked-off top-level condition was written with it. */
  lemma {:induction false} MarkedBelow(cnd: seq<Cond>, lvl: Level, k: nat, done: set<nat>, j: nat)
    requires Forest(cnd) && k <= |cnd| && j < |cnd| && Under(cnd, -1, j).Some?
    requires Under(cnd, -1, j).value in Pass(cnd, lvl, k, done).1 && Under(cnd, -1, j).value !in done
    ensures j in UnitsVisit(cnd, Pass(cnd, lvl, k, done).0, 0)
    decreases |cnd| - k
  {
    hide Members, RunEnd, Pass, UnitVisit, Under;
    var x := Under(cnd, -1, j).value;
    if k == |cnd| {
      PassEnd(cnd, lvl, done);
    } else {
      PassStep(cnd, lvl, k, done);
      if cnd[k].parent >= 0 || k in done || cnd[k].level != lvl {
        MarkedBelow(cnd, lvl, k + 1, done, j);
      } else {
        var last := RunEnd(cnd, k);
        var r := Pass(cnd, lvl, last + 1, done + Span(k, last)).0;
        assert ([k] + r)[1..] == r;
        if k <= x <= last {
          VisitedUnit(cnd, -1, k, j);
        } else {
          MarkedBelow(cnd, lvl, last + 1, done + Span(k, last), j);
        }
      }
    }
  }

  lemma AllWritten(cnd: seq<Cond>, j: nat)
    requires Forest(cnd) && j < |cnd|
    ensures j in UnitsVisit(cnd, Written(cnd), 0)
  {
    hide Members, RunEnd, Pass, Heads, UnitsVisit, UnitVisit, Under;
    UnderTop(cnd, j);
    var x := Under(cnd, -1, j).value;
    var p0 := Pass(cnd, Infect, 0, {});
    var p1 := Pass(cnd, Suspect, 0, p0.1);
    var p2 := Pass(cnd, NoVerdict, 0, p1.1);
    VisitAppend(cnd, p0.0, p1.0);
    VisitAppend(cnd, p0.0 + p1.0, p2.0);
    if x in p0.1 {
      MarkedBelow(cnd, Infect, 0, {}, j);
    } else if x in p1.1 {
      MarkedBelow(cnd, Suspect, 0, p0.1, j);
    } else {
      match cnd[x].level {
        case Infect => PassCovers(cnd, Infect, 0, {}, x);
        case Suspect => PassCovers(cnd, Suspect, 0, p0.1, x);
        case NoVerdict => PassCovers(cnd, NoVerdict, 0, p1.1, x);
      }
      MarkedBelow(cnd, NoVerdict, 0, p1.1, j);
    }
  }
}
