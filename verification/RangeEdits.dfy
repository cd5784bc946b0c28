/** Editing the scan ranges of a draft: the ones its matchers search, and the ones declared and
    not given to a matcher yet. */
module RangeEdits {
  import opened TargetC
  import opened DraftModel
  import opened Matchers
  import opened Queries
  import opened Refusals
  import opened Removal
  import opened DraftEdits

  // ---- lists without repeats --------------------------------------------------------------

  ghost predicate NoRepeats(s: seq<bv32>) { forall i, j :: 0 <= i < j < |s| ==> s[i] != s[j] }

  /** acc, then whatever of s is not there yet. */
  function AddNew(acc: seq<bv32>, s: seq<bv32>): seq<bv32>
    decreases |s|
  {
    if s == [] then acc else AddNew(if s[0] in acc then acc else acc + [s[0]], s[1..])
  }

  lemma {:induction false} AddNewIs(acc: seq<bv32>, s: seq<bv32>)
    ensures var r := AddNew(acc, s);
      (NoRepeats(acc) ==> NoRepeats(r)) && (forall x :: x in r <==> x in acc || x in s) && |acc| <= |r| <= |acc| + |s|
    decreases |s|
  {
    if s != [] {
      assert s == [s[0]] + s[1..];
      AddNewIs(if s[0] in acc then acc else acc + [s[0]], s[1..]);
    }
  }

  lemma {:induction false} AddNewSnoc(acc: seq<bv32>, s: seq<bv32>, x: bv32)
    ensures AddNew(acc, s + [x]) == (var r := AddNew(acc, s); if x in r then r else r + [x])
    decreases |s|
  {
    if s == [] {
      assert s + [x] == [x] && [x][1..] == [];
    } else {
      assert (s + [x])[1..] == s[1..] + [x];
      AddNewSnoc(if s[0] in acc then acc else acc + [s[0]], s[1..], x);
    }
  }

  // ---- every range of the draft -----------------------------------------------------------

  function Masks(m: Model, g: nat): (r: seq<bv32>)
    requires g <= |m.grp| <= 32
    ensures |r| <= g
  {
    if g == 0 then [] else Masks(m, g - 1) + if HasRange(m, g - 1) then [Mask(m, g - 1)] else []
  }

  lemma {:induction false} MasksIn(m: Model, g: nat, x: bv32)
    requires g <= |m.grp| <= 32
    ensures x in Masks(m, g) <==> exists k :: 0 <= k < g && Searches(m, k, x)
    decreases g
  {
    hide HasRange, Mask;
    if g > 0 {
      MasksIn(m, g - 1, x);
      assert Searches(m, g - 1, x) <==> HasRange(m, g - 1) && Mask(m, g - 1) == x;
    }
  }

  /** Each range once: those in use, in matcher order, and after them those only declared. */
  function All(m: Model, rngAdd: seq<bv32>): seq<bv32>
    requires |m.grp| <= 32
  {
    AddNew(AddNew([], Masks(m, |m.grp|)), rngAdd)
  }

  lemma AllIs(m: Model, rngAdd: seq<bv32>)
    requires |m.grp| <= 32
    ensures NoRepeats(All(m, rngAdd)) && |All(m, rngAdd)| <= |m.grp| + |rngAdd|
    ensures forall x :: x in All(m, rngAdd) <==> x in Masks(m, |m.grp|) || x in rngAdd
  {
    hide AddNew, Masks;
    AddNewIs([], Masks(m, |m.grp|));
    AddNewIs(AddNew([], Masks(m, |m.grp|)), rngAdd);
  }

  lemma AddNewNone(acc: seq<bv32>)
    ensures AddNew(acc, []) == acc
  {
  }

  method RngUsed(e: Draft, cap: nat) returns (mask: seq<bv32>)
    requires e.Valid() && |e.grp| <= MAX_GROUP && cap >= MAX_GROUP
    ensures mask == AddNew([], Masks(e.Snap(), |e.grp|)) && |mask| <= |e.grp|
  {
    hide HasRange, Mask, AddNew;
    ghost var m := e.Snap();
    mask := [];
    AddNewNone([]);
    for g := 0 to |e.grp|
      invariant |mask| <= g && mask == AddNew([], Masks(m, g))
    {
      if |mask| >= cap { break; }
      var has := GrpHasRange(e, g);
      assert Masks(m, g) + [] == Masks(m, g);
      if !has { continue; }
      var q := GrpMask(e, g);
      AddNewSnoc([], Masks(m, g), q);
      if q in mask { continue; }
      mask := mask + [q];
    }
  }

  lemma UsedIs(m: Model, used: seq<bv32>, x: bv32)
    requires |m.grp| <= 32 && used == AddNew([], Masks(m, |m.grp|))
    ensures x in used <==> x in Masks(m, |m.grp|)
  {
    hide AddNew, Masks;
    AddNewIs([], Masks(m, |m.grp|));
  }

  /** Every range once, and for each whether no matcher searches it. */
  method RngAll(e: Draft, cap: nat) returns (mask: seq<bv32>, unused: seq<bool>)
    requires e.Valid() && |e.grp| <= MAX_GROUP && |e.rngAdd| <= MAX_GROUP && cap >= 2 * MAX_GROUP
    ensures mask == All(e.Snap(), e.rngAdd) && |unused| == |mask|
    ensures forall i :: 0 <= i < |mask| ==> (unused[i] <==> mask[i] !in Masks(e.Snap(), |e.grp|))
  {
    hide AddNew, Masks;
    mask := RngUsed(e, cap);
    unused := seq(|mask|, _ => false);
    ghost var used := mask;
    AddNewNone(used);
    assert e.rngAdd[..0] == [];
    for i := 0 to |e.rngAdd|
      invariant |used| <= |mask| <= |e.grp| + i && |unused| == |mask|
      invariant mask == AddNew(used, e.rngAdd[..i])
      invariant mask[..|used|] == used && forall j :: 0 <= j < |used| ==> !unused[j]
      invariant forall j :: |used| <= j < |mask| ==> mask[j] !in used && unused[j]
    {
      if |mask| >= cap { break; }
      AddNewSnoc(used, e.rngAdd[..i], e.rngAdd[i]);
      assert e.rngAdd[..i + 1] == e.rngAdd[..i] + [e.rngAdd[i]];
      if e.rngAdd[i] in mask { continue; }
      assert forall x :: x in mask[..|used|] ==> x in mask;
      mask, unused := mask + [e.rngAdd[i]], unused + [true];
    }
    assert e.rngAdd[..|e.rngAdd|] == e.rngAdd;
    forall i | 0 <= i < |mask|
      ensures unused[i] <==> mask[i] !in Masks(e.Snap(), |e.grp|)
    {
      if i < |used| { assert mask[i] == mask[..|used|][i]; }
      UsedIs(e.Snap(), used, mask[i]);
    }
  }

  // ---- one range made another -------------------------------------------------------------

  function Aimed(m: Model, was: bv32, now: bv32): (r: Model)
    requires |m.grp| <= 32
    ensures |r.grp| == |m.grp| && r.decl == m.decl
    ensures forall g :: 0 <= g < |m.grp| ==>
      r.grp[g] == if Searches(m, g, was) then m.grp[g].(mask := now) else m.grp[g]
  {
    m.(grp := seq(|m.grp|, g requires 0 <= g < |m.grp| => if Searches(m, g, was) then m.grp[g].(mask := now)
        else m.grp[g]))
  }

  function To(was: bv32, now: bv32, x: bv32): bv32 { if x == was then now else x }

  function Renamed(s: seq<bv32>, was: bv32, now: bv32): (r: seq<bv32>)
    ensures |r| == |s| && forall i :: 0 <= i < |s| ==> r[i] == To(was, now, s[i])
  {
    seq(|s|, i requires 0 <= i < |s| => To(was, now, s[i]))
  }

  lemma RenamedStep(s: seq<bv32>, was: bv32, now: bv32, i: nat)
    requires i < |s|
    ensures Renamed(s, was, now)[..i + 1] == Renamed(s, was, now)[..i] + [To(was, now, s[i])]
  {
  }

  /** The declared list rewritten in place, no range twice. */
  method RetargetAdded(e: Draft, was: bv32, now: bv32)
    modifies e`rngAdd
    ensures e.rngAdd == AddNew([], Renamed(old(e.rngAdd), was, now))
  {
    hide AddNew, Renamed;
    ghost var before := e.rngAdd;
    ghost var all := Renamed(before, was, now);
    RenamedLength(before, was, now);
    var w := 0;
    AddNewNone([]);
    assert all[..0] == [];
    for i := 0 to |e.rngAdd|
      invariant w <= i <= |e.rngAdd| == |before|
      invariant forall k :: i <= k < |before| ==> e.rngAdd[k] == before[k]
      invariant e.rngAdd[..w] == AddNew([], all[..i])
    {
      var m := if e.rngAdd[i] == was then now else e.rngAdd[i];
      RenamedStep(before, was, now, i);
      AddNewSnoc([], all[..i], m);
      if m !in e.rngAdd[..w] {
        ghost var from := e.rngAdd[..w];
        e.rngAdd := e.rngAdd[w := m];
        assert e.rngAdd[..w + 1] == from + [m];
        w := w + 1;
      }
    }
    assert all[..|all|] == all;
    e.rngAdd := e.rngAdd[..w];
  }

  lemma RenamedLength(s: seq<bv32>, was: bv32, now: bv32)
    ensures |Renamed(s, was, now)| == |s|
  {
  }

  method RngRetarget(e: Draft, was: bv32, now: bv32)
    requires e.Valid() && |e.grp| <= 32
    modifies e`grp, e`rngAdd
    ensures e.Valid() && e.Snap() == Aimed(old(e.Snap()), was, now)
    ensures e.rngAdd == AddNew([], Renamed(old(e.rngAdd), was, now))
  {
    hide AddNew, Mask, HasRange;
    ghost var m := e.Snap();
    for g := 0 to |e.grp|
      invariant |e.grp| == |m.grp| && e.decl == m.decl && e.Valid() && e.rngAdd == old(e.rngAdd)
      invariant forall k :: 0 <= k < g ==> e.grp[k] == Aimed(m, was, now).grp[k]
      invariant forall k :: g <= k < |e.grp| ==> e.grp[k] == m.grp[k]
    {
      var has := GrpHasRange(e, g);
      var mask := GrpMask(e, g);
      SameMask(m, e.Snap(), g);
      assert Searches(m, g, was) <==> has && mask == was;
      if !has || mask != was { continue; }
      e.grp := e.grp[g := e.grp[g].(mask := now)];
    }
    assert e.grp == Aimed(m, was, now).grp;
    RetargetAdded(e, was, now);
  }

  /** A matcher's range depends on its own row and the markers. */
  lemma SameMask(m: Model, n: Model, g: nat)
    requires m.decl == n.decl && g < |m.grp| <= 32 && g < |n.grp| <= 32 && m.grp[g] == n.grp[g]
    ensures Mask(m, g) == Mask(n, g) && HasRange(m, g) == HasRange(n, g)
  {
    StrsSame(m, n, g, 0);
    NeedSame(m, n, g, |m.decl|);
  }

  lemma AimedSearches(m: Model, was: bv32, now: bv32, g: nat, x: bv32)
    requires g < |m.grp| <= 32 && now != 0
    ensures Searches(Aimed(m, was, now), g, x)
       <==> if Searches(m, g, was) then x == now else Searches(m, g, x)
  {
    hide StrsFrom, Need;
    var n := Aimed(m, was, now);
    StrsSame(m, n, g, 0);
    NeedSame(m, n, g, |m.decl|);
  }

  /** Retargeting maps the set of ranges the draft has, and leaves no range declared twice. */
  lemma RetargetMapsRanges(m: Model, rngAdd: seq<bv32>, was: bv32, now: bv32, x: bv32)
    requires |m.grp| <= 32 && now != 0
    ensures var added := AddNew([], Renamed(rngAdd, was, now));
      && NoRepeats(added)
      && (x in All(Aimed(m, was, now), added) <==> exists y :: y in All(m, rngAdd) && To(was, now, y) == x)
  {
    hide Searches, AddNew, All;
    var n := Aimed(m, was, now);
    var added, all := AddNew([], Renamed(rngAdd, was, now)), All(m, rngAdd);
    AllIs(m, rngAdd);
    AllIs(n, added);
    AimedMasks(m, was, now, x);
    AddNewIs([], Renamed(rngAdd, was, now));
    RenamedIn(rngAdd, was, now, x);
  }

  lemma RenamedIn(s: seq<bv32>, was: bv32, now: bv32, x: bv32)
    ensures x in Renamed(s, was, now) <==> exists y :: y in s && To(was, now, y) == x
  {
    var r := Renamed(s, was, now);
    if x in r { var i :| 0 <= i < |r| && r[i] == x; assert s[i] in s && To(was, now, s[i]) == x; }
    if y :| y in s && To(was, now, y) == x { var i :| 0 <= i < |s| && s[i] == y; assert r[i] == x; }
  }

  lemma AimedMasks(m: Model, was: bv32, now: bv32, x: bv32)
    requires |m.grp| <= 32 && now != 0
    ensures var n := Aimed(m, was, now);
      x in Masks(n, |n.grp|) <==> exists y :: y in Masks(m, |m.grp|) && To(was, now, y) == x
  {
    hide Mask, HasRange, Aimed, Searches, Masks;
    var n := Aimed(m, was, now);
    MasksIn(n, |n.grp|, x);
    MasksIn(m, |m.grp|, x);
    MasksIn(m, |m.grp|, was);
    forall g | 0 <= g < |m.grp|
      ensures Searches(n, g, x) <==> if Searches(m, g, was) then x == now else Searches(m, g, x)
    {
      AimedSearches(m, was, now, g, x);
    }
    if x in Masks(n, |n.grp|) {
      var g :| 0 <= g < |n.grp| && Searches(n, g, x);
      if Searches(m, g, was) { assert was in Masks(m, |m.grp|); } else { assert x in Masks(m, |m.grp|); }
    }
    if y :| y in Masks(m, |m.grp|) && To(was, now, y) == x {
      MasksIn(m, |m.grp|, y);
      var g :| 0 <= g < |m.grp| && Searches(m, g, y);
      SearchesOne(m, g, y, was);
      assert Searches(n, g, x);
    }
  }

  lemma SearchesOne(m: Model, g: nat, x: bv32, y: bv32)
    requires g < |m.grp| <= 32 && Searches(m, g, x)
    ensures Searches(m, g, y) <==> x == y
  {
  }

  /** A target of no bits is not reached: the matcher goes back to its markers' own regions. */
  lemma EmptyTargetMissed(m: Model, was: bv32, now: bv32, g: nat)
    requires g < |m.grp| <= 32 && Searches(m, g, was)
    ensures Mask(Aimed(m, was, now), g) == now <==> now != 0
  {
  }

  // ---- a range taken out ------------------------------------------------------------------

  /** The list without the first x. */
  function WithoutFirst(s: seq<bv32>, x: bv32): seq<bv32> {
    if s == [] then [] else if s[0] == x then s[1..] else [s[0]] + WithoutFirst(s[1..], x)
  }

  lemma NoRepeatsNone()
    ensures NoRepeats([])
  {
  }

  lemma NoRepeatsCons(x: bv32, s: seq<bv32>)
    ensures NoRepeats([x] + s) <==> NoRepeats(s) && x !in s
  {
    var r := [x] + s;
    assert forall i :: 0 <= i < |s| ==> r[i + 1] == s[i];
    if NoRepeats(r) {
      forall i, j | 0 <= i < j < |s| ensures s[i] != s[j] { assert r[i + 1] != r[j + 1]; }
      forall i | 0 <= i < |s| ensures s[i] != x { assert r[0] != r[i + 1]; }
    }
  }

  lemma {:induction false} WithoutFirstIs(s: seq<bv32>, x: bv32)
    requires NoRepeats(s)
    ensures var r := WithoutFirst(s, x); NoRepeats(r) && forall y :: y in r <==> y in s && y != x
    decreases |s|
  {
    hide NoRepeats;
    if s == [] {
      NoRepeatsNone();
    } else {
      assert s == [s[0]] + s[1..];
      NoRepeatsCons(s[0], s[1..]);
      if s[0] != x {
        WithoutFirstIs(s[1..], x);
        NoRepeatsCons(s[0], WithoutFirst(s[1..], x));
      }
    }
  }

  lemma {:induction false} WithoutAt(s: seq<bv32>, x: bv32, i: nat)
    requires i < |s| && s[i] == x && x !in s[..i]
    ensures WithoutFirst(s, x) == s[..i] + s[i + 1..]
    decreases i
  {
    if i > 0 {
      assert s[..i][0] == s[0];
      assert s[1..][..i - 1] == s[..i][1..];
      WithoutAt(s[1..], x, i - 1);
      assert s[..i] + s[i + 1..] == [s[0]] + (s[1..][..i - 1] + s[1..][i..]);
    }
  }

  lemma {:induction false} WithoutNone(s: seq<bv32>, x: bv32)
    requires x !in s
    ensures WithoutFirst(s, x) == s
    decreases |s|
  {
    if s != [] { WithoutNone(s[1..], x); }
  }

  method RngAddDrop(e: Draft, mask: bv32)
    modifies e`rngAdd
    ensures e.rngAdd == WithoutFirst(old(e.rngAdd), mask)
  {
    for i := 0 to |e.rngAdd|
      invariant e.rngAdd == old(e.rngAdd) && mask !in e.rngAdd[..i]
    {
      if e.rngAdd[i] == mask {
        WithoutAt(e.rngAdd, mask, i);
        e.rngAdd := e.rngAdd[..i] + e.rngAdd[i + 1..];
        return;
      }
    }
    assert e.rngAdd[..|e.rngAdd|] == e.rngAdd;
    WithoutNone(e.rngAdd, mask);
  }

  /** n is m with only the matchers numbered `kept`, in that order, every marker in the ones it
      was in. */
  ghost predicate Tracks(m: Model, n: Model, kept: seq<nat>) {
    && |m.grp| <= MAX_GROUP && |n.grp| == |kept| <= |m.grp| && n.blk == m.blk && |n.decl| == |m.decl|
    && (forall j :: 0 <= j < |kept| ==> kept[j] < |m.grp| && n.grp[j] == m.grp[kept[j]])
    && (forall i :: 0 <= i < |m.decl| ==> n.decl[i] == m.decl[i].(grp := n.decl[i].grp))
    && (forall i, j :: 0 <= i < |m.decl| && 0 <= j < |kept| ==> InGrp(n.decl[i], j) == InGrp(m.decl[i], kept[j]))
  }

  lemma {:induction false} TrackedStrs(m: Model, n: Model, kept: seq<nat>, j: nat, i: nat)
    requires Tracks(m, n, kept) && j < |kept| && i <= |m.decl|
    ensures StrsFrom(n, j, i) == StrsFrom(m, kept[j], i)
    decreases |m.decl| - i
  {
    hide InGrp;
    if i < |m.decl| { TrackedStrs(m, n, kept, j, i + 1); }
  }

  lemma {:induction false} TrackedNeed(m: Model, n: Model, kept: seq<nat>, j: nat, i: nat)
    requires Tracks(m, n, kept) && j < |kept| && i <= |m.decl|
    ensures Need(n, j, i) == Need(m, kept[j], i)
    decreases i
  {
    hide InGrp;
    if i > 0 {
      TrackedNeed(m, n, kept, j, i - 1);
      assert n.decl[i - 1].mask == m.decl[i - 1].mask;
    }
  }

  lemma TrackedMask(m: Model, n: Model, kept: seq<nat>, j: nat)
    requires Tracks(m, n, kept) && j < |kept|
    ensures Mask(n, j) == Mask(m, kept[j]) && HasRange(n, j) == HasRange(m, kept[j])
    ensures Strs(n, j) == Strs(m, kept[j])
  {
    hide InGrp, StrsFrom, Need;
    TrackedStrs(m, n, kept, j, 0);
    TrackedNeed(m, n, kept, j, |m.decl|);
  }

  /** A matcher kept asks what it asked. */
  lemma TrackedHolds(m: Model, n: Model, kept: seq<nat>, j: nat, o: Obj)
    requires Tracks(m, n, kept) && j < |kept|
    ensures MatcherHolds(n, j, o) <==> MatcherHolds(m, kept[j], o)
  {
    hide Usable, Hits, Mask, Strs, InGrp;
    TrackedMask(m, n, kept, j);
    UsableKeeps(m, n, m.grp[kept[j]].sim);
  }

  /** The matchers of number g and up whose range is not `mask`. */
  function Others(m: Model, mask: bv32, g: nat): seq<nat>
    requires g <= |m.grp| <= 32
    decreases |m.grp| - g
  {
    if g == |m.grp| then [] else (if Searches(m, g, mask) then [] else [g]) + Others(m, mask, g + 1)
  }

  lemma {:induction false} OthersIs(m: Model, mask: bv32, g: nat)
    requires g <= |m.grp| <= 32
    ensures var r := Others(m, mask, g);
      (forall x :: x in r <==> g <= x < |m.grp| && !Searches(m, x, mask)) && forall i, j :: 0 <= i < j < |r| ==>
          r[i] < r[j]
    decreases |m.grp| - g
  {
    hide Searches;
    if g < |m.grp| {
      var rest := Others(m, mask, g + 1);
      OthersIs(m, mask, g + 1);
      assert forall j :: 0 <= j < |rest| ==> rest[j] in rest;
    }
  }

  function Upto(n: nat): (r: seq<nat>)
    ensures |r| == n && forall i :: 0 <= i < n ==> r[i] == i
  {
    seq(n, i requires 0 <= i => i)
  }

  /** The list the backward loop has reached once it has looked at every matcher from g up. */
  function Reached(m: Model, mask: bv32, g: nat): seq<nat>
    requires g <= |m.grp| <= 32
  {
    Upto(g) + Others(m, mask, g)
  }

  lemma TracksSelf(m: Model)
    requires |m.grp| <= MAX_GROUP
    ensures Tracks(m, m, Upto(|m.grp|) + [])
  {
    hide InGrp;
    assert Upto(|m.grp|) + [] == Upto(|m.grp|);
  }

  lemma TracksWithout(m: Model, n: Model, kept: seq<nat>, g: nat)
    requires Tracks(m, n, kept) && g < |kept|
    ensures Tracks(m, Without(n, g), kept[..g] + kept[g + 1..])
  {
    hide InGrp, Splice, MovedCond;
    var r, rest := Without(n, g), kept[..g] + kept[g + 1..];
    assert forall j :: 0 <= j < |rest| ==> rest[j] == kept[Was(g, j)];
    forall i: nat, j: nat | i < |m.decl| && j < |rest|
      ensures InGrp(r.decl[i], j) == InGrp(m.decl[i], rest[j])
    {
      MarkersKeep(n, g, i, j);
    }
    forall i: nat | i < |m.decl|
      ensures r.decl[i] == m.decl[i].(grp := r.decl[i].grp)
    {
      assert r.decl[i] == MovedDecl(n.decl[i], g);
    }
  }

  lemma ReachedIs(m: Model, mask: bv32, g: nat)
    requires g < |m.grp| <= MAX_GROUP
    ensures var kept := Reached(m, mask, g + 1);
      && g < |kept| && kept[g] == g
      && Reached(m, mask, g) == if Searches(m, g, mask) then kept[..g] + kept[g + 1..] else kept
  {
    hide Searches;
    var rest := Others(m, mask, g + 1);
    UptoSnoc(g);
    hide Upto;
    Without1(Upto(g), g, rest);
    assert [] + rest == rest;
  }

  lemma UptoSnoc(g: nat)
    ensures Upto(g + 1) == Upto(g) + [g] && |Upto(g)| == g
  {
  }

  lemma Without1(a: seq<nat>, x: nat, rest: seq<nat>)
    ensures var s := a + [x] + rest;
      s[|a|] == x && s[..|a|] + s[|a| + 1..] == a + rest && s == a + ([x] + rest)
  {
    var s := a + [x] + rest;
    assert s[..|a|] == a && s[|a| + 1..] == rest;
  }

  lemma ReachedStep(m: Model, n: Model, mask: bv32, g: nat)
    requires |m.grp| <= MAX_GROUP && g < |m.grp| && Tracks(m, n, Reached(m, mask, g + 1))
    ensures g < |n.grp| && (Searches(n, g, mask) <==> Searches(m, g, mask))
    ensures Searches(m, g, mask) ==> Tracks(m, Without(n, g), Reached(m, mask, g))
    ensures !Searches(m, g, mask) ==> Tracks(m, n, Reached(m, mask, g))
  {
    hide Searches, Without, Tracks, Reached;
    var kept := Reached(m, mask, g + 1);
    ReachedIs(m, mask, g);
    TracksLength(m, n, kept);
    TrackedSearch(m, n, kept, g, mask);
    TracksWithout(m, n, kept, g);
  }

  lemma TracksLength(m: Model, n: Model, kept: seq<nat>)
    requires Tracks(m, n, kept)
    ensures |n.grp| == |kept| <= MAX_GROUP
  {
  }

  /** Takes a range out: an unused one from the declared list, a searched one with every matcher
      that searches it - the others kept in order, every marker in the ones it was in. */
  method RngDelete(e: Draft, mask: bv32, unused: bool)
    requires e.Valid() && |e.grp| <= MAX_GROUP
    modifies e`decl, e`grp, e`cnd, e`curGrp, e`rngAdd
    ensures e.Valid()
    ensures unused ==> e.Snap() == old(e.Snap()) && e.rngAdd == WithoutFirst(old(e.rngAdd), mask)
    ensures !unused ==> e.rngAdd == old(e.rngAdd) && Tracks(old(e.Snap()), e.Snap(), Others(old(e.Snap()), mask, 0))
  {
    hide InGrp, HasRange, Mask, Without, Tracks;
    if unused {
      RngAddDrop(e, mask);
      return;
    }
    ghost var m := e.Snap();
    TracksSelf(m);
    var g := |e.grp|;
    while g > 0
      invariant e.Valid() && 0 <= g <= |m.grp| <= MAX_GROUP && Tracks(m, e.Snap(), Reached(m, mask, g))
      invariant |e.grp| <= MAX_GROUP && e.rngAdd == old(e.rngAdd)
    {
      g := g - 1;
      ReachedStep(m, e.Snap(), mask, g);
      var has := GrpHasRange(e, g);
      var own := GrpMask(e, g);
      if has && own == mask { GrpRemove(e, g); }
    }
    assert Upto(0) + Others(m, mask, 0) == Others(m, mask, 0);
  }

  /** After which no matcher searches it, and every other range is searched as before. */
  lemma DeletedIsGone(m: Model, n: Model, mask: bv32, x: bv32)
    requires |m.grp| <= MAX_GROUP && Tracks(m, n, Others(m, mask, 0))
    ensures x in Masks(n, |n.grp|) <==> x != mask && x in Masks(m, |m.grp|)
  {
    hide InGrp, HasRange, Mask, Masks, Searches;
    var kept := Others(m, mask, 0);
    OthersIs(m, mask, 0);
    MasksIn(n, |n.grp|, x);
    MasksIn(m, |m.grp|, x);
    forall j | 0 <= j < |kept|
      ensures Searches(n, j, x) <==> Searches(m, kept[j], x)
    {
      TrackedSearch(m, n, kept, j, x);
    }
    if j :| 0 <= j < |kept| && Searches(n, j, x) {
      assert kept[j] in kept;
      SearchesOne(m, kept[j], x, mask);
    }
    if g: nat :| g < |m.grp| && Searches(m, g, x) && x != mask {
      SearchesOne(m, g, x, mask);
      assert g in kept;
    }
  }

  lemma TrackedSearch(m: Model, n: Model, kept: seq<nat>, j: nat, x: bv32)
    requires Tracks(m, n, kept) && j < |kept|
    ensures Searches(n, j, x) <==> Searches(m, kept[j], x)
  {
    hide InGrp, Mask, HasRange;
    TrackedMask(m, n, kept, j);
  }

  // ---- the range menu ---------------------------------------------------------------------

  datatype Verb = Switch | Extend | Declare | WholeFile

  /** One line of the menu; a range already there, or an ninth one, is not declared again. */
  method RngApply(e: Draft, verb: Verb, target: bv32, here: bv32)
    requires e.Valid() && |e.grp| <= 32 && NoRepeats(e.rngAdd) && |e.rngAdd| <= MAX_GROUP
    modifies e`grp, e`rngAdd
    ensures e.Valid() && NoRepeats(e.rngAdd) && |e.rngAdd| <= MAX_GROUP
    ensures verb != Declare ==>
      e.Snap() == Aimed(old(e.Snap()), target,
                        if verb == Switch then here else if verb == Extend then target | here else SCAN_ALL)
    ensures verb == Declare ==> e.Snap() == old(e.Snap())
    ensures verb == Declare ==>
      e.rngAdd == if here in Masks(e.Snap(), |e.grp|) || here in old(e.rngAdd) || |old(e.rngAdd)| >= MAX_GROUP
                  then old(e.rngAdd) else old(e.rngAdd) + [here]
  {
    hide AddNew, HasRange, Mask, Masks, Aimed, Renamed;
    ghost var was := e.rngAdd;
    match verb
    case Switch => RngRetarget(e, target, here); AddNewIs([], Renamed(was, target, here)); RenamedLength(was, target,
        here);
    case Extend =>
      RngRetarget(e, target, target | here);
      AddNewIs([], Renamed(was, target, target | here));
      RenamedLength(was, target, target | here);
    case WholeFile =>
      RngRetarget(e, target, SCAN_ALL);
      AddNewIs([], Renamed(was, target, SCAN_ALL));
      RenamedLength(was, target, SCAN_ALL);
    case Declare =>
      MasksIn(e.Snap(), |e.grp|, here);
      for k := 0 to |e.grp|
        invariant e.Valid() && e.Snap() == old(e.Snap()) && e.rngAdd == was
        invariant forall j :: 0 <= j < k ==> !Searches(e.Snap(), j, here)
      {
        var has := GrpHasRange(e, k);
        var mask := GrpMask(e, k);
        assert Searches(e.Snap(), k, here) <==> has && mask == here;
        if has && mask == here { return; }
      }
      if here in e.rngAdd { return; }
      if |e.rngAdd| >= MAX_GROUP { return; }
      e.rngAdd := e.rngAdd + [here];
  }
}
