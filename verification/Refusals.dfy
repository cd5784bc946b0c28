/** Why a draft is not written yet: the checks that look at markers, matchers, conditions and
    declared ranges, in the order they are made. */
module Refusals {
  import opened TargetC
  import opened DraftModel
  import opened Matchers
  import opened Conditions
  import opened Queries
  import opened IdList
  import opened IdEdits

  const CALL_MAX: nat := 16

  datatype Refusal =
    | SameQuestion | NoString(g: nat) | AtTakesOne | TooMany | NoCondition | EmptyCondition
    | StringUnused(i: nat) | MatcherUnused(g: nat) | RangeUnused(i: nat)

  predicate SameCall(m: Model, a: nat, b: nat)
    requires a < |m.grp| <= 32 && b < |m.grp|
  {
    SameSet(m, a, b) && Threshold(m, a) == Threshold(m, b)
  }

  predicate Searches(m: Model, g: nat, mask: bv32)
    requires g < |m.grp| <= 32
  {
    HasRange(m, g) && Mask(m, g) == mask
  }

  /** What each refusal says is wrong. */
  predicate Wrong(m: Model, rngAdd: seq<bv32>, r: Refusal)
    requires |m.grp| <= 32
  {
    match r
    case SameQuestion =>
      exists a, b :: 0 <= a < b < |m.grp| && m.grp[a].kind == Str && m.grp[b].kind == Str && SameCall(m, a, b)
    case NoString(g) => g < |m.grp| && m.grp[g].kind == Str && Strs(m, g) == []
    case AtTakesOne => exists g :: 0 <= g < |m.grp| && IsAt(m.grp[g]) && |Strs(m, g)| != 1
    case TooMany => exists g :: 0 <= g < |m.grp| && |Strs(m, g)| > CALL_MAX
    case NoCondition => m.cnd == []
    case EmptyCondition => exists i :: 0 <= i < |m.cnd| && m.cnd[i].expr == "" && !HasKids(m.cnd, i)
    case StringUnused(i) => i < |m.decl| && m.decl[i].grp == 0
    case MatcherUnused(g) => g < |m.grp| && forall k :: 0 <= k < |m.cnd| ==> !Uses(m.cnd[k].expr, g)
    case RangeUnused(i) => i < |rngAdd| && forall g :: 0 <= g < |m.grp| ==> !Searches(m, g, rngAdd[i])
  }

  ghost predicate Accepted(m: Model, rngAdd: seq<bv32>)
    requires |m.grp| <= 32
  {
    forall r :: !Wrong(m, rngAdd, r)
  }

  method TwoAlike(e: Draft) returns (r: bool)
    requires e.Valid() && |e.grp| <= 32
    ensures r <==> Wrong(e.Snap(), e.rngAdd, SameQuestion)
  {
    hide SameSet, Threshold;
    ghost var m := e.Snap();
    for i := 0 to |e.grp|
      invariant forall a, b :: 0 <= a < i && a < b < |m.grp| && m.grp[a].kind == Str && m.grp[b].kind == Str ==>
        !SameCall(m, a, b)
    {
      if e.grp[i].kind != Str { continue; }
      for j := i + 1 to |e.grp|
        invariant forall b :: i < b < j && m.grp[b].kind == Str ==> !SameCall(m, i, b)
      {
        if e.grp[j].kind != Str { continue; }
        var same := GrpSameSet(e, i, j);
        var ti := GrpThreshEff(e, i);
        var tj := GrpThreshEff(e, j);
        if same && ti == tj { return true; }
      }
    }
    return false;
  }

  method MatchersWrong(e: Draft) returns (r: Option<Refusal>)
    requires e.Valid() && |e.grp| <= 32
    ensures r.Some? ==> Wrong(e.Snap(), e.rngAdd, r.value)
    ensures r.None? ==> forall g :: !Wrong(e.Snap(), e.rngAdd, NoString(g))
    ensures r.None? ==> !Wrong(e.Snap(), e.rngAdd, AtTakesOne) && !Wrong(e.Snap(), e.rngAdd, TooMany)
  {
    hide Strs;
    ghost var m := e.Snap();
    for i := 0 to |e.grp|
      invariant forall g :: 0 <= g < i ==> !(m.grp[g].kind == Str && Strs(m, g) == [])
    {
      var n := GrpCount(e, i);
      if e.grp[i].kind == Str && n == 0 { return Some(NoString(i)); }
    }
    for i := 0 to |e.grp|
      invariant forall g :: 0 <= g < i ==> !(IsAt(m.grp[g]) && |Strs(m, g)| != 1)
    {
      var n := GrpCount(e, i);
      if IsAt(e.grp[i]) && n != 1 { return Some(AtTakesOne); }
    }
    for i := 0 to |e.grp|
      invariant forall g :: 0 <= g < i ==> |Strs(m, g)| <= CALL_MAX
    {
      var n := GrpCount(e, i);
      if n > CALL_MAX { return Some(TooMany); }
    }
    return None;
  }

  method ConditionsWrong(e: Draft) returns (r: Option<Refusal>)
    requires e.Valid() && |e.grp| <= 32
    ensures r.Some? ==> Wrong(e.Snap(), e.rngAdd, r.value)
    ensures r.None? ==> !Wrong(e.Snap(), e.rngAdd, NoCondition) && !Wrong(e.Snap(), e.rngAdd, EmptyCondition)
  {
    if |e.cnd| == 0 { return Some(NoCondition); }
    for i := 0 to |e.cnd|
      invariant forall k :: 0 <= k < i ==> !(e.cnd[k].expr == "" && !HasKids(e.cnd, k))
    {
      var kids := CndChildren(e, i);
      if e.cnd[i].expr == "" && kids == 0 { return Some(EmptyCondition); }
    }
    return None;
  }

  method LeftOver(e: Draft) returns (r: Option<Refusal>)
    requires e.Valid() && |e.grp| <= 32
    ensures r.Some? ==> Wrong(e.Snap(), e.rngAdd, r.value)
    ensures r.None? ==> forall i :: !Wrong(e.Snap(), e.rngAdd, StringUnused(i))
    ensures r.None? ==> forall g :: !Wrong(e.Snap(), e.rngAdd, MatcherUnused(g))
  {
    hide Uses;
    for i := 0 to |e.decl|
      invariant forall k :: 0 <= k < i ==> e.decl[k].grp != 0
    {
      if e.decl[i].grp == 0 { return Some(StringUnused(i)); }
    }
    for i := 0 to |e.grp|
      invariant forall g :: 0 <= g < i ==> !Wrong(e.Snap(), e.rngAdd, MatcherUnused(g))
    {
      var used := 0;
      for k := 0 to |e.cnd|
        invariant used == 0 <==> forall j :: 0 <= j < k ==> !Uses(e.cnd[j].expr, i)
      {
        var u := CndUses(e.cnd[k], i);
        if u { used := used + 1; }
      }
      if used == 0 { return Some(MatcherUnused(i)); }
    }
    return None;
  }

  method RangesWrong(e: Draft) returns (r: Option<Refusal>)
    requires e.Valid() && |e.grp| <= 32
    ensures r.Some? ==> Wrong(e.Snap(), e.rngAdd, r.value)
    ensures r.None? ==> forall i :: !Wrong(e.Snap(), e.rngAdd, RangeUnused(i))
  {
    hide Mask, HasRange;
    ghost var m := e.Snap();
    for i := 0 to |e.rngAdd|
      invariant forall j :: 0 <= j < i ==> !Wrong(m, e.rngAdd, RangeUnused(j))
    {
      var used := 0;
      for k := 0 to |e.grp|
        invariant used == 0 <==> forall g :: 0 <= g < k ==> !Searches(m, g, e.rngAdd[i])
      {
        var has := GrpHasRange(e, k);
        var mask := GrpMask(e, k);
        assert Searches(m, k, e.rngAdd[i]) <==> has && mask == e.rngAdd[i];
        if has && mask == e.rngAdd[i] { used := used + 1; }
      }
      if used == 0 { return Some(RangeUnused(i)); }
    }
    return None;
  }

  /** Nothing is returned exactly when nothing is wrong, and what is returned is wrong. */
  method DraftMissing(e: Draft) returns (r: Option<Refusal>)
    requires e.Valid() && |e.grp| <= 32
    ensures r.None? <==> Accepted(e.Snap(), e.rngAdd)
    ensures r.Some? ==> Wrong(e.Snap(), e.rngAdd, r.value)
  {
    hide Wrong;
    var alike := TwoAlike(e);
    if alike { return Some(SameQuestion); }
    r := MatchersWrong(e);
    if r.Some? { return; }
    r := ConditionsWrong(e);
    if r.Some? { return; }
    r := LeftOver(e);
    if r.Some? { return; }
    r := RangesWrong(e);
    if r.None? {
      forall f: Refusal
        ensures !Wrong(e.Snap(), e.rngAdd, f)
      {
        match f {
          case SameQuestion => case NoString(_) => case AtTakesOne => case TooMany => case NoCondition =>
          case EmptyCondition => case StringUnused(_) => case MatcherUnused(_) => case RangeUnused(_) =>
        }
      }
    }
  }
}
