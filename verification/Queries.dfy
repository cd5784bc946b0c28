/** The loops that answer questions about a draft, proved against the functions the rest of
    the model is stated in. */
module Queries {
  import opened TargetC
  import opened DraftModel
  import opened Matchers
  import opened Conditions

  method GrpCount(e: Draft, g: nat) returns (n: nat)
    requires e.Valid() && g < 32
    ensures n == |Strs(e.Snap(), g)|
  {
    ghost var m := e.Snap();
    n := 0;
    for i := 0 to |e.decl|
      invariant n + |StrsFrom(m, g, i)| == |Strs(m, g)|
    {
      if InGrp(e.decl[i], g) { n := n + 1; }
    }
  }

  method GrpMask(e: Draft, g: nat) returns (r: bv32)
    requires e.Valid() && g < |e.grp| <= 32
    ensures r == Mask(e.Snap(), g)
  {
    ghost var m := e.Snap();
    if e.grp[g].mask != 0 { return e.grp[g].mask; }
    var need: bv32 := 0;
    for i := 0 to |e.decl|
      invariant need == Need(m, g, i)
    {
      if InGrp(e.decl[i], g) { need := need | e.decl[i].mask; }
    }
    return if need != 0 then need else SCAN_ALL;
  }

  method GrpHasRange(e: Draft, g: nat) returns (r: bool)
    requires e.Valid() && g < |e.grp| <= 32
    ensures r == HasRange(e.Snap(), g)
  {
    if IsAt(e.grp[g]) { return false; }
    var n := GrpCount(e, g);
    return n != 0 || e.grp[g].mask != 0;
  }

  method GrpThreshEff(e: Draft, g: nat) returns (n: nat)
    requires e.Valid() && g < |e.grp| <= 32
    ensures n == Threshold(e.Snap(), g)
  {
    if IsAt(e.grp[g]) { return 1; }
    if e.grp[g].rule == 1 { return 1; }
    if e.grp[g].rule == 2 { return e.grp[g].thresh; }
    n := GrpCount(e, g);
  }

  method GrpSameSet(e: Draft, a: nat, b: nat) returns (r: bool)
    requires e.Valid() && a < |e.grp| <= 32 && b < |e.grp|
    ensures r == SameSet(e.Snap(), a, b)
  {
    if a == b { return true; }
    if IsAt(e.grp[a]) != IsAt(e.grp[b]) { return false; }
    if IsAt(e.grp[a]) {
      if e.grp[a].place.step != e.grp[b].place.step { return false; }
      if e.grp[a].place.anchor != e.grp[b].place.anchor { return false; }
    } else {
      var ma := GrpMask(e, a);
      var mb := GrpMask(e, b);
      if ma != mb { return false; }
    }
    for i := 0 to |e.decl|
      invariant forall j :: 0 <= j < i ==> InGrp(e.decl[j], a) == InGrp(e.decl[j], b)
    {
      if InGrp(e.decl[i], a) != InGrp(e.decl[i], b) { return false; }
    }
    return true;
  }

  method GrpLead(e: Draft, g: nat) returns (r: nat)
    requires e.Valid() && g < |e.grp| <= 32
    ensures r == Lead(e.Snap(), g)
  {
    ghost var m := e.Snap();
    for i := 0 to g
      invariant LeadFrom(m, g, i) == Lead(m, g)
    {
      var same := GrpSameSet(e, i, g);
      if same { return i; }
    }
    return g;
  }

  method GrpShared(e: Draft, g: nat) returns (r: bool)
    requires e.Valid() && g < |e.grp| <= 32
    ensures r == Shared(e.Snap(), g)
  {
    ghost var m := e.Snap();
    if IsAt(e.grp[g]) { return false; }
    var n, multi := 0, 0;
    ghost var others := 0;
    for i := 0 to |e.grp|
      invariant n == others + (if i > g then 1 else 0) && others >= 0 && multi >= 0
      invariant others > 0 <==> exists j :: 0 <= j < i && j != g && SameSet(m, j, g)
      invariant multi > 0 <==> exists j :: 0 <= j < i && SameSet(m, j, g) && m.grp[j].rule == 2
    {
      var same := GrpSameSet(e, i, g);
      if same {
        n := n + 1;
        if i != g { others := others + 1; }
        if e.grp[i].rule == 2 { multi := multi + 1; }
      }
    }
    return n > 1 && multi > 0;
  }

  method CndChildren(e: Draft, i: nat) returns (n: nat)
    ensures n != 0 <==> HasKids(e.cnd, i)
  {
    n := 0;
    for k := 0 to |e.cnd|
      invariant n != 0 <==> exists j :: 0 <= j < k && e.cnd[j].parent == i
    {
      if e.cnd[k].parent == i { n := n + 1; }
    }
  }

  method CndSibNext(e: Draft, i: nat) returns (r: nat)
    requires i < |e.cnd|
    ensures r == SibNext(e.cnd, i)
  {
    var k := i + 1;
    while k < |e.cnd|
      invariant i + 1 <= k <= |e.cnd|
      invariant SibFrom(e.cnd, e.cnd[i].parent, k) == SibNext(e.cnd, i)
    {
      if e.cnd[k].parent == e.cnd[i].parent { return k; }
      k := k + 1;
    }
    return |e.cnd|;
  }

  /** Where the run of conjoined conditions beginning at i ends. */
  method CndAndRun(e: Draft, i: nat) returns (cur: nat)
    ensures cur == if i < |e.cnd| then RunEnd(e.cnd, i) else i
  {
    cur := i;
    if i >= |e.cnd| { return; }
    while true
      invariant i <= cur < |e.cnd| && RunEnd(e.cnd, cur) == RunEnd(e.cnd, i)
      decreases |e.cnd| - cur
    {
      var kids := CndChildren(e, cur);
      if e.cnd[cur].join != JoinAnd || kids != 0 || e.cnd[cur].expr == "" { return; }
      var nx := CndSibNext(e, cur);
      if nx >= |e.cnd| { return; }
      kids := CndChildren(e, nx);
      if kids != 0 || e.cnd[nx].expr == "" { return; }
      assert Members(e.cnd, cur) == [cur] + Members(e.cnd, nx);
      cur := nx;
    }
  }
}
