/** The panel's edits of the draft itself, in place. */
module DraftEdits {
  import opened TargetC
  import opened DraftModel
  import opened ExprSource
  import opened ExprMeaning
  import opened Matchers
  import opened Conditions
  import opened IdList
  import opened IdRoom
  import opened IdEdits
  import opened Removal

  // ---- a draft means what its texts and its shape say ------------------------------------

  /** Two rows of conditions alike but for what their texts say. */
  ghost predicate SameShape(a: seq<Cond>, b: seq<Cond>) {
    && |a| == |b|
    && forall k :: 0 <= k < |a| ==> b[k] == a[k].(expr := b[k].expr) && (a[k].expr == "" <==> b[k].expr == "")
  }

  lemma {:induction false} ShapeSib(a: seq<Cond>, b: seq<Cond>, p: int, k: nat)
    requires SameShape(a, b) && k <= |a|
    ensures SibFrom(a, p, k) == SibFrom(b, p, k)
    decreases |a| - k
  {
    if k < |a| { ShapeSib(a, b, p, k + 1); }
  }

  lemma ShapeKids(a: seq<Cond>, b: seq<Cond>, i: int)
    requires SameShape(a, b)
    ensures HasKids(a, i) <==> HasKids(b, i)
  {
    if HasKids(a, i) { var k :| 0 <= k < |a| && a[k].parent == i; assert b[k].parent == i; }
    if HasKids(b, i) { var k :| 0 <= k < |b| && b[k].parent == i; assert a[k].parent == i; }
  }

  lemma {:induction false} ShapeMembers(a: seq<Cond>, b: seq<Cond>, i: nat)
    requires SameShape(a, b) && i < |a|
    ensures Members(a, i) == Members(b, i)
    decreases |a| - i
  {
    hide HasKids, SibFrom;
    ShapeSib(a, b, a[i].parent, i + 1);
    ShapeKids(a, b, i);
    var n := SibNext(a, i);
    ShapeKids(a, b, n);
    if n < |a| { ShapeMembers(a, b, n); }
  }

  lemma {:induction false} ShapeHeads(a: seq<Cond>, b: seq<Cond>, p: int, k: nat)
    requires SameShape(a, b) && k <= |a|
    ensures Heads(a, p, k) == Heads(b, p, k)
    decreases |a| - k
  {
    hide RunEnd, SameShape;
    ShapeLength(a, b);
    if k < |a| {
      ShapeRun(a, b, k);
      if a[k].parent == p { ShapeHeads(a, b, p, RunEnd(a, k) + 1); } else { ShapeHeads(a, b, p, k + 1); }
    }
  }

  lemma ShapeRun(a: seq<Cond>, b: seq<Cond>, k: nat)
    requires SameShape(a, b) && k < |a|
    ensures a[k].parent == b[k].parent && RunEnd(a, k) == RunEnd(b, k)
  {
    hide Members;
    ShapeMembers(a, b, k);
  }

  lemma {:induction false} ShapeLevel(a: seq<Cond>, b: seq<Cond>, heads: seq<nat>, level: Level)
    requires SameShape(a, b) && forall i :: 0 <= i < |heads| ==> heads[i] < |a|
    ensures ByLevel(a, heads, level) == ByLevel(b, heads, level)
    decreases |heads|
  {
    if heads != [] { ShapeLevel(a, b, heads[1..], level); }
  }

  lemma ShapeOrdered(a: seq<Cond>, b: seq<Cond>)
    requires SameShape(a, b)
    ensures Ordered(a) == Ordered(b)
  {
    hide ByLevel, Heads;
    ShapeHeads(a, b, -1, 0);
    var heads := Heads(a, -1, 0);
    ShapeLevel(a, b, heads, Infect);
    ShapeLevel(a, b, heads, Suspect);
    ShapeLevel(a, b, heads, NoVerdict);
  }

  ghost predicate SameTruth(m: Model, n: Model, o: Obj)
    requires |m.grp| <= 32 && |n.grp| <= 32 && |m.cnd| == |n.cnd|
  {
    forall k :: 0 <= k < |m.cnd| ==> (TextHolds(m, m.cnd[k].expr, o) <==> TextHolds(n, n.cnd[k].expr, o))
  }

  ghost predicate Alike(m: Model, n: Model, o: Obj) {
    && |m.grp| <= 32 && |n.grp| <= 32 && SameShape(m.cnd, n.cnd) && Forest(m.cnd) && Forest(n.cnd)
    && SameTruth(m, n, o)
  }

  lemma {:induction false} AlikeCond(m: Model, n: Model, i: nat, o: Obj)
    requires Alike(m, n, o) && i < |m.cnd|
    ensures CondMeaning(m, i, o) == CondMeaning(n, i, o)
    decreases |m.cnd| - i, 0, 0
  {
    hide TextHolds, HasKids, Heads, FirstOf;
    ShapeKids(m.cnd, n.cnd, i);
    ShapeHeads(m.cnd, n.cnd, i, 0);
    KidsAbove(m.cnd, i);
    AlikeFirst(m, n, Heads(m.cnd, i, 0), i + 1, o);
  }

  lemma {:induction false} AlikeUnit(m: Model, n: Model, h: nat, o: Obj)
    requires Alike(m, n, o) && h < |m.cnd|
    ensures UnitMeaning(m, h, o) == UnitMeaning(n, h, o)
    decreases |m.cnd| - h, 1, 0
  {
    hide TextHolds, CondMeaning, Members;
    ShapeMembers(m.cnd, n.cnd, h);
    AlikeCond(m, n, h, o);
  }

  lemma {:induction false} AlikeFirst(m: Model, n: Model, heads: seq<nat>, lo: nat, o: Obj)
    requires Alike(m, n, o) && lo <= |m.cnd| && HeadsIn(m.cnd, heads, lo)
    ensures FirstOf(m, heads, lo, o) == FirstOf(n, heads, lo, o)
    decreases |m.cnd| - lo, 2, |heads|
  {
    hide SameTruth, UnitMeaning, SameShape;
    ShapeLength(m.cnd, n.cnd);
    if heads != [] {
      AlikeUnit(m, n, heads[0], o);
      AlikeFirst(m, n, heads[1..], lo, o);
    }
  }

  lemma ShapeLength(a: seq<Cond>, b: seq<Cond>)
    requires SameShape(a, b)
    ensures |a| == |b|
  {
  }

  lemma AlikeMeaning(m: Model, n: Model, o: Obj)
    requires Alike(m, n, o) && m.sizeMax == n.sizeMax
    ensures Meaning(m, o) == Meaning(n, o)
  {
    hide FirstOf, Ordered, SameTruth;
    ShapeOrdered(m.cnd, n.cnd);
    AlikeFirst(m, n, Ordered(m.cnd), 0, o);
  }

  // ---- removing a matcher nothing names ---------------------------------------------------

  ghost predicate RowLists(m: Model) {
    forall k :: 0 <= k < |m.cnd| ==> RowList(m.cnd[k].expr, m.cnd[k].op, |m.grp|)
  }

  lemma {:induction false} DropNothing(g: nat, lits: seq<Lit>)
    requires FirstLit(lits, g + 1).None?
    ensures Changed(Drop, g, 0, lits) == lits
    decreases |lits|
  {
    if lits != [] {
      DropNothing(g, lits[1..]);
      assert [lits[0]] + lits[1..] == lits;
    }
  }

  lemma UnusedText(m: Model, g: nat, k: nat, o: Obj)
    requires g < |m.grp| <= MAX_GROUP && k < |m.cnd| && RowList(m.cnd[k].expr, m.cnd[k].op, |m.grp|)
    requires !Uses(m.cnd[k].expr, g)
    ensures var t := Without(m, g).cnd[k].expr;
      (t == "" <==> m.cnd[k].expr == "") && (TextHolds(Without(m, g), t, o) <==> TextHolds(m, m.cnd[k].expr, o))
  {
    hide Ids, Print, ListHolds, IdHolds, Holds, Without, FirstLit, Read;
    var c := m.cnd[k];
    RemovalKeepsCondition(m, g, k, o);
    DropNothing(g, Ids(c.expr));
    PrintNone(Ids(c.expr), c.op);
    if Ids(c.expr) != [] { var read := ListReads(Ids(c.expr), c.op); }
  }

  /** A matcher no condition names can go, and the draft says about every object what it said. */
  lemma RemovingUnusedKeepsMeaning(m: Model, g: nat, o: Obj)
    requires g < |m.grp| <= MAX_GROUP && Forest(m.cnd) && RowLists(m)
    requires forall k :: 0 <= k < |m.cnd| ==> !Uses(m.cnd[k].expr, g)
    ensures Forest(Without(m, g).cnd) && Meaning(Without(m, g), o) == Meaning(m, o)
  {
    hide RowList, Uses, TextHolds, Meaning;
    var n := Without(m, g);
    forall k | 0 <= k < |m.cnd|
      ensures (n.cnd[k].expr == "" <==> m.cnd[k].expr == "")
      ensures TextHolds(n, n.cnd[k].expr, o) <==> TextHolds(m, m.cnd[k].expr, o)
    {
      UnusedText(m, g, k, o);
    }
    AlikeMeaning(m, n, o);
  }

  // ---- the loops --------------------------------------------------------------------------

  lemma ShiftedNone(g: nat)
    ensures Shifted(g, []) == []
  {
  }

  lemma ShiftedCons(g: nat, l: Lit, rest: seq<Lit>, all: seq<Lit>)
    requires all == [l] + rest
    ensures Shifted(g, all) == (if l.n == g + 1 then [] else [if l.n > g + 1 then Lit(l.n - 1, l.neg) else l])
      + Shifted(g, rest)
  {
    assert all[1..] == rest;
  }

  /** One condition's ids renumbered, as grp_remove spells it. */
  method Renumber(c: Cond, g: nat) returns (out: string)
    ensures out == Renumbered(g, c.expr, c.op)
  {
    hide Ids, Shifted, Shift, Print, Kept, Item, Sep, Fit;
    ghost var all := Shifted(g, Ids(c.expr));
    ghost var done: seq<Lit> := [];
    PrintNone([], c.op);
    out := "";
    var p, found, lit, first := 0, true, Lit(0, false), true;
    assert c.expr[0..] == c.expr;
    assert [] + all == all;
    while true
      invariant p <= |c.expr| && all == done + Shifted(g, Ids(c.expr[p..]))
      invariant out == Print(done, c.op) && first == (done == [])
      invariant Kept(all, c.op, ID_ROOM, 0) == Kept(all, c.op, ID_ROOM, |done|)
      decreases |c.expr| - p
    {
      ghost var from := p;
      found, lit, p := NextId(c.expr, p);
      if !found { break; }
      ghost var rest := Shifted(g, Ids(c.expr[p..]));
      ShiftedCons(g, lit, Ids(c.expr[p..]), Ids(c.expr[from..]));
      if lit.n == g + 1 {
        assert [] + rest == rest;
        continue;
      }
      if lit.n > g + 1 { lit := Lit(lit.n - 1, lit.neg); }
      if |out| + ID_ROOM >= EXPR_ROOM {
        assert all[..|done|] == done;
        KeptHere(all, c.op, ID_ROOM, |done|);
        return;
      }
      FitStep(all, done, lit, rest, c.op, ID_ROOM);
      PrintAppend(done, lit, c.op);
      out := out + (if first then "" else Sep(c.op)) + Item(lit);
      first := false;
      done := done + [lit];
    }
    ShiftedNone(g);
    assert all == done && all[..|all|] == all;
    KeptHere(all, c.op, ID_ROOM, |all|);
  }

  method MoveMarkers(d: Draft, g: nat)
    requires g < MAX_GROUP
    modifies d`decl
    ensures |d.decl| == old(|d.decl|)
    ensures forall k :: 0 <= k < |d.decl| ==> d.decl[k] == MovedDecl(old(d.decl)[k], g)
  {
    hide MovedDecl;
    for i := 0 to |d.decl|
      invariant |d.decl| == old(|d.decl|)
      invariant forall k :: 0 <= k < i ==> d.decl[k] == MovedDecl(old(d.decl)[k], g)
      invariant forall k :: i <= k < |d.decl| ==> d.decl[k] == old(d.decl)[k]
    {
      d.decl := d.decl[i := MovedDecl(d.decl[i], g)];
    }
  }

  method RenumberAll(d: Draft, g: nat)
    modifies d`cnd
    ensures |d.cnd| == old(|d.cnd|)
    ensures forall k :: 0 <= k < |d.cnd| ==> d.cnd[k] == MovedCond(old(d.cnd)[k], g)
  {
    hide Renumbered;
    for k := 0 to |d.cnd|
      invariant |d.cnd| == old(|d.cnd|)
      invariant forall j :: 0 <= j < k ==> d.cnd[j] == MovedCond(old(d.cnd)[j], g)
      invariant forall j :: k <= j < |d.cnd| ==> d.cnd[j] == old(d.cnd)[j]
    {
      var text := Renumber(d.cnd[k], g);
      d.cnd := d.cnd[k := d.cnd[k].(expr := text)];
    }
  }

  /** Takes matcher g out of the draft; a number no matcher has changes nothing. */
  method GrpRemove(d: Draft, g: nat)
    requires d.Valid() && |d.grp| <= MAX_GROUP
    modifies d`decl, d`grp, d`cnd, d`curGrp
    ensures d.Valid()
    ensures g >= old(|d.grp|) ==> d.Snap() == old(d.Snap()) && d.curGrp == old(d.curGrp)
    ensures g < old(|d.grp|) ==> d.Snap() == Without(old(d.Snap()), g)
    ensures g < old(|d.grp|) && old(d.curGrp < |d.grp|) && |d.grp| > 0 ==> d.curGrp < |d.grp|
  {
    hide MovedDecl, MovedCond;
    if g >= |d.grp| { return; }
    ghost var was := d.Snap();
    MoveMarkers(d, g);
    RenumberAll(d, g);
    d.grp := d.grp[..g] + d.grp[g + 1..];
    if d.curGrp >= |d.grp| && |d.grp| > 0 { d.curGrp := |d.grp| - 1; }
    assert d.decl == Without(was, g).decl;
    assert d.cnd == Without(was, g).cnd;
  }

  // ---- conditions added and removed -------------------------------------------------------

  const NO_COND: Cond := Cond("", false, JoinOr, Infect, 0, "", -1)

  function Added(cnd: seq<Cond>, cur: nat, nested: bool): seq<Cond> {
    cnd + [NO_COND.(parent := if nested && cnd != [] then cur else -1)]
  }

  /** What a reference to a condition becomes once condition i is gone: its children come up to
      the top, and every later number moves down. */
  function Lifted(i: nat, parent: int): int {
    if parent == i then -1 else if parent > i then parent - 1 else parent
  }

  function Cut(cnd: seq<Cond>, i: nat): (r: seq<Cond>)
    requires i < |cnd|
    ensures |r| == |cnd| - 1
  {
    seq(|cnd| - 1, k requires 0 <= k < |cnd| - 1 => cnd[Was(i, k)].(parent := Lifted(i, cnd[Was(i, k)].parent)))
  }

  /** Where a surviving condition is now. */
  function Now(i: nat, k: nat): nat { if k < i then k else if k == i then 0 else k - 1 }

  /** Every survivor is what it was, and inside the condition it was inside - or at the top,
      when that is the one removed. */
  lemma CutKeepsParents(cnd: seq<Cond>, i: nat, k: nat)
    requires Forest(cnd) && i < |cnd| && k < |cnd| && k != i
    ensures var c := Cut(cnd, i)[Now(i, k)];
      && c == cnd[k].(parent := c.parent)
      && (c.parent == -1 <==> cnd[k].parent == -1 || cnd[k].parent == i)
      && (c.parent >= 0 ==>
            && cnd[k].parent >= 0 && c.parent == Now(i, cnd[k].parent) && Was(i, c.parent) == cnd[k].parent)
  {
  }

  /** A new condition at the end, inside the selected one when it is nested. */
  method CndAdd(d: Draft, nested: bool)
    modifies d`cnd, d`curCnd
    ensures old(|d.cnd|) >= MAX_GROUP ==> d.cnd == old(d.cnd) && d.curCnd == old(d.curCnd)
    ensures old(|d.cnd|) < MAX_GROUP ==>
      d.cnd == Added(old(d.cnd), old(d.curCnd), nested) && d.curCnd == |d.cnd| - 1
  {
    if |d.cnd| >= MAX_GROUP { return; }
    var c := NO_COND.(parent := if nested && |d.cnd| > 0 then d.curCnd else -1);
    d.curCnd := |d.cnd|;
    d.cnd := d.cnd + [c];
  }

  method CndRemove(d: Draft, i: nat)
    modifies d`cnd, d`curCnd
    ensures i >= old(|d.cnd|) ==> d.cnd == old(d.cnd) && d.curCnd == old(d.curCnd)
    ensures i < old(|d.cnd|) ==> d.cnd == Cut(old(d.cnd), i)
    ensures i < old(|d.cnd|) ==>
      d.curCnd == if old(d.curCnd) >= |d.cnd| && |d.cnd| > 0 then |d.cnd| - 1 else old(d.curCnd)
  {
    if i >= |d.cnd| { return; }
    ghost var was := d.cnd;
    for k := 0 to |d.cnd|
      invariant |d.cnd| == |was| && d.curCnd == old(d.curCnd)
      invariant forall j :: 0 <= j < k ==>
        d.cnd[j] == was[j].(parent := if was[j].parent == i then -1 else was[j].parent)
      invariant forall j :: k <= j < |was| ==> d.cnd[j] == was[j]
    {
      if d.cnd[k].parent == i { d.cnd := d.cnd[k := d.cnd[k].(parent := -1)]; }
    }
    ghost var mid := d.cnd;
    d.cnd := d.cnd[..i] + d.cnd[i + 1..];
    ghost var shut := d.cnd;
    assert forall j :: 0 <= j < |shut| ==> shut[j] == mid[Was(i, j)];
    for k := 0 to |d.cnd|
      invariant |d.cnd| == |shut| && d.curCnd == old(d.curCnd)
      invariant forall j :: 0 <= j < k ==> d.cnd[j] == Cut(was, i)[j]
      invariant forall j :: k <= j < |shut| ==> d.cnd[j] == shut[j]
    {
      if d.cnd[k].parent > i { d.cnd := d.cnd[k := d.cnd[k].(parent := d.cnd[k].parent - 1)]; }
    }
    if d.curCnd >= |d.cnd| && |d.cnd| > 0 { d.curCnd := |d.cnd| - 1; }
  }

  // ---- every sequence of them keeps a forest ----------------------------------------------

  datatype Edit = Add(nested: bool) | Remove(i: nat) | Select(i: nat)

  datatype Panel = Panel(cnd: seq<Cond>, cur: nat)

  function Step(p: Panel, e: Edit): Panel {
    match e
    case Add(nested) =>
      if |p.cnd| >= MAX_GROUP then p else Panel(Added(p.cnd, p.cur, nested), |p.cnd|)
    case Remove(i) =>
      if i >= |p.cnd| then p
      else
        var c := Cut(p.cnd, i);
        Panel(c, if p.cur >= |c| && |c| > 0 then |c| - 1 else p.cur)
    case Select(i) => if i < |p.cnd| then p.(cur := i) else p
  }

  function Run(p: Panel, edits: seq<Edit>): Panel
    decreases |edits|
  {
    if edits == [] then p else Run(Step(p, edits[0]), edits[1..])
  }

  ghost predicate Sound(p: Panel) {
    Forest(p.cnd) && |p.cnd| <= MAX_GROUP && (p.cnd != [] ==> p.cur < |p.cnd|)
  }

  lemma StepSound(p: Panel, e: Edit)
    requires Sound(p)
    ensures Sound(Step(p, e))
  {
  }

  /** Whatever is added, removed and selected, a condition only ever sits inside an earlier one,
      and the selection names a condition. */
  lemma {:induction false} EditsKeepForest(p: Panel, edits: seq<Edit>)
    requires Sound(p)
    ensures Sound(Run(p, edits))
    decreases |edits|
  {
    hide Step, Sound;
    if edits != [] {
      StepSound(p, edits[0]);
      EditsKeepForest(Step(p, edits[0]), edits[1..]);
    }
  }

  /** Removing the condition just added puts the rows back. */
  lemma AddThenRemove(cnd: seq<Cond>, cur: nat, nested: bool)
    requires Forest(cnd) && (cnd != [] ==> cur < |cnd|)
    ensures Cut(Added(cnd, cur, nested), |cnd|) == cnd
  {
  }
}
