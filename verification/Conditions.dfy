/** The forest of conditions and what it means on an object. */
module Conditions {
  import opened TargetC
  import opened DraftModel
  import opened ExprSource
  import opened Matchers
  import opened ExprMeaning

  predicate HasKids(cnd: seq<Cond>, i: int) {
    exists k :: 0 <= k < |cnd| && cnd[k].parent == i
  }

  /** The next condition from k on with this parent, or the end. */
  function SibFrom(cnd: seq<Cond>, parent: int, k: nat): (r: nat)
    requires k <= |cnd|
    ensures k <= r <= |cnd|
    ensures r < |cnd| ==> cnd[r].parent == parent
    ensures forall j :: k <= j < r ==> cnd[j].parent != parent
    decreases |cnd| - k
  {
    if k == |cnd| || cnd[k].parent == parent then k else SibFrom(cnd, parent, k + 1)
  }

  function SibNext(cnd: seq<Cond>, i: nat): (r: nat)
    requires i < |cnd|
    ensures i < r <= |cnd|
  {
    SibFrom(cnd, cnd[i].parent, i + 1)
  }

  /** What a conjunction can be made of: no gate, and a text to test. */
  predicate Linkable(cnd: seq<Cond>, i: nat)
    requires i < |cnd|
  {
    !HasKids(cnd, i) && cnd[i].expr != ""
  }

  predicate Linked(cnd: seq<Cond>, i: nat)
    requires i < |cnd|
  {
    && cnd[i].join == JoinAnd && Linkable(cnd, i)
    && SibNext(cnd, i) < |cnd| && Linkable(cnd, SibNext(cnd, i))
  }

  /** The conditions conjoined with i, from i on, in order. */
  function Members(cnd: seq<Cond>, i: nat): (r: seq<nat>)
    requires i < |cnd|
    ensures r != [] && r[0] == i && r[|r| - 1] < |cnd|
    ensures forall x :: 0 <= x < |r| ==> i <= r[x] <= r[|r| - 1] && cnd[r[x]].parent == cnd[i].parent
    ensures |r| > 1 ==> forall x :: 0 <= x < |r| ==> Linkable(cnd, r[x])
    ensures forall j :: i <= j <= r[|r| - 1] && cnd[j].parent == cnd[i].parent ==> j in r
    decreases |cnd| - i
  {
    if Linked(cnd, i) then
      var rest := Members(cnd, SibNext(cnd, i));
      assert forall x :: x in [i] + rest <==> x == i || x in rest;
      [i] + rest
    else [i]
  }

  /** The last of them. */
  function RunEnd(cnd: seq<Cond>, i: nat): (r: nat)
    requires i < |cnd|
    ensures i <= r < |cnd|
  {
    var r := Members(cnd, i);
    r[|r| - 1]
  }

  /** The heads of the branches under p from index k on: its children, a conjoined run once. */
  function Heads(cnd: seq<Cond>, p: int, k: nat): (r: seq<nat>)
    requires k <= |cnd|
    ensures forall i :: 0 <= i < |r| ==> k <= r[i] < |cnd| && cnd[r[i]].parent == p
    decreases |cnd| - k
  {
    if k == |cnd| then []
    else if cnd[k].parent == p then [k] + Heads(cnd, p, RunEnd(cnd, k) + 1)
    else Heads(cnd, p, k + 1)
  }

  type Unit = u: seq<nat> | u != [] witness [0]

  // ---- meaning ------------------------------------------------------------------------

  function VariantOf(c: Cond): Variant {
    if c.varKind == 2 then Custom(c.variant) else if c.varKind == 1 then Generic else Auto
  }

  /** A branch that concluded: a level, or silence on purpose. */
  function Conclude(c: Cond): Outcome {
    if c.level == NoVerdict then Silent else Report(c.level, VariantOf(c))
  }

  /** A gate's own verdict, when no branch under it concluded. */
  function GateVerdict(c: Cond): Outcome {
    if c.level == NoVerdict then Fell else Report(c.level, VariantOf(c))
  }

  ghost predicate UnitIn(cnd: seq<Cond>, u: Unit, lo: nat) {
    forall x :: 0 <= x < |u| ==> lo <= u[x] < |cnd|
  }

  ghost predicate HeadsIn(cnd: seq<Cond>, heads: seq<nat>, lo: nat) {
    forall i :: 0 <= i < |heads| ==> lo <= heads[i] < |cnd|
  }

  ghost predicate RunHolds(m: Model, u: Unit, o: Obj)
    requires |m.grp| <= 32 && UnitIn(m.cnd, u, 0)
  {
    forall x :: 0 <= x < |u| ==> TextHolds(m, m.cnd[u[x]].expr, o)
  }

  /** A leaf concludes when its test holds; a gate that holds tries what is inside it and then
      speaks for itself. */
  ghost function CondMeaning(m: Model, i: nat, o: Obj): Outcome
    requires |m.grp| <= 32 && Forest(m.cnd) && i < |m.cnd|
    decreases |m.cnd| - i, 0, 0
  {
    var c := m.cnd[i];
    if !TextHolds(m, c.expr, o) then Fell
    else if !HasKids(m.cnd, i) then Conclude(c)
    else
      KidsAbove(m.cnd, i);
      var r := FirstOf(m, Heads(m.cnd, i, 0), i + 1, o);
      if r.Fell? then GateVerdict(c) else r
  }

  /** A conjoined run is one test with its last member's verdict. */
  ghost function UnitMeaning(m: Model, h: nat, o: Obj): Outcome
    requires |m.grp| <= 32 && Forest(m.cnd) && h < |m.cnd|
    decreases |m.cnd| - h, 1, 0
  {
    if |Members(m.cnd, h)| == 1 then CondMeaning(m, h, o)
    else if RunHolds(m, Members(m.cnd, h), o) then Conclude(m.cnd[RunEnd(m.cnd, h)])
    else Fell
  }

  /** Branches in order: the first that concludes is the only one that speaks. */
  ghost function FirstOf(m: Model, heads: seq<nat>, lo: nat, o: Obj): Outcome
    requires |m.grp| <= 32 && Forest(m.cnd) && lo <= |m.cnd| && HeadsIn(m.cnd, heads, lo)
    decreases |m.cnd| - lo, 2, |heads|
  {
    if heads == [] then Fell
    else
      var r := UnitMeaning(m, heads[0], o);
      if r.Fell? then FirstOf(m, heads[1..], lo, o) else r
  }

  lemma KidsAbove(cnd: seq<Cond>, i: nat)
    requires Forest(cnd) && i < |cnd|
    ensures HeadsIn(cnd, Heads(cnd, i, 0), i + 1)
  {
  }

  lemma {:induction false} NoHeads(cnd: seq<Cond>, i: nat, k: nat)
    requires k <= |cnd| && !HasKids(cnd, i)
    ensures Heads(cnd, i, k) == []
    decreases |cnd| - k
  {
    hide RunEnd;
    if k < |cnd| { NoHeads(cnd, i, k + 1); }
  }

  /** The branches in the order they are tried: strongest verdict first by the head of each,
      and within a level the order they were built in. */
  function ByLevel(cnd: seq<Cond>, heads: seq<nat>, level: Level): (r: seq<nat>)
    requires forall i :: 0 <= i < |heads| ==> heads[i] < |cnd|
    ensures forall i :: 0 <= i < |r| ==> r[i] < |cnd| && cnd[r[i]].level == level
    ensures forall h :: h in r ==> h in heads
  {
    if heads == [] then []
    else (if cnd[heads[0]].level == level then [heads[0]] else []) + ByLevel(cnd, heads[1..], level)
  }

  function Ordered(cnd: seq<Cond>): (r: seq<nat>)
    ensures forall i :: 0 <= i < |r| ==> r[i] < |cnd|
  {
    var heads := Heads(cnd, -1, 0);
    ByLevel(cnd, heads, Infect) + ByLevel(cnd, heads, Suspect) + ByLevel(cnd, heads, NoVerdict)
  }

  /** What the whole draft says about an object. */
  ghost function Meaning(m: Model, o: Obj): Outcome
    requires |m.grp| <= 32 && Forest(m.cnd)
  {
    if m.sizeMax.Some? && o.size > m.sizeMax.value then Silent
    else FirstOf(m, Ordered(m.cnd), 0, o)
  }
}
