/** Matchers: one search call each, and when two of them can share it. */
module Matchers {
  import opened TargetC
  import opened DraftModel

  predicate IsAt(q: Group) { q.rule == 3 }

  predicate Bit(x: bv32, j: nat)
    requires j < 32
  {
    (x >> j) & 1 == 1
  }

  /** Marker `d` is one of matcher g's. */
  predicate InGrp(d: Decl, g: nat)
    requires g < 32
  {
    Bit(d.grp, g)
  }

  /** The markers of matcher g from number i on, in order. */
  function StrsFrom(m: Model, g: nat, i: nat): (r: seq<nat>)
    requires g < 32
    ensures forall s: nat :: s in r <==> i <= s < |m.decl| && InGrp(m.decl[s], g)
    ensures |r| <= if i < |m.decl| then |m.decl| - i else 0
    decreases |m.decl| - i
  {
    if i >= |m.decl| then [] else (if InGrp(m.decl[i], g) then [i] else []) + StrsFrom(m, g, i + 1)
  }

  function Strs(m: Model, g: nat): (r: seq<nat>)
    requires g < 32
    ensures forall s: nat :: s in r <==> s < |m.decl| && InGrp(m.decl[s], g)
    ensures |r| <= |m.decl|
  {
    StrsFrom(m, g, 0)
  }

  /** The union of the regions of the first i markers that are matcher g's. */
  function Need(m: Model, g: nat, i: nat): bv32
    requires g < 32 && i <= |m.decl|
  {
    if i == 0 then 0
    else if InGrp(m.decl[i - 1], g) then Need(m, g, i - 1) | m.decl[i - 1].mask
    else Need(m, g, i - 1)
  }

  /** The range matcher g searches: its own, or the union of its markers', or everything. */
  function Mask(m: Model, g: nat): bv32
    requires g < |m.grp| <= 32
  {
    if m.grp[g].mask != 0 then m.grp[g].mask
    else if Need(m, g, |m.decl|) != 0 then Need(m, g, |m.decl|) else SCAN_ALL
  }

  predicate HasRange(m: Model, g: nat)
    requires g < |m.grp| <= 32
  {
    !IsAt(m.grp[g]) && (Strs(m, g) != [] || m.grp[g].mask != 0)
  }

  function Threshold(m: Model, g: nat): nat
    requires g < |m.grp| <= 32
  {
    if IsAt(m.grp[g]) || m.grp[g].rule == 1 then 1
    else if m.grp[g].rule == 2 then m.grp[g].thresh
    else |Strs(m, g)|
  }

  /** a and b ask the same question: the same place or range, over the same markers. */
  predicate SameSet(m: Model, a: nat, b: nat)
    requires a < |m.grp| <= 32 && b < |m.grp|
  {
    a == b ||
    (&& IsAt(m.grp[a]) == IsAt(m.grp[b])
     && (if IsAt(m.grp[a]) then m.grp[a].place == m.grp[b].place else Mask(m, a) == Mask(m, b))
     && forall i :: 0 <= i < |m.decl| ==> InGrp(m.decl[i], a) == InGrp(m.decl[i], b))
  }

  /** The lowest-numbered matcher from i on that asks what g asks. */
  function LeadFrom(m: Model, g: nat, i: nat): (r: nat)
    requires i <= g < |m.grp| <= 32
    ensures i <= r <= g && SameSet(m, r, g)
    ensures forall j :: i <= j < r ==> !SameSet(m, j, g)
    decreases g - i
  {
    if i == g || SameSet(m, i, g) then i else LeadFrom(m, g, i + 1)
  }

  function Lead(m: Model, g: nat): (r: nat)
    requires g < |m.grp| <= 32
    ensures r <= g && SameSet(m, r, g)
    ensures forall j :: 0 <= j < r ==> !SameSet(m, j, g)
  {
    LeadFrom(m, g, 0)
  }

  /** At least two matchers ask it, and at least one of them needs the number. */
  predicate Shared(m: Model, g: nat)
    requires g < |m.grp| <= 32
  {
    && !IsAt(m.grp[g])
    && (exists i :: 0 <= i < |m.grp| && i != g && SameSet(m, i, g))
    && (exists i :: 0 <= i < |m.grp| && SameSet(m, i, g) && m.grp[i].rule == 2)
  }

  // ---- what a matcher means -----------------------------------------------------------

  /** The blocks a similarity matcher can be written from. */
  function Usable(m: Model, items: seq<SimItem>): seq<bv32> {
    if items == [] then []
    else (if items[0].what == SIM_IT_BLOCK && items[0].blk < |m.blk| then [m.blk[items[0].blk].id] else [])
         + Usable(m, items[1..])
  }

  /** Matcher g holds on an object - said without a word about calls, counters or sharing. */
  ghost predicate MatcherHolds(m: Model, g: nat, o: Obj)
    requires g < |m.grp| <= 32
  {
    var q := m.grp[g];
    if q.kind == Sim then
      Usable(m, q.sim) != [] && forall b :: b in Usable(m, q.sim) ==> o.score(b) >= q.pct
    else if IsAt(q) then Strs(m, g) != [] && o.at(q.place, Strs(m, g)[0])
    else if q.rule == 1 then exists s :: s in Strs(m, g) && o.found(Mask(m, g), s)
    else if q.rule == 2 then Hits(o, Mask(m, g), Strs(m, g)) >= q.thresh
    else forall s :: s in Strs(m, g) ==> o.found(Mask(m, g), s)
  }

  /** The counters hold what the declarations at the head of the body put there. */
  ghost predicate CountersSet(m: Model, o: Obj, vars: Vars)
    requires |m.grp| <= 32
  {
    forall g :: 0 <= g < |m.grp| && Shared(m, g) && Lead(m, g) == g ==>
      g in vars && vars[g] == Hits(o, Mask(m, g), Strs(m, g)) % 0x100
  }

  // ---- call sharing is sound ----------------------------------------------------------

  lemma SameSetEquivalence(m: Model, a: nat, b: nat, c: nat)
    requires a < |m.grp| <= 32 && b < |m.grp| && c < |m.grp|
    ensures SameSet(m, a, a)
    ensures SameSet(m, a, b) ==> SameSet(m, b, a)
    ensures SameSet(m, a, b) && SameSet(m, b, c) ==> SameSet(m, a, c)
  {
    if SameSet(m, a, b) && a != b {
      assert forall i :: 0 <= i < |m.decl| ==> InGrp(m.decl[i], b) == InGrp(m.decl[i], a);
    }
  }

  /** The lead is the class's canonical name. */
  lemma LeadCanonical(m: Model, a: nat, b: nat)
    requires a < |m.grp| <= 32 && b < |m.grp|
    ensures SameSet(m, a, b) <==> Lead(m, a) == Lead(m, b)
    ensures Lead(m, Lead(m, a)) == Lead(m, a)
  {
    var la, lb, ll := Lead(m, a), Lead(m, b), Lead(m, Lead(m, a));
    SameSetEquivalence(m, la, a, b);
    SameSetEquivalence(m, la, b, lb);
    SameSetEquivalence(m, lb, b, a);
    SameSetEquivalence(m, b, a, b);
    SameSetEquivalence(m, a, b, a);
    SameSetEquivalence(m, a, la, b);
    SameSetEquivalence(m, a, lb, b);
    SameSetEquivalence(m, ll, la, a);
  }

  lemma SharedOnClass(m: Model, a: nat, b: nat)
    requires a < |m.grp| <= 32 && b < |m.grp|
    requires SameSet(m, a, b)
    ensures Shared(m, a) == Shared(m, b)
  {
    SameSetEquivalence(m, a, b, a);
    if Shared(m, a) { SharedOneWay(m, a, b); }
    if Shared(m, b) { SharedOneWay(m, b, a); }
  }

  lemma SharedOneWay(m: Model, a: nat, b: nat)
    requires a < |m.grp| <= 32 && b < |m.grp|
    requires SameSet(m, a, b) && Shared(m, a)
    ensures Shared(m, b)
  {
    if a != b {
      var j :| 0 <= j < |m.grp| && SameSet(m, j, a) && m.grp[j].rule == 2;
      SameSetEquivalence(m, j, a, b);
    }
  }

  /** Matchers asking the same thing hold the same markers in the same order. */
  lemma {:induction false} SameSetStrs(m: Model, a: nat, b: nat, i: nat)
    requires a < |m.grp| <= 32 && b < |m.grp| && SameSet(m, a, b)
    ensures StrsFrom(m, a, i) == StrsFrom(m, b, i)
    decreases |m.decl| - i
  {
    if i < |m.decl| { SameSetStrs(m, a, b, i + 1); }
  }

  /** Which markers a matcher has, and where they are looked for, is theirs to say. */
  lemma {:induction false} StrsSame(m: Model, n: Model, g: nat, i: nat)
    requires m.decl == n.decl && g < 32 && i <= |m.decl|
    ensures StrsFrom(m, g, i) == StrsFrom(n, g, i)
    decreases |m.decl| - i
  {
    hide InGrp;
    if i < |m.decl| { StrsSame(m, n, g, i + 1); }
  }

  lemma {:induction false} NeedSame(m: Model, n: Model, g: nat, i: nat)
    requires m.decl == n.decl && g < 32 && i <= |m.decl|
    ensures Need(m, g, i) == Need(n, g, i)
    decreases i
  {
    hide InGrp;
    if i > 0 { NeedSame(m, n, g, i - 1); }
  }

  /** Whichever rule it has, a matcher compares one count with one number. */
  lemma HoldsByCount(m: Model, g: nat, o: Obj)
    requires g < |m.grp| <= 32 && m.grp[g].kind == Str && !IsAt(m.grp[g])
    ensures MatcherHolds(m, g, o) <==> Hits(o, Mask(m, g), Strs(m, g)) >= Threshold(m, g)
  {
    var h, strs := Hits(o, Mask(m, g), Strs(m, g)), Strs(m, g);
    assert h >= 1 <==> exists s :: s in strs && o.found(Mask(m, g), s);
    assert h >= |strs| <==> forall s :: s in strs ==> o.found(Mask(m, g), s);
  }

  /** A class's counter is declared once, by its lead, over the markers every member holds. */
  lemma LeadSpeaksFor(m: Model, g: nat)
    requires g < |m.grp| <= 32 && Shared(m, g)
    ensures Shared(m, Lead(m, g)) && Lead(m, Lead(m, g)) == Lead(m, g)
    ensures Mask(m, Lead(m, g)) == Mask(m, g) && Strs(m, Lead(m, g)) == Strs(m, g)
  {
    var l := Lead(m, g);
    LeadCanonical(m, g, g);
    SharedOnClass(m, l, g);
    SameSetStrs(m, l, g, 0);
  }

  lemma Fits8(n: nat)
    requires n < 0x100
    ensures n % 0x100 == n
  {
  }

  /** The 8-bit counter never wraps: a draft has at most 32 markers. */
  lemma CounterOf(m: Model, g: nat, o: Obj, vars: Vars)
    requires Bounded(m) && g < |m.grp| && Shared(m, g) && CountersSet(m, o, vars)
    ensures Lead(m, g) in vars
    ensures vars[Lead(m, g)] == Hits(o, Mask(m, g), Strs(m, g))
  {
    LeadSpeaksFor(m, g);
    var l, h := Lead(m, g), Hits(o, Mask(m, g), Strs(m, g));
    assert vars[l] == h % 0x100;
    Fits8(h);
  }

  /** Comparing the shared counter against the effective threshold answers what the matcher
      asks, whichever of all, any and multi it is. */
  lemma SharingSound(m: Model, g: nat, o: Obj, vars: Vars)
    requires Bounded(m) && g < |m.grp| && m.grp[g].kind == Str
    requires Shared(m, g) && CountersSet(m, o, vars)
    ensures Lead(m, g) in vars
    ensures vars[Lead(m, g)] >= Threshold(m, g) <==> MatcherHolds(m, g, o)
  {
    CounterOf(m, g, o, vars);
    HoldsByCount(m, g, o);
  }
}
