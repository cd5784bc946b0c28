/** Taking a matcher or a condition out of a draft, and putting every reference right. */
module Removal {
  import opened TargetC
  import opened DraftModel
  import opened ExprSource
  import opened ExprTokens
  import opened ExprMeaning
  import opened Matchers
  import opened Conditions
  import opened IdList
  import opened IdRoom
  import opened IdEdits

  // ---- a marker's bits --------------------------------------------------------------------

  /** Bit g goes and every bit above it moves down one. */
  function Splice(x: bv32, g: nat): bv32
    requires g < MAX_GROUP
  {
    (x & ((1 << g) - 1)) | ((x >> (g + 1)) << g)
  }

  /** The number the matcher now at j had before g was taken out. */
  function Was(g: nat, j: nat): nat { if j < g then j else j + 1 }

  lemma Splice0(x: bv32, j: nat)
    requires j < 7
    ensures Bit(Splice(x, 0), j) == Bit(x, j + 1)
  {
    assert j == 0 || j == 1 || j == 2 || j == 3 || j == 4 || j == 5 || j == 6;
  }

  lemma Splice1(x: bv32, j: nat)
    requires j < 7
    ensures Bit(Splice(x, 1), j) == Bit(x, if j < 1 then j else j + 1)
  {
    assert j == 0 || j == 1 || j == 2 || j == 3 || j == 4 || j == 5 || j == 6;
  }

  lemma Splice2(x: bv32, j: nat)
    requires j < 7
    ensures Bit(Splice(x, 2), j) == Bit(x, if j < 2 then j else j + 1)
  {
    assert j == 0 || j == 1 || j == 2 || j == 3 || j == 4 || j == 5 || j == 6;
  }

  lemma Splice3(x: bv32, j: nat)
    requires j < 7
    ensures Bit(Splice(x, 3), j) == Bit(x, if j < 3 then j else j + 1)
  {
    assert j == 0 || j == 1 || j == 2 || j == 3 || j == 4 || j == 5 || j == 6;
  }

  lemma Splice4(x: bv32, j: nat)
    requires j < 7
    ensures Bit(Splice(x, 4), j) == Bit(x, if j < 4 then j else j + 1)
  {
    assert j == 0 || j == 1 || j == 2 || j == 3 || j == 4 || j == 5 || j == 6;
  }

  lemma Splice5(x: bv32, j: nat)
    requires j < 7
    ensures Bit(Splice(x, 5), j) == Bit(x, if j < 5 then j else j + 1)
  {
    assert j == 0 || j == 1 || j == 2 || j == 3 || j == 4 || j == 5 || j == 6;
  }

  lemma Splice6(x: bv32, j: nat)
    requires j < 7
    ensures Bit(Splice(x, 6), j) == Bit(x, if j < 6 then j else j + 1)
  {
    assert j == 0 || j == 1 || j == 2 || j == 3 || j == 4 || j == 5 || j == 6;
  }

  lemma Splice7(x: bv32, j: nat)
    requires j < 7
    ensures Bit(Splice(x, 7), j) == Bit(x, j)
  {
    assert j == 0 || j == 1 || j == 2 || j == 3 || j == 4 || j == 5 || j == 6;
  }

  lemma SpliceBit(x: bv32, g: nat, j: nat)
    requires g < MAX_GROUP && j < 7
    ensures Bit(Splice(x, g), j) == Bit(x, Was(g, j))
  {
    hide Splice, Bit;
    if g == 0 {
      Splice0(x, j);
    } else if g == 1 {
      Splice1(x, j);
    } else if g == 2 {
      Splice2(x, j);
    } else if g == 3 {
      Splice3(x, j);
    } else if g == 4 {
      Splice4(x, j);
    } else if g == 5 {
      Splice5(x, j);
    } else if g == 6 {
      Splice6(x, j);
    } else {
      Splice7(x, j);
    }
  }
  /** x has no bit from n up. */
  predicate NoneFrom(x: bv32, n: nat)
    requires n < 32
  {
    x >> n == 0
  }

  lemma SpliceBelow1(x: bv32, g: nat)
    requires g < 1 && NoneFrom(x, 1)
    ensures NoneFrom(Splice(x, g), 0)
  {
    
  }

  lemma SpliceBelow2(x: bv32, g: nat)
    requires g < 2 && NoneFrom(x, 2)
    ensures NoneFrom(Splice(x, g), 1)
  {
    if g == 0 { } else { }
  }

  lemma SpliceBelow3(x: bv32, g: nat)
    requires g < 3 && NoneFrom(x, 3)
    ensures NoneFrom(Splice(x, g), 2)
  {
    if g == 0 { } else if g == 1 { } else { }
  }

  lemma SpliceBelow4(x: bv32, g: nat)
    requires g < 4 && NoneFrom(x, 4)
    ensures NoneFrom(Splice(x, g), 3)
  {
    assert g == 0 || g == 1 || g == 2 || g == 3;
  }

  lemma SpliceBelow5(x: bv32, g: nat)
    requires g < 5 && NoneFrom(x, 5)
    ensures NoneFrom(Splice(x, g), 4)
  {
    assert g == 0 || g == 1 || g == 2 || g == 3 || g == 4;
  }

  lemma SpliceBelow6(x: bv32, g: nat)
    requires g < 6 && NoneFrom(x, 6)
    ensures NoneFrom(Splice(x, g), 5)
  {
    assert g == 0 || g == 1 || g == 2 || g == 3 || g == 4 || g == 5;
  }

  lemma SpliceBelow7(x: bv32, g: nat)
    requires g < 7 && NoneFrom(x, 7)
    ensures NoneFrom(Splice(x, g), 6)
  {
    assert g == 0 || g == 1 || g == 2 || g == 3 || g == 4 || g == 5 || g == 6;
  }

  lemma SpliceBelow8(x: bv32, g: nat)
    requires g < 8 && NoneFrom(x, 8)
    ensures NoneFrom(Splice(x, g), 7)
  {
    assert g == 0 || g == 1 || g == 2 || g == 3 || g == 4 || g == 5 || g == 6 || g == 7;
  }

  lemma SpliceBelow(x: bv32, n: nat, g: nat)
    requires g < n <= MAX_GROUP && NoneFrom(x, n)
    ensures NoneFrom(Splice(x, g), n - 1)
  {
    hide Splice, NoneFrom;
    if n == 1 {
      SpliceBelow1(x, g);
    } else if n == 2 {
      SpliceBelow2(x, g);
    } else if n == 3 {
      SpliceBelow3(x, g);
    } else if n == 4 {
      SpliceBelow4(x, g);
    } else if n == 5 {
      SpliceBelow5(x, g);
    } else if n == 6 {
      SpliceBelow6(x, g);
    } else if n == 7 {
      SpliceBelow7(x, g);
    } else {
      SpliceBelow8(x, g);
    }
  }

  // ---- a condition's ids ------------------------------------------------------------------

  function Shift(g: nat, l: Lit): seq<Lit> {
    if l.n == g + 1 then [] else if l.n > g + 1 then [Lit(l.n - 1, l.neg)] else [l]
  }

  function Shifted(g: nat, lits: seq<Lit>): seq<Lit> {
    if lits == [] then [] else Shift(g, lits[0]) + Shifted(g, lits[1..])
  }

  function Renumbered(g: nat, text: string, op: bool): string { Fit(Shifted(g, Ids(text)), op, ID_ROOM) }

  lemma {:induction false} ShiftedFrom(g: nat, lits: seq<Lit>, l: Lit)
    requires l in Shifted(g, lits)
    ensures Lit(Back(g, l.n), l.neg) in lits
    decreases |lits|
  {
    var r := Shifted(g, lits[1..]);
    if l in r {
      ShiftedFrom(g, lits[1..], l);
    } else {
      assert l in Shift(g, lits[0]);
    }
  }

  lemma {:induction false} ShiftedDistinct(g: nat, lits: seq<Lit>)
    requires Distinct(lits)
    ensures Distinct(Shifted(g, lits))
    decreases |lits|
  {
    if lits != [] {
      var t, l := lits[1..], lits[0];
      var r := Shifted(g, t);
      assert lits == [l] + t;
      DistinctCons(l, t);
      ShiftedDistinct(g, t);
      forall x | x in r
        ensures Lit(Back(g, x.n), x.neg) in t
      {
        ShiftedFrom(g, t, x);
      }
      ShiftedHead(g, l, t, r);
    }
  }

  lemma ShiftedHead(g: nat, l: Lit, t: seq<Lit>, r: seq<Lit>)
    requires Distinct(r) && (forall x :: x in t ==> x.n != l.n)
    requires forall x :: x in r ==> Lit(Back(g, x.n), x.neg) in t
    ensures Distinct(Shift(g, l) + r)
  {
    hide Distinct;
    assert [] + r == r;
    if l.n != g + 1 { DistinctCons(Shift(g, l)[0], r); }
  }

  /** Number n of the survivors had number Back(g, n) before. */
  function Back(g: nat, n: nat): nat { if n <= g then n else n + 1 }

  lemma {:induction false} ShiftedFirst(g: nat, lits: seq<Lit>, n: nat)
    ensures FirstLit(Shifted(g, lits), n)
         == (var was := FirstLit(lits, Back(g, n)); if was.Some? then Some(Lit(n, was.value.neg)) else None)
    decreases |lits|
  {
    if lits != [] {
      var r := Shifted(g, lits[1..]);
      ShiftedFirst(g, lits[1..], n);
      assert [] + r == r;
      if lits[0].n != g + 1 { FirstLitHead(Shift(g, lits[0])[0], r, n); }
    }
  }

  // ---- the whole draft --------------------------------------------------------------------

  function MovedDecl(d: Decl, g: nat): Decl
    requires g < MAX_GROUP
  {
    d.(grp := Splice(d.grp, g))
  }

  function MovedCond(c: Cond, g: nat): Cond { c.(expr := Renumbered(g, c.expr, c.op)) }

  function WithoutGrp(grp: seq<Group>, g: nat): seq<Group>
    requires g < |grp|
  {
    grp[..g] + grp[g + 1..]
  }

  function Without(m: Model, g: nat): (r: Model)
    requires g < |m.grp| <= MAX_GROUP
    ensures |r.grp| == |m.grp| - 1 && |r.decl| == |m.decl| && |r.cnd| == |m.cnd| && r.blk == m.blk
    ensures forall j :: 0 <= j < |r.grp| ==> r.grp[j] == m.grp[Was(g, j)]
  {
    m.(decl := seq(|m.decl|, i requires 0 <= i < |m.decl| => MovedDecl(m.decl[i], g)),
       grp := WithoutGrp(m.grp, g),
       cnd := seq(|m.cnd|, i requires 0 <= i < |m.cnd| => MovedCond(m.cnd[i], g)))
  }

  /** Every marker belongs to the same surviving matchers as before. */
  lemma MarkersKeep(m: Model, g: nat, i: nat, j: nat)
    requires g < |m.grp| <= MAX_GROUP && i < |m.decl| && j < |m.grp| - 1
    ensures InGrp(Without(m, g).decl[i], j) == InGrp(m.decl[i], Was(g, j))
  {
    hide Splice, Bit;
    SpliceBit(m.decl[i].grp, g, j);
  }

  /** No marker says it belongs to a matcher the draft does not have. */
  ghost predicate BitsBelow(m: Model)
    requires |m.grp| <= MAX_GROUP
  {
    forall i :: 0 <= i < |m.decl| ==> NoneFrom(m.decl[i].grp, |m.grp|)
  }

  lemma RemovalKeepsBitsBelow(m: Model, g: nat)
    requires g < |m.grp| <= MAX_GROUP && BitsBelow(m)
    ensures BitsBelow(Without(m, g))
  {
    hide Splice, NoneFrom;
    forall i | 0 <= i < |m.decl|
      ensures NoneFrom(Splice(m.decl[i].grp, g), |m.grp| - 1)
    {
      SpliceBelow(m.decl[i].grp, |m.grp|, g);
    }
  }

  lemma {:induction false} StrsKeep(m: Model, g: nat, j: nat, i: nat)
    requires g < |m.grp| <= MAX_GROUP && j < |m.grp| - 1
    ensures StrsFrom(Without(m, g), j, i) == StrsFrom(m, Was(g, j), i)
    decreases |m.decl| - i
  {
    hide InGrp, MovedDecl, MovedCond;
    if i < |m.decl| {
      MarkersKeep(m, g, i, j);
      StrsKeep(m, g, j, i + 1);
    }
  }

  lemma {:induction false} NeedKeeps(m: Model, g: nat, j: nat, i: nat)
    requires g < |m.grp| <= MAX_GROUP && j < |m.grp| - 1 && i <= |m.decl|
    ensures Need(Without(m, g), j, i) == Need(m, Was(g, j), i)
    decreases i
  {
    hide InGrp;
    if i > 0 {
      MarkersKeep(m, g, i - 1, j);
      NeedKeeps(m, g, j, i - 1);
    }
  }

  lemma {:induction false} UsableKeeps(a: Model, b: Model, items: seq<SimItem>)
    requires a.blk == b.blk
    ensures Usable(a, items) == Usable(b, items)
    decreases |items|
  {
    if items != [] { UsableKeeps(a, b, items[1..]); }
  }

  /** Every surviving matcher asks what it asked. */
  lemma MatcherKeeps(m: Model, g: nat, j: nat, o: Obj)
    requires g < |m.grp| <= MAX_GROUP && j < |m.grp| - 1
    ensures MatcherHolds(Without(m, g), j, o) <==> MatcherHolds(m, Was(g, j), o)
  {
    hide Without, Usable, Hits, Mask, Strs;
    MaskKeeps(m, g, j);
    UsableKeeps(m, Without(m, g), m.grp[Was(g, j)].sim);
  }

  lemma MaskKeeps(m: Model, g: nat, j: nat)
    requires g < |m.grp| <= MAX_GROUP && j < |m.grp| - 1
    ensures Strs(Without(m, g), j) == Strs(m, Was(g, j)) && Mask(Without(m, g), j) == Mask(m, Was(g, j))
  {
    hide InGrp, StrsFrom, Need, MovedCond, MovedDecl;
    StrsKeep(m, g, j, 0);
    NeedKeeps(m, g, j, |m.decl|);
  }

  lemma IdKeeps(m: Model, g: nat, n: nat, o: Obj)
    requires g < |m.grp| <= MAX_GROUP
    ensures IdHolds(Without(m, g), n, o) <==> IdHolds(m, Back(g, n), o)
  {
    hide MatcherHolds, MovedCond, MovedDecl;
    if 1 <= n < |m.grp| { MatcherKeeps(m, g, n - 1, o); }
  }

  /** The renumbered list says what the old one said with g's literal deleted. */
  lemma {:induction false} ListKeeps(m: Model, g: nat, op: bool, lits: seq<Lit>, o: Obj)
    requires g < |m.grp| <= MAX_GROUP
    ensures ListHolds(op, Shifted(g, lits), Lits(Without(m, g), o))
       <==> ListHolds(op, Changed(Drop, g, 0, lits), Lits(m, o))
    decreases |lits|
  {
    hide Without, IdHolds;
    if lits == [] {
      assert Shifted(g, lits) == [] == Changed(Drop, g, 0, lits);
    } else {
      hide ListHolds;
      var a, b := Shifted(g, lits[1..]), Changed(Drop, g, 0, lits[1..]);
      ListKeeps(m, g, op, lits[1..], o);
      if lits[0].n == g + 1 {
        assert [] + a == a && [] + b == b;
      } else {
        var l := Shift(g, lits[0])[0];
        assert Back(g, l.n) == lits[0].n && l.neg == lits[0].neg;
        IdKeeps(m, g, l.n, o);
        HoldsHead(op, l, a, Lits(Without(m, g), o));
        HoldsHead(op, lits[0], b, Lits(m, o));
      }
    }
  }

  lemma HoldsHead(op: bool, l: Lit, rest: seq<Lit>, lit: nat -> bool)
    ensures var h := lit(l.n) != l.neg;
      ListHolds(op, [l] + rest, lit) <==> if op then h || ListHolds(op, rest, lit) else h && ListHolds(op, rest, lit)
  {
    ListHoldsCons(op, [l] + rest, lit);
    assert ([l] + rest)[1..] == rest;
  }

  lemma {:induction false} SameEmpty(g: nat, lits: seq<Lit>)
    ensures Shifted(g, lits) == [] <==> Changed(Drop, g, 0, lits) == []
    decreases |lits|
  {
    if lits != [] { SameEmpty(g, lits[1..]); }
  }

  /** A row's list stays one - nothing cut off, every sign kept - ... */
  lemma RemovalKeepsList(text: string, op: bool, nGrp: nat, g: nat, j: nat)
    requires g < nGrp <= MAX_GROUP && RowList(text, op, nGrp)
    ensures var t := Renumbered(g, text, op);
      && RowList(t, op, nGrp - 1) && Ids(t) == Shifted(g, Ids(text))
      && Uses(t, j) == Uses(text, Was(g, j)) && Negated(t, j) == Negated(text, Was(g, j))
  {
    hide Ids, Fit, Print, FirstLit, Shifted;
    var lits := Ids(text);
    var r := Shifted(g, lits);
    ShiftedDistinct(g, lits);
    forall i | 0 <= i < |r|
      ensures 1 <= r[i].n <= nGrp - 1
    {
      ShiftedFrom(g, lits, r[i]);
      var was := Lit(Back(g, r[i].n), r[i].neg);
      var k :| 0 <= k < |lits| && lits[k] == was;
    }
    RowListOf(r, op, nGrp - 1);
    ShiftedFirst(g, lits, j + 1);
  }

  /** ... and holds exactly when the old one would with g's literal deleted; empty once g was
      all it had. */
  lemma RemovalKeepsCondition(m: Model, g: nat, k: nat, o: Obj)
    requires g < |m.grp| <= MAX_GROUP && k < |m.cnd| && RowList(m.cnd[k].expr, m.cnd[k].op, |m.grp|)
    ensures var c := m.cnd[k]; var t := Without(m, g).cnd[k].expr;
      var lits := Changed(Drop, g, 0, Ids(c.expr));
      && (t == "" <==> lits == [])
      && (t != "" ==> (TextHolds(Without(m, g), t, o) <==> ListHolds(c.op, lits, Lits(m, o))))
  {
    hide Ids, Print, Shifted, Changed, ListHolds, IdHolds, Holds;
    var c, m' := m.cnd[k], Without(m, g);
    var t, r := m'.cnd[k].expr, Shifted(g, Ids(c.expr));
    RemovalKeepsList(c.expr, c.op, |m.grp|, g, 0);
    assert t == Print(r, c.op);
    PrintNone(r, c.op);
    SameEmpty(g, Ids(c.expr));
    ListKeeps(m, g, c.op, Ids(c.expr), o);
    if r != [] { var read := ListReads(r, c.op); }
  }
}
