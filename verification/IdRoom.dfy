/** Whether a rewritten id list fits its 64-byte field, and what the row's edits keep. */
module IdRoom {
  import opened DraftModel
  import opened ExprSource
  import opened IdList
  import opened TargetC

  // ---- when the room check cuts a list ----------------------------------------------------

  lemma {:induction false} PrintGrows(lits: seq<Lit>, op: bool, k: nat)
    requires k < |lits|
    ensures |Print(lits[..k], op)| < |Print(lits, op)|
    ensures |Print(lits[..k], op)| <= |Print(lits[..|lits| - 1], op)|
    decreases |lits|
  {
    hide Item, Sep;
    var init := lits[..|lits| - 1];
    ItemSome(lits[|lits| - 1]);
    if k < |init| {
      PrintGrows(init, op, k);
      assert init[..k] == lits[..k];
    } else {
      assert lits[..k] == init;
    }
  }

  lemma ItemSome(l: Lit)
    ensures |Item(l)| >= 1
  {
  }

  /** The list is written whole exactly when there is room left before its last id. */
  lemma FitExact(lits: seq<Lit>, op: bool, room: nat)
    requires room < EXPR_ROOM
    ensures Fit(lits, op, room) == Print(lits, op)
       <==> lits == [] || |Print(lits[..|lits| - 1], op)| + room < EXPR_ROOM
  {
    hide Print;
    var n := Kept(lits, op, room, 0);
    KeptStops(lits, op, room, 0);
    if lits == [] {
      assert lits[..n] == lits;
    } else if |Print(lits[..|lits| - 1], op)| + room < EXPR_ROOM {
      if n < |lits| { PrintGrows(lits, op, n); }
      assert lits[..|lits|] == lits;
    } else {
      KeptBefore(lits, op, room, 0, |lits| - 1);
      PrintGrows(lits, op, n);
    }
  }

  lemma {:induction false} KeptStops(lits: seq<Lit>, op: bool, room: nat, k: nat)
    requires k <= |lits|
    ensures var n := Kept(lits, op, room, k);
      && (n < |lits| ==> |Print(lits[..n], op)| + room >= EXPR_ROOM)
      && (n > k ==> |Print(lits[..n - 1], op)| + room < EXPR_ROOM)
    decreases |lits| - k
  {
    hide Print;
    if !(k == |lits| || |Print(lits[..k], op)| + room >= EXPR_ROOM) { KeptStops(lits, op, room, k + 1); }
  }

  lemma {:induction false} KeptBefore(lits: seq<Lit>, op: bool, room: nat, k: nat, x: nat)
    requires k <= x <= |lits| && |Print(lits[..x], op)| + room >= EXPR_ROOM
    ensures Kept(lits, op, room, k) <= x
    decreases |lits| - k
  {
    hide Print;
    if k < x { KeptBefore(lits, op, room, k + 1, x); }
  }

  // ---- twenty-two columns are enough for one id -------------------------------------------

  function Pow10(k: nat): nat { if k == 0 then 1 else 10 * Pow10(k - 1) }

  lemma {:induction false} DecWidth(n: nat, k: nat)
    requires k >= 1 && n < Pow10(k)
    ensures |Dec(n)| <= k
    decreases k
  {
    if n >= 10 { DecWidth(n / 10, k - 1); }
  }

  lemma PowTwenty()
    ensures ULONG_MAX < Pow10(20)
  {
    assert Pow10(4) == 10000;
    assert Pow10(8) == 1_0000_0000;
    assert Pow10(12) == 1_0000_0000_0000;
    assert Pow10(16) == 1_0000_0000_0000_0000;
  }

  lemma ItemWidth(l: Lit)
    ensures l.n <= ULONG_MAX ==> |Item(l)| <= 21
    ensures l.n < 10 ==> |Item(l)| <= 2
  {
    if l.n < 10 {
      DecWidth(l.n, 1);
    } else if l.n <= ULONG_MAX {
      PowTwenty();
      DecWidth(l.n, 20);
    }
  }

  /** A rewritten text always ends inside its field. */
  lemma FitInField(lits: seq<Lit>, op: bool)
    requires Held(lits)
    ensures |Fit(lits, op, ID_ROOM)| < EXPR_ROOM
  {
    hide Item;
    var n := Kept(lits, op, ID_ROOM, 0);
    KeptStops(lits, op, ID_ROOM, 0);
    if n > 0 {
      ItemWidth(lits[n - 1]);
      assert lits[..n][..n - 1] == lits[..n - 1];
    }
  }

  // ---- a duplicate-free list always fits --------------------------------------------------

  /** At most one literal per matcher a draft can have. */
  ghost predicate Small(lits: seq<Lit>) {
    |lits| <= MAX_GROUP && forall i :: 0 <= i < |lits| ==> 1 <= lits[i].n < 10
  }

  lemma {:induction false} SmallWidth(lits: seq<Lit>, op: bool)
    requires forall i :: 0 <= i < |lits| ==> 1 <= lits[i].n < 10
    ensures |Print(lits, op)| <= 3 * |lits|
    decreases |lits|
  {
    hide Item;
    if lits != [] {
      SmallWidth(lits[..|lits| - 1], op);
      ItemWidth(lits[|lits| - 1]);
    }
  }

  /** Neither room check can cut it. */
  lemma SmallFits(lits: seq<Lit>, op: bool)
    requires Small(lits)
    ensures Fit(lits, op, ID_ROOM) == Print(lits, op) == Fit(lits, op, CANON_ROOM)
    ensures Ids(Print(lits, op)) == lits && |Print(lits, op)| < EXPR_ROOM
  {
    hide Fit;
    if lits != [] { SmallWidth(lits[..|lits| - 1], op); }
    SmallWidth(lits, op);
    FitExact(lits, op, ID_ROOM);
    FitExact(lits, op, CANON_ROOM);
    IdsPrint(lits, op);
  }

  ghost predicate Distinct(lits: seq<Lit>) {
    forall i, j :: 0 <= i < j < |lits| ==> lits[i].n != lits[j].n
  }

  function Upto(n: nat): (r: set<nat>)
    ensures forall x :: x in r <==> 1 <= x <= n
    ensures |r| == n
  {
    if n == 0 then {} else Upto(n - 1) + {n}
  }

  function Numbers(lits: seq<Lit>): set<nat> { set i | 0 <= i < |lits| :: lits[i].n }

  lemma {:induction false} DistinctCount(lits: seq<Lit>)
    requires Distinct(lits)
    ensures |Numbers(lits)| == |lits|
    decreases |lits|
  {
    if lits != [] {
      var init, l := lits[..|lits| - 1], lits[|lits| - 1];
      DistinctCount(init);
      assert Numbers(lits) == Numbers(init) + {l.n};
    }
  }

  /** No matcher twice, so no more literals than matchers. */
  lemma DistinctSmall(lits: seq<Lit>, nGrp: nat)
    requires Distinct(lits) && nGrp <= MAX_GROUP
    requires forall i :: 0 <= i < |lits| ==> 1 <= lits[i].n <= nGrp
    ensures Small(lits)
  {
    DistinctCount(lits);
    var all := Upto(nGrp);
    assert Numbers(lits) <= all;
    assert all == Numbers(lits) + (all - Numbers(lits));
  }

  /** A list the row itself could have built: each matcher at most once, joined by the one
      word. */
  ghost predicate RowList(text: string, op: bool, nGrp: nat) {
    && text == Print(Ids(text), op)
    && Distinct(Ids(text))
    && forall i :: 0 <= i < |Ids(text)| ==> 1 <= Ids(text)[i].n <= nGrp
  }

  lemma RowListOf(lits: seq<Lit>, op: bool, nGrp: nat)
    requires Distinct(lits) && nGrp <= MAX_GROUP
    requires forall i :: 0 <= i < |lits| ==> 1 <= lits[i].n <= nGrp
    ensures RowList(Print(lits, op), op, nGrp) && Ids(Print(lits, op)) == lits
    ensures Fit(lits, op, ID_ROOM) == Print(lits, op) == Fit(lits, op, CANON_ROOM)
  {
    DistinctSmall(lits, nGrp);
    SmallFits(lits, op);
  }

  // ---- the canonical list -----------------------------------------------------------------

  lemma {:induction false} FirstLitSome(lits: seq<Lit>, n: nat)
    ensures FirstLit(lits, n).Some? <==> exists i :: 0 <= i < |lits| && lits[i].n == n
    ensures FirstLit(lits, n).Some? ==> FirstLit(lits, n).value in lits && FirstLit(lits, n).value.n == n
    decreases |lits|
  {
    if lits != [] && lits[0].n != n {
      var t := lits[1..];
      FirstLitSome(t, n);
      assert forall i :: 1 <= i < |lits| ==> lits[i] == t[i - 1];
      if FirstLit(t, n).Some? {
        var i :| 0 <= i < |t| && t[i].n == n;
        assert lits[i + 1].n == n;
      }
    }
  }

  lemma DistinctNone()
    ensures Distinct([])
  {
  }

  lemma FirstNone(n: nat)
    ensures FirstLit([], n).None?
  {
  }

  lemma DistinctCons(l: Lit, rest: seq<Lit>)
    ensures Distinct([l] + rest) <==> Distinct(rest) && forall x :: x in rest ==> x.n != l.n
  {
    var all := [l] + rest;
    assert forall i :: 0 <= i < |rest| ==> all[i + 1] == rest[i];
    if Distinct(all) {
      forall x | x in rest ensures x.n != l.n { var i :| 0 <= i < |rest|
          && rest[i] == x; assert all[i + 1].n != all[0].n; }
      forall i, j | 0 <= i < j < |rest| ensures rest[i].n != rest[j].n { assert all[i + 1].n != all[j + 1].n; }
    }
  }

  lemma {:induction false} InOrderIs(text: string, nGrp: nat, i: nat, m: nat)
    ensures var lits := InOrder(text, nGrp, i);
      && (forall l :: l in lits ==> i < l.n <= nGrp)
      && Distinct(lits)
      && FirstLit(lits, m + 1) == if i <= m < nGrp && Uses(text, m) then Some(Lit(m + 1, Negated(text, m))) else None
    decreases nGrp - i
  {
    hide Ids, Uses, Negated, Distinct, FirstLit;
    if i >= nGrp {
      DistinctNone();
      FirstNone(m + 1);
    } else {
      var rest := InOrder(text, nGrp, i + 1);
      InOrderIs(text, nGrp, i + 1, m);
      if Uses(text, i) {
        var l := Lit(i + 1, Negated(text, i));
        FirstLitHead(l, rest, m + 1);
        DistinctCons(l, rest);
      } else {
        assert [] + rest == rest;
      }
    }
  }

  lemma FirstLitHead(l: Lit, rest: seq<Lit>, n: nat)
    ensures FirstLit([l] + rest, n) == if l.n == n then Some(l) else FirstLit(rest, n)
  {
    assert ([l] + rest)[1..] == rest;
  }

  /** The canonical text keeps, for every matcher, whether it is used and with which sign. */
  lemma CanonKeeps(text: string, op: bool, nGrp: nat, m: nat)
    requires nGrp <= MAX_GROUP
    ensures Uses(Canon(text, op, nGrp), m) <==> m < nGrp && Uses(text, m)
    ensures m < nGrp ==> (Negated(Canon(text, op, nGrp), m) <==> Negated(text, m))
    ensures RowList(Canon(text, op, nGrp), op, nGrp)
    ensures Ids(Canon(text, op, nGrp)) == InOrder(text, nGrp, 0)
  {
    hide Ids, InOrder, Fit, Print, RowList;
    var lits := InOrder(text, nGrp, 0);
    InOrderIs(text, nGrp, 0, m);
    RowListOf(lits, op, nGrp);
  }

  lemma {:induction false} InOrderSame(a: string, b: string, nGrp: nat, i: nat)
    requires forall m :: i <= m < nGrp ==> Uses(a, m) == Uses(b, m) && Negated(a, m) == Negated(b, m)
    ensures InOrder(a, nGrp, i) == InOrder(b, nGrp, i)
    decreases nGrp - i
  {
    hide Uses, Negated;
    if i < nGrp { InOrderSame(a, b, nGrp, i + 1); }
  }

  lemma CanonIdempotent(text: string, op: bool, nGrp: nat)
    requires nGrp <= MAX_GROUP
    ensures Canon(Canon(text, op, nGrp), op, nGrp) == Canon(text, op, nGrp)
  {
    hide Uses, Negated, Ids, RowList, Fit;
    var c := Canon(text, op, nGrp);
    forall m: nat | m < nGrp
      ensures Uses(c, m) == Uses(text, m) && Negated(c, m) == Negated(text, m)
    {
      CanonKeeps(text, op, nGrp, m);
    }
    InOrderSame(c, text, nGrp, 0);
  }

  // ---- the edits --------------------------------------------------------------------------

  /** The text an edit leaves behind. */
  function Rewritten(verb: Verb, g: nat, to: nat, text: string, op: bool): string {
    Fit(Changed(verb, g, to, Ids(text)), op, ID_ROOM)
  }

  lemma {:induction false} ChangedIs(verb: Verb, g: nat, to: nat, lits: seq<Lit>)
    ensures verb == Negate || verb == Swap ==>
      var r := Changed(verb, g, to, lits);
      |r| == |lits| && forall i :: 0 <= i < |r| ==> [r[i]] == Change(verb, g, to, lits[i])
    decreases |lits|
  {
    if lits != [] && verb != Drop {
      ChangedIs(verb, g, to, lits[1..]);
      var r := Changed(verb, g, to, lits);
      var h := Change(verb, g, to, lits[0]);
      assert |h| == 1 && r == h + Changed(verb, g, to, lits[1..]);
    }
  }

  lemma {:induction false} DroppedIs(g: nat, to: nat, lits: seq<Lit>)
    ensures var r := Changed(Drop, g, to, lits);
      (forall l :: l in r <==> l in lits && l.n != g + 1) && (Distinct(lits) ==> Distinct(r))
    decreases |lits|
  {
    hide Distinct;
    if lits == [] {
      DistinctNone();
    } else {
      var t, l := lits[1..], lits[0];
      var r := Changed(Drop, g, to, t);
      DroppedIs(g, to, t);
      assert lits == [l] + t;
      DistinctCons(l, t);
      DistinctCons(l, r);
      assert Changed(Drop, g, to, lits) == if l.n == g + 1 then [] + r else [l] + r;
      assert [] + r == r;
    }
  }

  /** Negating a matcher twice gives the text back, byte for byte. */
  lemma NegateTwice(g: nat, to: nat, text: string, op: bool, nGrp: nat)
    requires nGrp <= MAX_GROUP && RowList(text, op, nGrp)
    ensures RowList(Rewritten(Negate, g, to, text, op), op, nGrp)
    ensures Rewritten(Negate, g, to, Rewritten(Negate, g, to, text, op), op) == text
  {
    hide Ids, Fit, Print;
    var lits := Ids(text);
    var once := Changed(Negate, g, to, lits);
    ChangedIs(Negate, g, to, lits);
    assert forall i :: 0 <= i < |once| ==> [once[i]][0].n == lits[i].n;
    RowListOf(once, op, nGrp);
    ChangedIs(Negate, g, to, once);
    var twice := Changed(Negate, g, to, once);
    forall i | 0 <= i < |twice|
      ensures twice[i] == lits[i]
    {
      assert [once[i]][0] == Change(Negate, g, to, lits[i])[0];
      assert [twice[i]][0] == Change(Negate, g, to, once[i])[0];
    }
    assert twice == lits;
    RowListOf(lits, op, nGrp);
  }
}
