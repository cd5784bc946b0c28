/** The edits the row of ids makes, and what each keeps. */
module IdEdits {
  import opened DraftModel
  import opened ExprSource
  import opened IdList
  import opened IdRoom
  import opened TargetC

  // ---- one literal taken out --------------------------------------------------------------

  lemma {:induction false} DropFirst(g: nat, to: nat, lits: seq<Lit>, n: nat)
    ensures FirstLit(Changed(Drop, g, to, lits), n) == if n == g + 1 then None else FirstLit(lits, n)
    decreases |lits|
  {
    if lits != [] {
      var r := Changed(Drop, g, to, lits[1..]);
      DropFirst(g, to, lits[1..], n);
      FirstLitHead(lits[0], r, n);
      assert [] + r == r;
    }
  }

  /** Dropping a matcher from a row's list leaves the row's list of the others. */
  lemma DropKeeps(g: nat, to: nat, text: string, op: bool, nGrp: nat, m: nat)
    requires nGrp <= MAX_GROUP && RowList(text, op, nGrp)
    ensures var t := Rewritten(Drop, g, to, text, op);
      && RowList(t, op, nGrp)
      && (Uses(t, m) <==> m != g && Uses(text, m))
      && (m != g ==> Negated(t, m) == Negated(text, m))
  {
    hide Ids, Fit, Print, Changed, FirstLit;
    var r := Changed(Drop, g, to, Ids(text));
    DroppedIs(g, to, Ids(text));
    assert forall i :: 0 <= i < |r| ==> r[i] in r && r[i] in Ids(text);
    RowListOf(r, op, nGrp);
    DropFirst(g, to, Ids(text), m + 1);
  }

  // ---- one matcher put where another stood ------------------------------------------------

  lemma {:induction false} SwapFirst(g: nat, to: nat, lits: seq<Lit>, n: nat)
    requires to == g || FirstLit(lits, to + 1).None?
    ensures var r := FirstLit(Changed(Swap, g, to, lits), n); var was := FirstLit(lits, g + 1);
      r == if n == to + 1 then (if was.Some? then Some(Lit(n, was.value.neg)) else None)
           else if n == g + 1 then None else FirstLit(lits, n)
    decreases |lits|
  {
    if lits != [] {
      var r := Changed(Swap, g, to, lits[1..]);
      SwapFirst(g, to, lits[1..], n);
      FirstLitHead(Change(Swap, g, to, lits[0])[0], r, n);
      assert Changed(Swap, g, to, lits) == [Change(Swap, g, to, lits[0])[0]] + r;
    }
  }

  function Swapped(g: nat, to: nat, text: string, op: bool, nGrp: nat): string {
    Canon(Rewritten(Swap, g, to, text, op), op, nGrp)
  }

  /** The new matcher takes the old one's place and its sign, no other moves, and the list is
      back in the order the row draws in. */
  lemma SwapMoves(g: nat, to: nat, text: string, op: bool, nGrp: nat, m: nat)
    requires nGrp <= MAX_GROUP && RowList(text, op, nGrp) && to < nGrp
    requires to == g || !Uses(text, to)
    ensures var t := Swapped(g, to, text, op, nGrp);
      && Canon(t, op, nGrp) == t
      && (Uses(t, to) <==> Uses(text, g)) && Negated(t, to) == Negated(text, g)
      && (m != g && m != to ==> Uses(t, m) == Uses(text, m) && Negated(t, m) == Negated(text, m))
      && (g != to ==> !Uses(t, g))
  {
    hide Ids, Fit, Print, Changed, FirstLit, Canon, InOrder;
    var lits := Ids(text);
    var r := Changed(Swap, g, to, lits);
    DistinctSmall(lits, nGrp);
    ChangedIs(Swap, g, to, lits);
    assert forall i :: 0 <= i < |r| ==> [r[i]][0] == Change(Swap, g, to, lits[i])[0];
    SmallFits(r, op);
    var mid := Rewritten(Swap, g, to, text, op);
    assert Ids(mid) == r;
    CanonIdempotent(mid, op, nGrp);
    CanonKeeps(mid, op, nGrp, m);
    CanonKeeps(mid, op, nGrp, to);
    CanonKeeps(mid, op, nGrp, g);
    SwapFirst(g, to, lits, m + 1);
    SwapFirst(g, to, lits, to + 1);
    SwapFirst(g, to, lits, g + 1);
    UsedInRange(text, op, nGrp, m);
  }

  lemma UsedInRange(text: string, op: bool, nGrp: nat, m: nat)
    requires RowList(text, op, nGrp)
    ensures Uses(text, m) ==> m < nGrp
  {
    FirstLitSome(Ids(text), m + 1);
  }

  // ---- the joining word -------------------------------------------------------------------

  /** A condition whose ids the row draws: nothing written, or the canonical list. */
  predicate Drawn(c: Cond, nGrp: nat) { c.expr == "" || c.expr == Canon(c.expr, c.op, nGrp) }

  function WithOp(c: Cond, op: bool, nGrp: nat): Cond {
    if !Drawn(c, nGrp) then c else c.(op := op, expr := Canon(c.expr, op, nGrp))
  }

  lemma FitNone(op: bool)
    ensures Fit([], op, CANON_ROOM) == ""
  {
  }

  lemma CanonNone(op: bool, nGrp: nat)
    requires nGrp <= MAX_GROUP
    ensures Canon("", op, nGrp) == ""
  {
    hide InOrder, Fit, RowList;
    assert forall m: nat :: !Uses("", m);
    InOrderNone(nGrp, 0);
    FitNone(op);
  }

  lemma {:induction false} InOrderNone(nGrp: nat, i: nat)
    ensures InOrder("", nGrp, i) == []
    decreases nGrp - i
  {
    if i < nGrp { InOrderNone(nGrp, i + 1); }
  }

  lemma DrawnIs(c: Cond, op: bool, nGrp: nat)
    requires nGrp <= MAX_GROUP && Drawn(c, nGrp)
    ensures Ids(c.expr) == InOrder(c.expr, nGrp, 0) == Ids(Canon(c.expr, op, nGrp))
    ensures c.expr == Print(Ids(c.expr), c.op)
    ensures Canon(c.expr, op, nGrp) == Print(Ids(c.expr), op)
  {
    hide Ids, InOrder, Fit, Canon, Print;
    CanonNone(c.op, nGrp);
    CanonNone(op, nGrp);
    CanonKeeps(c.expr, op, nGrp, 0);
    CanonKeeps(c.expr, c.op, nGrp, 0);
  }

  /** Changing the word changes the word and nothing else: the same matchers with the same
      signs, still the list the row draws, and changing it back gives the condition back. What
      somebody typed is left alone. */
  lemma SetOpKeepsList(c: Cond, op: bool, nGrp: nat)
    requires nGrp <= MAX_GROUP
    ensures var r := WithOp(c, op, nGrp);
      && Ids(r.expr) == Ids(c.expr)
      && r == c.(op := r.op, expr := r.expr)
      && (Drawn(c, nGrp) ==> r.op == op && Drawn(r, nGrp) && WithOp(r, c.op, nGrp) == c)
      && (!Drawn(c, nGrp) ==> r == c)
  {
    hide Ids, InOrder, Fit, Canon, Print;
    if Drawn(c, nGrp) {
      var r := WithOp(c, op, nGrp);
      DrawnIs(c, op, nGrp);
      CanonIdempotent(c.expr, op, nGrp);
      DrawnIs(r, c.op, nGrp);
    }
  }

  /** And what the condition says goes from "all of these" to "any of these", or back. */
  lemma SetOpMeans(c: Cond, op: bool, nGrp: nat) returns (was: Cnd, now: Cnd)
    requires nGrp <= MAX_GROUP && Drawn(c, nGrp) && Ids(c.expr) != []
    ensures Read(c.expr) == Some(was) && Read(WithOp(c, op, nGrp).expr) == Some(now)
    ensures forall lit: nat -> bool :: Holds(was, lit) <==> ListHolds(c.op, Ids(c.expr), lit)
    ensures forall lit: nat -> bool :: Holds(now, lit) <==> ListHolds(op, Ids(c.expr), lit)
  {
    hide Ids, InOrder, Fit, Canon, Print, Read, Holds, ListHolds;
    DrawnIs(c, op, nGrp);
    was := ListReads(Ids(c.expr), c.op);
    now := ListReads(Ids(c.expr), op);
  }

  // ---- the loops --------------------------------------------------------------------------

  lemma IdsAt(s: string, at: nat)
    requires at < |s|
    ensures s[at] == '!' ==> (var q := SkipSpaces(s[at + 1..]);
      Ids(s[at..]) == if q != "" && IsDigit(q[0])
                      then [Lit(Saturate(Decimal(Digits(q))), true)] + Ids(AfterDigits(q)) else Ids(s[at + 1..]))
    ensures IsDigit(s[at]) ==>
      Ids(s[at..]) == [Lit(Saturate(Decimal(Digits(s[at..]))), false)] + Ids(AfterDigits(s[at..]))
    ensures s[at] != '!' && !IsDigit(s[at]) ==> Ids(s[at..]) == Ids(s[at + 1..])
  {
    assert s[at..][1..] == s[at + 1..];
  }

  lemma IdsNone()
    ensures Ids("") == []
  {
  }

  lemma AfterAt(s: string, at: nat)
    requires at < |s| && IsDigit(s[at])
    ensures var next := at + |Digits(s[at..])|; at < next <= |s| && s[next..] == AfterDigits(s[at..])
  {
    assert IsDigit(s[at..][0]);
  }

  /** The next id from p on. */
  method NextId(s: string, p: nat) returns (found: bool, lit: Lit, next: nat)
    requires p <= |s|
    ensures p <= next <= |s|
    ensures found ==> p < next && Ids(s[p..]) == [lit] + Ids(s[next..])
    ensures !found ==> Ids(s[p..]) == []
  {
    hide Ids, Digits, AfterDigits, Decimal;
    var at, neg := p, false;
    while at < |s|
      invariant p <= at <= |s|
      invariant neg ==> at < |s| && IsDigit(s[at])
      invariant neg ==> Ids(s[p..]) == [Lit(Saturate(Decimal(Digits(s[at..]))), true)] + Ids(AfterDigits(s[at..]))
      invariant !neg ==> Ids(s[p..]) == Ids(s[at..])
      decreases |s| - at
    {
      IdsAt(s, at);
      if s[at] == '!' {
        var q := at + 1;
        while q < |s| && s[q] == ' '
          invariant at + 1 <= q <= |s| && SkipSpaces(s[at + 1..]) == SkipSpaces(s[q..])
        {
          assert s[q..][1..] == s[q + 1..];
          q := q + 1;
        }
        assert SkipSpaces(s[q..]) == s[q..];
        neg := q < |s| && IsDigit(s[q]);
        at := if neg then q else at + 1;
      } else if IsDigit(s[at]) {
        AfterAt(s, at);
        return true, Lit(Saturate(Decimal(Digits(s[at..]))), neg), at + |Digits(s[at..])|;
      } else {
        neg := false;
        at := at + 1;
      }
    }
    IdsNone();
    assert s[at..] == "";
    return false, Lit(0, false), at;
  }

  lemma FirstCons(l: Lit, rest: seq<Lit>, all: seq<Lit>, n: nat)
    requires all == [l] + rest
    ensures FirstLit(all, n) == if l.n == n then Some(l) else FirstLit(rest, n)
  {
    FirstLitHead(l, rest, n);
  }

  method CndUses(c: Cond, g: nat) returns (r: bool)
    ensures r == Uses(c.expr, g)
  {
    hide Ids, FirstLit;
    var p, found, lit := 0, true, Lit(0, false);
    assert c.expr[0..] == c.expr;
    while true
      invariant p <= |c.expr| && FirstLit(Ids(c.expr), g + 1) == FirstLit(Ids(c.expr[p..]), g + 1)
      decreases |c.expr| - p
    {
      ghost var from := p;
      found, lit, p := NextId(c.expr, p);
      if !found { break; }
      FirstCons(lit, Ids(c.expr[p..]), Ids(c.expr[from..]), g + 1);
      if lit.n == g + 1 { return true; }
    }
    FirstNone(g + 1);
    return false;
  }

  method CndNeg(c: Cond, g: nat) returns (r: bool)
    ensures r == Negated(c.expr, g)
  {
    hide Ids, FirstLit;
    var p, found, lit := 0, true, Lit(0, false);
    assert c.expr[0..] == c.expr;
    while true
      invariant p <= |c.expr| && FirstLit(Ids(c.expr), g + 1) == FirstLit(Ids(c.expr[p..]), g + 1)
      decreases |c.expr| - p
    {
      ghost var from := p;
      found, lit, p := NextId(c.expr, p);
      if !found { break; }
      FirstCons(lit, Ids(c.expr[p..]), Ids(c.expr[from..]), g + 1);
      if lit.n == g + 1 { return lit.neg; }
    }
    FirstNone(g + 1);
    return false;
  }

  lemma ChangedNone(verb: Verb, g: nat, to: nat)
    ensures Changed(verb, g, to, []) == []
  {
  }

  lemma ChangedCons(verb: Verb, g: nat, to: nat, l: Lit, rest: seq<Lit>, all: seq<Lit>)
    requires all == [l] + rest
    ensures Changed(verb, g, to, all) == Change(verb, g, to, l) + Changed(verb, g, to, rest)
  {
    assert all[1..] == rest;
  }

  lemma KeptHere(lits: seq<Lit>, op: bool, room: nat, k: nat)
    requires k <= |lits| && Kept(lits, op, room, 0) == Kept(lits, op, room, k)
    requires k == |lits| || |Print(lits[..k], op)| + room >= EXPR_ROOM
    ensures Fit(lits, op, room) == Print(lits[..k], op)
  {
  }

  lemma PrintAppend(done: seq<Lit>, l: Lit, op: bool)
    ensures Print(done + [l], op) == Print(done, op) + (if done == [] then "" else Sep(op)) + Item(l)
  {
    hide Sep, Item;
    assert (done + [l])[..|done|] == done;
  }

  lemma FitStep(all: seq<Lit>, done: seq<Lit>, l: Lit, rest: seq<Lit>, op: bool, room: nat)
    requires all == done + ([l] + rest) && |Print(done, op)| + room < EXPR_ROOM
    requires Kept(all, op, room, 0) == Kept(all, op, room, |done|)
    ensures all == (done + [l]) + rest
    ensures Kept(all, op, room, 0) == Kept(all, op, room, |done| + 1)
  {
    hide Print;
    assert all[..|done|] == done;
  }

  lemma PrintNone(lits: seq<Lit>, op: bool)
    ensures Print(lits, op) == "" <==> lits == []
  {
    hide Sep;
    if lits != [] { ItemSome(lits[|lits| - 1]); }
  }

  /** Reads the ids one by one and writes back what the edit makes of each. */
  method CndRewrite(c: Cond, g: nat, to: nat, verb: Verb) returns (out: string)
    requires to + 1 <= ULONG_MAX
    ensures out == Rewritten(verb, g, to, c.expr, c.op) && |out| < EXPR_ROOM
  {
    hide Ids, Changed, Change, Print, Kept, Item, Sep, Fit, Held;
    ghost var all := Changed(verb, g, to, Ids(c.expr));
    ghost var done: seq<Lit> := [];
    ChangedHeld(verb, g, to, Ids(c.expr), c.expr);
    FitInField(all, c.op);
    PrintNone([], c.op);
    out := "";
    var p, found, lit, first := 0, true, Lit(0, false), true;
    assert c.expr[0..] == c.expr;
    assert [] + all == all;
    while true
      invariant p <= |c.expr| && all == done + Changed(verb, g, to, Ids(c.expr[p..]))
      invariant out == Print(done, c.op) && first == (done == [])
      invariant Kept(all, c.op, ID_ROOM, 0) == Kept(all, c.op, ID_ROOM, |done|)
      decreases |c.expr| - p
    {
      ghost var from := p;
      found, lit, p := NextId(c.expr, p);
      if !found { break; }
      ghost var rest := Changed(verb, g, to, Ids(c.expr[p..]));
      ChangedCons(verb, g, to, lit, Ids(c.expr[p..]), Ids(c.expr[from..]));
      ChangeCases(verb, g, to, lit);
      if lit.n == g + 1 {
        if verb == Drop {
          assert [] + rest == rest;
          continue;
        }
        if verb == Negate { lit := Lit(lit.n, !lit.neg); } else { lit := Lit(to + 1, lit.neg); }
      }
      if |out| + ID_ROOM >= EXPR_ROOM {
        assert all[..|done|] == done;
        KeptHere(all, c.op, ID_ROOM, |done|);
        return;
      }
      FitStep(all, done, lit, rest, c.op, ID_ROOM);
      PrintAppend(done, lit, c.op);
      out := out + (if first then "" else Sep(c.op)) + Item(lit);
      first := false;
      done := done + [lit];
    }
    ChangedNone(verb, g, to);
    assert all == done && all[..|all|] == all;
    KeptHere(all, c.op, ID_ROOM, |all|);
  }

  lemma ChangeCases(verb: Verb, g: nat, to: nat, l: Lit)
    ensures Change(verb, g, to, l)
         == if l.n != g + 1 then [l] else if verb == Drop then []
            else if verb == Negate then [Lit(l.n, !l.neg)] else [Lit(to + 1, l.neg)]
  {
  }

  lemma ChangedHeld(verb: Verb, g: nat, to: nat, lits: seq<Lit>, text: string)
    requires lits == Ids(text) && to + 1 <= ULONG_MAX
    ensures Held(Changed(verb, g, to, lits))
  {
    IdsHeld(text);
    HeldChanged(verb, g, to, lits);
  }

  lemma {:induction false} HeldChanged(verb: Verb, g: nat, to: nat, lits: seq<Lit>)
    requires Held(lits) && to + 1 <= ULONG_MAX
    ensures Held(Changed(verb, g, to, lits))
    decreases |lits|
  {
    if lits != [] { HeldChanged(verb, g, to, lits[1..]); }
  }

  lemma InOrderEnd(text: string, nGrp: nat)
    ensures InOrder(text, nGrp, nGrp) == []
  {
  }

  lemma InOrderStep(text: string, nGrp: nat, i: nat)
    requires i < nGrp
    ensures InOrder(text, nGrp, i)
         == (if Uses(text, i) then [Lit(i + 1, Negated(text, i))] else []) + InOrder(text, nGrp, i + 1)
  {
  }

  /** The list the row would draw for condition i. */
  method CndCanon(d: Draft, i: nat) returns (out: string)
    requires i < |d.cnd|
    ensures out == Canon(d.cnd[i].expr, d.cnd[i].op, |d.grp|)
  {
    hide Ids, Print, Kept, Item, Sep, Fit, Uses, Negated, InOrder;
    var c := d.cnd[i];
    ghost var all := InOrder(c.expr, |d.grp|, 0);
    ghost var done: seq<Lit> := [];
    PrintNone([], c.op);
    out := "";
    assert [] + all == all;
    for m := 0 to |d.grp|
      invariant all == done + InOrder(c.expr, |d.grp|, m) && out == Print(done, c.op)
      invariant Kept(all, c.op, CANON_ROOM, 0) == Kept(all, c.op, CANON_ROOM, |done|)
    {
      ghost var rest := InOrder(c.expr, |d.grp|, m + 1);
      InOrderStep(c.expr, |d.grp|, m);
      var uses := CndUses(c, m);
      if !uses {
        assert [] + rest == rest;
        continue;
      }
      if |out| + CANON_ROOM >= EXPR_ROOM {
        assert all[..|done|] == done;
        KeptHere(all, c.op, CANON_ROOM, |done|);
        return;
      }
      var neg := CndNeg(c, m);
      ghost var lit := Lit(m + 1, neg);
      FitStep(all, done, lit, rest, c.op, CANON_ROOM);
      PrintAppend(done, lit, c.op);
      PrintNone(done, c.op);
      out := out + (if out == "" then "" else Sep(c.op)) + Item(Lit(m + 1, neg));
      done := done + [lit];
    }
    InOrderEnd(c.expr, |d.grp|);
    assert all == done && all[..|all|] == all;
    KeptHere(all, c.op, CANON_ROOM, |all|);
  }

  method CndDropMatcher(d: Draft, i: nat, g: nat)
    requires i < |d.cnd|
    modifies d`cnd
    ensures d.cnd == old(d.cnd)[i := old(d.cnd[i]).(expr := Rewritten(Drop, g, 0, old(d.cnd[i]).expr,
      old(d.cnd[i]).op))]
  {
    var text := CndRewrite(d.cnd[i], g, 0, Drop);
    d.cnd := d.cnd[i := d.cnd[i].(expr := text)];
  }

  method CndNegateMatcher(d: Draft, i: nat, g: nat)
    requires i < |d.cnd|
    modifies d`cnd
    ensures d.cnd == old(d.cnd)[i := old(d.cnd[i]).(expr := Rewritten(Negate, g, 0, old(d.cnd[i]).expr,
      old(d.cnd[i]).op))]
  {
    var text := CndRewrite(d.cnd[i], g, 0, Negate);
    d.cnd := d.cnd[i := d.cnd[i].(expr := text)];
  }

  /** Out of range - the condition or the new matcher - and nothing changes. */
  method CndSwapMatcher(d: Draft, i: nat, g: nat, to: nat)
    requires |d.grp| <= MAX_GROUP
    modifies d`cnd
    ensures i >= |old(d.cnd)| || to >= |d.grp| ==> d.cnd == old(d.cnd)
    ensures i < |old(d.cnd)| && to < |d.grp| ==> (var c := old(d.cnd)[i];
      d.cnd == old(d.cnd)[i := c.(expr := Swapped(g, to, c.expr, c.op, |d.grp|))])
  {
    hide Canon, Rewritten;
    if i >= |d.cnd| || to >= |d.grp| { return; }
    var c := d.cnd[i];
    var text := CndRewrite(c, g, to, Swap);
    d.cnd := d.cnd[i := c.(expr := text)];
    text := CndCanon(d, i);
    d.cnd := d.cnd[i := c.(expr := text)];
  }

  method CndSetOp(d: Draft, i: nat, op: bool)
    modifies d`cnd
    ensures i >= |old(d.cnd)| ==> d.cnd == old(d.cnd)
    ensures i < |old(d.cnd)| ==> d.cnd == old(d.cnd)[i := WithOp(old(d.cnd)[i], op, |d.grp|)]
  {
    hide Canon;
    if i >= |d.cnd| { return; }
    var c := d.cnd[i];
    var canon := CndCanon(d, i);
    if c.expr != "" && c.expr != canon { return; }
    d.cnd := d.cnd[i := c.(op := op)];
    canon := CndCanon(d, i);
    d.cnd := d.cnd[i := c.(op := op, expr := canon)];
  }
}
