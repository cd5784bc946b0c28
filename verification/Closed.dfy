/** An accepted draft of string and find_at matchers is written as a closed module: everything
    its body names is declared, and every string declared is asked for. */
module Closed {
  import opened TargetC
  import opened DraftModel
  import opened ExprSource
  import opened Matchers
  import opened ExprTokens
  import opened Conditions
  import opened BranchTokens
  import opened Order
  import opened Visits
  import opened Generate
  import opened IdList
  import opened IdRoom
  import opened Removal
  import opened Refusals
  import opened Queries

  // ---- the ranges declared at the head of the module --------------------------------------

  /** One range per distinct mask of a matcher with markers, in matcher order. */
  function Ranges(m: Model, g: nat): (r: seq<bv32>)
    requires g <= |m.grp| <= 32
    ensures forall i, j :: 0 <= i < j < |r| ==> r[i] != r[j]
    ensures forall x :: x in r <==> exists k :: 0 <= k < g && Strs(m, k) != [] && Mask(m, k) == x
  {
    if g == 0 then []
    else
      var r := Ranges(m, g - 1);
      if Strs(m, g - 1) != [] && Mask(m, g - 1) !in r then r + [Mask(m, g - 1)] else r
  }

  method DeclareRanges(e: Draft) returns (seen: seq<bv32>)
    requires e.Valid() && |e.grp| <= 32
    ensures seen == Ranges(e.Snap(), |e.grp|)
  {
    hide Strs, Mask;
    seen := [];
    for g := 0 to |e.grp|
      invariant seen == Ranges(e.Snap(), g)
    {
      var n := GrpCount(e, g);
      if n == 0 { continue; }
      var mask := GrpMask(e, g);
      var q := 0;
      while q < |seen| && seen[q] != mask
        invariant q <= |seen| && mask !in seen[..q]
      {
        q := q + 1;
      }
      if q < |seen| { continue; }
      assert seen[..q] == seen;
      seen := seen + [mask];
    }
  }

  // ---- everything the body names is declared ----------------------------------------------

  ghost predicate Plain(m: Model) {
    |m.grp| <= MAX_GROUP && forall g :: 0 <= g < |m.grp| ==> m.grp[g].kind == Str
  }

  ghost predicate Ready(m: Model, rngAdd: seq<bv32>) {
    Plain(m) && Accepted(m, rngAdd)
  }

  /** Some matcher that searches - one that is not at a place - has this range. */
  ghost predicate Searched(m: Model, range: bv32)
    requires |m.grp| <= 32
  {
    exists g :: 0 <= g < |m.grp| && !IsAt(m.grp[g]) && Mask(m, g) == range
  }

  ghost predicate Known(m: Model, t: Tok)
    requires |m.grp| <= 32
  {
    match t
    case Var(l) => l < |m.grp| && Declared(m, l)
    case Find(_, range, strs) =>
      && range in Ranges(m, |m.grp|) && Searched(m, range)
      && 0 < |strs| <= CALL_MAX && forall s :: s in strs ==> s < |m.decl|
    case FindAt(_, strs) => |strs| == 1 && strs[0] < |m.decl|
    case Score(_) => false
    case _ => true
  }

  ghost predicate AllKnown(m: Model, s: seq<Tok>)
    requires |m.grp| <= 32
  {
    forall t :: t in s ==> Known(m, t)
  }

  lemma AcceptedCounts(m: Model, rngAdd: seq<bv32>, g: nat)
    requires Ready(m, rngAdd) && g < |m.grp|
    ensures 0 < |Strs(m, g)| <= CALL_MAX && (IsAt(m.grp[g]) ==> |Strs(m, g)| == 1)
  {
    hide Strs;
    assert !Wrong(m, rngAdd, NoString(g)) && !Wrong(m, rngAdd, AtTakesOne) && !Wrong(m, rngAdd, TooMany);
  }

  lemma CallKnown(m: Model, rngAdd: seq<bv32>, g: nat, forceMulti: bool)
    requires Ready(m, rngAdd) && g < |m.grp|
    ensures Known(m, CallTok(m, g, forceMulti))
  {
    hide Accepted, Mask, Strs;
    AcceptedCounts(m, rngAdd, g);
    assert Strs(m, g)[0] in Strs(m, g);
    assert Mask(m, g) in Ranges(m, |m.grp|);
  }

  lemma MatcherKnown(m: Model, rngAdd: seq<bv32>, g: nat)
    requires Ready(m, rngAdd) && g < |m.grp|
    ensures AllKnown(m, MatcherToks(m, g))
  {
    hide Accepted, CallTok, Shared, Lead, Threshold;
    CallKnown(m, rngAdd, g, false);
    if Shared(m, g) { LeadSpeaksFor(m, g); }
  }

  lemma {:induction false} ExprKnown(m: Model, rngAdd: seq<bv32>, s: seq<STok>)
    requires Ready(m, rngAdd)
    ensures AllKnown(m, ExprToks(m, s))
    decreases |s|
  {
    hide Accepted, MatcherToks;
    if s != [] {
      ExprKnown(m, rngAdd, s[1..]);
      if s[0].SId? && 1 <= s[0].n % ID_WRAP <= |m.grp| { MatcherKnown(m, rngAdd, s[0].n % ID_WRAP - 1); }
    }
  }

  lemma TextKnown(m: Model, rngAdd: seq<bv32>, text: string)
    requires Ready(m, rngAdd)
    ensures AllKnown(m, TextToks(m, text))
  {
    hide ExprToks, Accepted;
    ExprKnown(m, rngAdd, Lex(text));
  }

  lemma {:induction false} TermsKnown(m: Model, rngAdd: seq<bv32>, u: Unit)
    requires Ready(m, rngAdd) && UnitIn(m.cnd, u, 0)
    ensures AllKnown(m, TermsToks(m, u))
    decreases |u|
  {
    hide Accepted, TextToks;
    TextKnown(m, rngAdd, m.cnd[u[0]].expr);
    if |u| > 1 { TermsKnown(m, rngAdd, u[1..]); }
  }

  lemma FrameKnown(m: Model, rngAdd: seq<bv32>, c: Cond)
    requires Ready(m, rngAdd)
    ensures AllKnown(m, LeafToks(c)) && AllKnown(m, GateTail(c)) && AllKnown(m, GateHead(m, c))
    ensures AllKnown(m, [KIf, LPar] + TextToks(m, c.expr) + [RPar])
  {
    hide Accepted, TextToks;
    TextKnown(m, rngAdd, c.expr);
  }

  lemma {:induction false} CondKnown(m: Model, rngAdd: seq<bv32>, i: nat)
    requires Ready(m, rngAdd) && Forest(m.cnd) && i < |m.cnd|
    ensures AllKnown(m, CondToks(m, i))
    decreases |m.cnd| - i, 0, 0
  {
    hide Ready, TextToks, LeafToks, GateHead, GateTail, UnitsToks, Known, Heads, HasKids;
    FrameKnown(m, rngAdd, m.cnd[i]);
    KidsAbove(m.cnd, i);
    UnitsKnown(m, rngAdd, Heads(m.cnd, i, 0), i + 1);
  }

  lemma {:induction false} UnitKnown(m: Model, rngAdd: seq<bv32>, h: nat)
    requires Ready(m, rngAdd) && Forest(m.cnd) && h < |m.cnd|
    ensures AllKnown(m, UnitToks(m, h))
    decreases |m.cnd| - h, 1, 0
  {
    hide Ready, TermsToks, LeafToks, CondToks, Known, Members;
    var u := Members(m.cnd, h);
    CondKnown(m, rngAdd, h);
    TermsKnown(m, rngAdd, u);
    FrameKnown(m, rngAdd, m.cnd[u[|u| - 1]]);
    KnownPlain(m, rngAdd);
  }

  lemma KnownPlain(m: Model, rngAdd: seq<bv32>)
    requires Ready(m, rngAdd)
    ensures Known(m, KIf) && Known(m, LPar) && Known(m, RPar) && Known(m, RBrace) && Known(m, Newline)
  {
  }

  lemma {:induction false} UnitsKnown(m: Model, rngAdd: seq<bv32>, heads: seq<nat>, lo: nat)
    requires Ready(m, rngAdd) && Forest(m.cnd) && lo <= |m.cnd| && HeadsIn(m.cnd, heads, lo)
    ensures AllKnown(m, UnitsToks(m, heads, lo))
    decreases |m.cnd| - lo, 2, |heads|
  {
    hide Ready, UnitToks, Known;
    if heads != [] {
      UnitKnown(m, rngAdd, heads[0]);
      UnitsKnown(m, rngAdd, heads[1..], lo);
    }
  }

  lemma {:induction false} DeclsKnown(m: Model, rngAdd: seq<bv32>, g: nat)
    requires Ready(m, rngAdd)
    ensures AllKnown(m, DeclsToks(m, g))
    decreases |m.grp| - g
  {
    hide Accepted, CallTok, Shared, Lead;
    if g < |m.grp| {
      CallKnown(m, rngAdd, g, true);
      DeclsKnown(m, rngAdd, g + 1);
    }
  }

  /** Every counter a test compares is declared at the head of the body, every range a call names
      at the head of the module, and every string among the draft's own. */
  lemma BodyNamesDeclared(m: Model, rngAdd: seq<bv32>)
    requires Ready(m, rngAdd) && Forest(m.cnd)
    ensures AllKnown(m, BodyToks(m))
  {
    hide Ready, DeclsToks, UnitsToks, Known, Written;
    DeclsKnown(m, rngAdd, 0);
    UnitsKnown(m, rngAdd, Written(m.cnd), 0);
    KnownPlain(m, rngAdd);
    SizeKnown(m, rngAdd);
  }

  lemma SizeKnown(m: Model, rngAdd: seq<bv32>)
    requires Ready(m, rngAdd)
    ensures AllKnown(m, SizeToks(m))
  {
  }

  // ---- and everything declared is named ---------------------------------------------------

  lemma {:induction false} NamedIn(s: seq<STok>, l: Lit)
    requires l in Named(s) && l.n < ULONG_MAX
    ensures SId(l.n, l.neg) in s
    decreases |s|
  {
    if l in Named(s[1..]) { NamedIn(s[1..], l); }
  }

  lemma {:induction false} TokIn(m: Model, s: seq<STok>, x: STok, t: Tok)
    requires |m.grp| <= 32 && x in s && t in ToksOf(m, x)
    ensures t in ExprToks(m, s)
    decreases |s|
  {
    hide ToksOf;
    if x != s[0] { TokIn(m, s[1..], x, t); }
  }

  lemma NoIds()
    ensures Ids("") == []
  {
  }

  /** A matcher a text uses is written into it. */
  lemma UsedWritten(m: Model, text: string, g: nat, t: Tok)
    requires g < |m.grp| <= MAX_GROUP && Uses(text, g) && t in MatcherToks(m, g)
    ensures text != "" && t in TextToks(m, text)
  {
    hide MatcherToks, Ids, Lex, Named, ExprToks;
    FirstLitSome(Ids(text), g + 1);
    IdsAreNamed(text);
    var l := FirstLit(Ids(text), g + 1).value;
    NamedIn(Lex(text), l);
    assert l.n % ID_WRAP == g + 1;
    TokIn(m, Lex(text), SId(l.n, l.neg), t);
    NoIds();
  }

  lemma {:induction false} RunHas(m: Model, u: Unit, j: nat, t: Tok)
    requires |m.grp| <= 32 && UnitIn(m.cnd, u, 0) && j in u && t in TextToks(m, m.cnd[j].expr)
    ensures t in TermsToks(m, u)
    decreases |u|
  {
    hide TextToks;
    if j != u[0] { RunHas(m, u[1..], j, t); }
  }

  lemma {:induction false} CondHas(m: Model, i: nat, j: nat, t: Tok)
    requires |m.grp| <= 32 && Forest(m.cnd) && i < |m.cnd| && j < |m.cnd|
    requires m.cnd[j].expr != "" && t in TextToks(m, m.cnd[j].expr)
    requires j == i || (KidsAbove(m.cnd, i); j in UnitsVisit(m.cnd, Heads(m.cnd, i, 0), i + 1))
    ensures t in CondToks(m, i)
    decreases |m.cnd| - i, 0, 0
  {
    hide TextToks, LeafToks, GateTail, UnitsToks, UnitsVisit;
    KidsAbove(m.cnd, i);
    if j != i {
      HeadsOfKids(m.cnd, i, j);
      UnitsHave(m, Heads(m.cnd, i, 0), i + 1, j, t);
    }
  }

  lemma HeadsOfKids(cnd: seq<Cond>, i: nat, j: nat)
    requires Forest(cnd) && i < |cnd| && HeadsIn(cnd, Heads(cnd, i, 0), i + 1)
    requires j in UnitsVisit(cnd, Heads(cnd, i, 0), i + 1)
    ensures HasKids(cnd, i)
  {
    hide UnitVisit;
    assert Heads(cnd, i, 0) != [];
    assert cnd[Heads(cnd, i, 0)[0]].parent == i;
  }

  lemma {:induction false} UnitHas(m: Model, h: nat, j: nat, t: Tok)
    requires |m.grp| <= 32 && Forest(m.cnd) && h < |m.cnd| && j < |m.cnd|
    requires m.cnd[j].expr != "" && t in TextToks(m, m.cnd[j].expr)
    requires j in UnitVisit(m.cnd, h)
    ensures t in UnitToks(m, h)
    decreases |m.cnd| - h, 1, 0
  {
    hide TextToks, LeafToks, CondToks, TermsToks, UnitsVisit;
    var u := Members(m.cnd, h);
    if |u| > 1 { RunHas(m, u, j, t); } else { KidsAbove(m.cnd, h); CondHas(m, h, j, t); }
  }

  lemma {:induction false} UnitsHave(m: Model, heads: seq<nat>, lo: nat, j: nat, t: Tok)
    requires |m.grp| <= 32 && Forest(m.cnd) && lo <= |m.cnd| && HeadsIn(m.cnd, heads, lo) && j < |m.cnd|
    requires m.cnd[j].expr != "" && t in TextToks(m, m.cnd[j].expr)
    requires j in UnitsVisit(m.cnd, heads, lo)
    ensures t in UnitsToks(m, heads, lo)
    decreases |m.cnd| - lo, 2, |heads|
  {
    hide TextToks, UnitToks, UnitVisit;
    if j in UnitVisit(m.cnd, heads[0]) { UnitHas(m, heads[0], j, t); } else { UnitsHave(m, heads[1..], lo, j, t); }
  }

  /** Every matcher's own test is in the body, whatever order the conditions go out in. */
  lemma MatcherWritten(m: Model, rngAdd: seq<bv32>, g: nat, t: Tok)
    requires Ready(m, rngAdd) && Forest(m.cnd) && g < |m.grp| && t in MatcherToks(m, g)
    ensures t in BodyToks(m)
  {
    hide Uses, MatcherToks, TextToks, UnitsToks, Written, UnitsVisit, SizeToks, DeclsToks;
    assert !Wrong(m, rngAdd, MatcherUnused(g));
    var k: nat :| k < |m.cnd| && Uses(m.cnd[k].expr, g);
    UsedWritten(m, m.cnd[k].expr, g, t);
    AllWritten(m.cnd, k);
    UnitsHave(m, Written(m.cnd), 0, k, t);
  }

  lemma {:induction false} DeclWritten(m: Model, g: nat, l: nat)
    requires |m.grp| <= 32 && g <= l < |m.grp| && Declared(m, l)
    ensures CallTok(m, l, true) in DeclsToks(m, g)
    decreases |m.grp| - g
  {
    hide CallTok, Declared;
    if g < l { DeclWritten(m, g + 1, l); }
  }

  /** The call that asks matcher g's question: its own, or the one its counter is set from. */
  lemma CallWritten(m: Model, rngAdd: seq<bv32>, g: nat) returns (t: Tok)
    requires Ready(m, rngAdd) && Forest(m.cnd) && g < |m.grp|
    ensures t in BodyToks(m)
    ensures if IsAt(m.grp[g]) then t == FindAt(m.grp[g].place, Strs(m, g))
            else t.Find? && t.range == Mask(m, g) && t.strs == Strs(m, g)
  {
    hide UnitsToks, Written, SizeToks, DeclsToks, Strs, Mask, Accepted, Lead;
    AcceptedCounts(m, rngAdd, g);
    if !IsAt(m.grp[g]) && Shared(m, g) {
      LeadSpeaksFor(m, g);
      var l := Lead(m, g);
      t := CallTok(m, l, true);
      SharedNotAt(m, l);
      DeclWritten(m, 0, l);
    } else {
      SharedNotAt(m, g);
      t := CallTok(m, g, false);
      assert MatcherToks(m, g)[0] == t;
      MatcherWritten(m, rngAdd, g, t);
      if IsAt(m.grp[g]) { assert [Strs(m, g)[0]] == Strs(m, g); }
    }
  }

  lemma SharedNotAt(m: Model, g: nat)
    requires g < |m.grp| <= 32
    ensures Shared(m, g) ==> !IsAt(m.grp[g])
  {
  }

  /** Which matcher a marker with a bit set belongs to. */
  lemma SomeBit(x: bv32, n: nat) returns (g: nat)
    requires n <= MAX_GROUP && x != 0 && NoneFrom(x, n)
    ensures g < n && Bit(x, g)
  {
    g := 0;
    while g < n && !Bit(x, g)
      invariant g <= n && forall k :: 0 <= k < g ==> !Bit(x, k)
    {
      g := g + 1;
    }
    if g == n { BitsGone(x, n); }
  }

  lemma BitsGone0(x: bv32)
    requires NoneFrom(x, 0)
    ensures x == 0
  {
  }

  lemma BitsGone1(x: bv32)
    requires NoneFrom(x, 1) && !Bit(x, 0)
    ensures x == 0
  {
  }

  lemma BitsGone2(x: bv32)
    requires NoneFrom(x, 2) && !Bit(x, 0) && !Bit(x, 1)
    ensures x == 0
  {
  }

  lemma BitsGone3(x: bv32)
    requires NoneFrom(x, 3) && !Bit(x, 0) && !Bit(x, 1) && !Bit(x, 2)
    ensures x == 0
  {
  }

  lemma BitsGone4(x: bv32)
    requires NoneFrom(x, 4) && !Bit(x, 0) && !Bit(x, 1) && !Bit(x, 2) && !Bit(x, 3)
    ensures x == 0
  {
  }

  lemma BitsGone5(x: bv32)
    requires NoneFrom(x, 5) && !Bit(x, 0) && !Bit(x, 1) && !Bit(x, 2) && !Bit(x, 3) && !Bit(x, 4)
    ensures x == 0
  {
  }

  lemma BitsGone6(x: bv32)
    requires NoneFrom(x, 6) && !Bit(x, 0) && !Bit(x, 1) && !Bit(x, 2) && !Bit(x, 3) && !Bit(x, 4) && !Bit(x, 5)
    ensures x == 0
  {
  }

  lemma BitsGone7(x: bv32)
    requires NoneFrom(x, 7) && !Bit(x, 0) && !Bit(x, 1) && !Bit(x, 2) && !Bit(x, 3) && !Bit(x, 4) && !Bit(x, 5)
      && !Bit(x, 6)
    ensures x == 0
  {
  }

  lemma BitsGone8(x: bv32)
    requires NoneFrom(x, 8) && !Bit(x, 0) && !Bit(x, 1) && !Bit(x, 2) && !Bit(x, 3) && !Bit(x, 4) && !Bit(x, 5)
      && !Bit(x, 6) && !Bit(x, 7)
    ensures x == 0
  {
  }

  lemma BitsGone(x: bv32, n: nat)
    requires n <= MAX_GROUP && NoneFrom(x, n) && forall k :: 0 <= k < n ==> !Bit(x, k)
    ensures x == 0
  {
    hide NoneFrom, Bit;
    if n == 0 {
      BitsGone0(x);
    } else if n == 1 {
      BitsGone1(x);
    } else if n == 2 {
      BitsGone2(x);
    } else if n == 3 {
      BitsGone3(x);
    } else if n == 4 {
      BitsGone4(x);
    } else if n == 5 {
      BitsGone5(x);
    } else if n == 6 {
      BitsGone6(x);
    } else if n == 7 {
      BitsGone7(x);
    } else {
      BitsGone8(x);
    }
  }

  /** Every declared string is asked for by some call. */
  lemma StringsAsked(m: Model, rngAdd: seq<bv32>, i: nat) returns (t: Tok)
    requires Ready(m, rngAdd) && Forest(m.cnd) && BitsBelow(m) && i < |m.decl|
    ensures t in BodyToks(m) && ((t.Find? && i in t.strs) || (t.FindAt? && i in t.strs))
  {
    hide Bit, NoneFrom, BodyToks, Mask;
    assert !Wrong(m, rngAdd, StringUnused(i));
    var g := SomeBit(m.decl[i].grp, |m.grp|);
    t := CallWritten(m, rngAdd, g);
    assert i in Strs(m, g);
  }

  /** A declared range is named by a call exactly when some matcher that searches - one that is
      not at a place - has it; a find_at matcher declares one all the same. */
  lemma RangeNamedIff(m: Model, rngAdd: seq<bv32>, x: bv32)
    requires Ready(m, rngAdd) && Forest(m.cnd) && x in Ranges(m, |m.grp|)
    ensures (exists t :: t in BodyToks(m) && t.Find? && t.range == x)
       <==> Searched(m, x)
  {
    hide Accepted, BodyToks, Ranges, Strs, Mask, Declared;
    BodyNamesDeclared(m, rngAdd);
    if t :| t in BodyToks(m) && t.Find? && t.range == x { assert Known(m, t); }
    if Searched(m, x) {
      var g: nat :| g < |m.grp| && !IsAt(m.grp[g]) && Mask(m, g) == x;
      var t := CallWritten(m, rngAdd, g);
    }
  }
}
