/** What a draft read back from plain branches says about an object. */
module ReadMeaning {
  import opened TargetC
  import opened DraftModel
  import opened ExprSource
  import opened Matchers
  import opened ExprMeaning
  import opened Conditions
  import opened IdList
  import opened IdEdits
  import opened IdRoom
  import opened Order
  import opened CallText
  import opened Reader
  import opened Rebuild

  // ---- what plain branches mean -----------------------------------------------------------

  ghost predicate CallHolds(call: Tok, thresh: nat, o: Obj)
    requires call.Find? || call.FindAt?
  {
    match call
    case Find(kind, range, strs) =>
      (match kind
       case FindAll => forall s :: s in strs ==> o.found(range, s)
       case FindAny => exists s :: s in strs && o.found(range, s)
       case FindMulti => Hits(o, range, strs) >= thresh)
    case FindAt(place, strs) => strs != [] && o.at(place, strs[0])
  }

  ghost predicate LitHolds(l: RLit, o: Obj)
    requires l.call.Find? || l.call.FindAt?
  {
    CallHolds(l.call, l.thresh, o) != l.neg
  }

  ghost predicate TestHolds(t: RTest, o: Obj)
    requires TestOk(t)
  {
    if t.op then exists i :: 0 <= i < |t.lits| && LitHolds(t.lits[i], o)
    else forall i :: 0 <= i < |t.lits| ==> LitHolds(t.lits[i], o)
  }

  function Told(level: Level, v: Variant): Outcome { if level == NoVerdict then Silent else Report(level, v) }

  ghost function LeafMeaning(x: RLeaf, o: Obj): Outcome
    requires LeafOk(x)
  {
    if TestHolds(x.test, o) then Told(x.level, x.variant) else Fell
  }

  ghost function KidsMeaning(s: seq<RLeaf>, o: Obj): Outcome
    requires forall i :: 0 <= i < |s| ==> LeafOk(s[i])
  {
    if s == [] then Fell
    else
      var r := LeafMeaning(s[0], o);
      if r.Fell? then KidsMeaning(s[1..], o) else r
  }

  ghost function TopMeaning(x: RTop, o: Obj): Outcome
    requires TopOk(x)
  {
    match x
    case TLeaf(leaf) => LeafMeaning(leaf, o)
    case TGate(test, kids, level, v) =>
      if test.Some? && !TestHolds(test.value, o) then Fell
      else
        var r := KidsMeaning(kids, o);
        if !r.Fell? then r else if level == NoVerdict then Fell else Report(level, v)
  }

  ghost predicate TopsOk(s: seq<RTop>) { forall i :: 0 <= i < |s| ==> TopOk(s[i]) }

  ghost function TopsMeaning(s: seq<RTop>, o: Obj): Outcome
    requires TopsOk(s)
  {
    if s == [] then Fell
    else
      var r := TopMeaning(s[0], o);
      if r.Fell? then TopsMeaning(s[1..], o) else r
  }

  // ---- a matcher read back ----------------------------------------------------------------

  predicate Rising(s: seq<nat>) { forall i, j :: 0 <= i < j < |s| ==> s[i] < s[j] }

  /** What the generator writes: a range that is found again by its name, and its markers in order. */
  predicate CallOk(call: Tok, n: nat, h: Header) {
    && (call.Find? || call.FindAt?) && Rising(StrsOf(call)) && (forall s :: s in StrsOf(call) ==> s < n)
    && (call.Find? ==> MaskOf(h, Hold(h.name(call.range))) == call.range && call.range != 0)
  }

  ghost predicate CallsOk(s: seq<RLit>, n: nat, h: Header) {
    forall i :: 0 <= i < |s| ==> CallOk(s[i].call, n, h)
  }

  lemma {:induction false} StrsRising(m: Model, g: nat, i: nat)
    requires g < 32
    ensures Rising(StrsFrom(m, g, i))
    decreases |m.decl| - i
  {
    hide InGrp;
    if i < |m.decl| {
      var rest := StrsFrom(m, g, i + 1);
      StrsRising(m, g, i + 1);
      assert forall j :: 0 <= j < |rest| ==> rest[j] in rest;
    }
  }

  /** Two rising lists of the same numbers are one list. */
  lemma {:induction false} RisingUnique(a: seq<nat>, b: seq<nat>)
    requires Rising(a) && Rising(b) && forall x :: x in a <==> x in b
    ensures a == b
    decreases |a|
  {
    if a == [] {
      assert forall i :: 0 <= i < |b| ==> b[i] in b;
    } else {
      assert a[0] in b;
      assert b[0] in a;
      assert a[0] == b[0];
      var s, t := a[1..], b[1..];
      assert forall i :: 0 <= i < |s| ==> s[i] == a[i + 1];
      assert forall i :: 0 <= i < |t| ==> t[i] == b[i + 1];
      assert forall i :: 0 <= i < |s| ==> s[i] > a[0];
      assert forall i :: 0 <= i < |t| ==> t[i] > b[0];
      assert a == [a[0]] + s && b == [b[0]] + t;
      forall x
        ensures x in s <==> x in t
      {
        assert x in a <==> x == a[0] || x in s;
        assert x in b <==> x == b[0] || x in t;
      }
      RisingUnique(s, t);
    }
  }

  lemma StrsRead(m: Model, calls: seq<RLit>, j: nat)
    requires Wired(m.decl, calls) && j < |calls|
    requires Rising(StrsOf(calls[j].call)) && forall s :: s in StrsOf(calls[j].call) ==> s < |m.decl|
    ensures Strs(m, j) == StrsOf(calls[j].call)
  {
    hide Bit, StrsFrom, StrsOf;
    StrsRising(m, j, 0);
    forall x: nat
      ensures x in Strs(m, j) <==> x in StrsOf(calls[j].call)
    {
      if x < |m.decl| { assert InGrp(m.decl[x], j) <==> Names(calls, j, x); }
    }
    RisingUnique(Strs(m, j), StrsOf(calls[j].call));
  }

  /** A matcher read back asks what the call asked. */
  lemma MatcherRead(m: Model, calls: seq<RLit>, j: nat, h: Header, o: Obj)
    requires Wired(m.decl, calls) && m.grp == Groups(calls, h) && j < |calls|
    requires CallOk(calls[j].call, |m.decl|, h)
    ensures |m.grp| <= 32 && (MatcherHolds(m, j, o) <==> CallHolds(calls[j].call, calls[j].thresh, o))
  {
    hide StrsFrom, Strs, Need, Hits, MaskOf, Hold, IdsOf;
    StrsRead(m, calls, j);
  }

  lemma LitRead(m: Model, calls: seq<RLit>, j: nat, h: Header, o: Obj)
    requires Wired(m.decl, calls) && m.grp == Groups(calls, h) && j < |calls|
    requires CallOk(calls[j].call, |m.decl|, h)
    ensures |m.grp| <= 32 && (Lits(m, o)(j + 1) != calls[j].neg <==> LitHolds(calls[j], o))
  {
    hide Wired, MatcherHolds, CallHolds, Became;
    FewMatchers(m, calls, h);
    MatcherRead(m, calls, j, h, o);
  }

  lemma TestRead(m: Model, calls: seq<RLit>, t: RTest, base: nat, h: Header, o: Obj)
    requires Wired(m.decl, calls) && m.grp == Groups(calls, h) && CallsOk(calls, |m.decl|, h)
    requires TestOk(t) && base + |t.lits| <= |calls| && calls[base..base + |t.lits|] == t.lits
    ensures |m.grp| <= 32
    ensures var text := Print(Numbered(t.lits, base), Op(t));
      text != "" && (TextHolds(m, text, o) <==> TestHolds(t, o))
  {
    hide Wired, Groups, MatcherHolds, CallHolds, Print, Read, Holds, Lex, ListHolds, LitHolds, IdHolds, CallOk;
    FewMatchers(m, calls, h);
    var lits := Numbered(t.lits, base);
    PrintNone(lits, Op(t));
    var c := ListReads(lits, Op(t));
    forall i: nat | i < |t.lits|
      ensures Lits(m, o)(lits[i].n) != lits[i].neg <==> LitHolds(t.lits[i], o)
    {
      assert t.lits[i] == calls[base + i];
      LitRead(m, calls, base + i, h, o);
    }
    assert Holds(c, Lits(m, o)) <==> ListHolds(Op(t), lits, Lits(m, o));
    ListIs(t, Op(t), lits, Lits(m, o), o);
  }

  /** The word between literals does not matter when there is one. */
  lemma ListIs(t: RTest, op: bool, lits: seq<Lit>, lit: nat -> bool, o: Obj)
    requires TestOk(t) && |lits| == |t.lits| && (op == t.op || |lits| == 1)
    requires forall i: nat :: i < |lits| ==> (lit(lits[i].n) != lits[i].neg <==> LitHolds(t.lits[i], o))
    ensures ListHolds(op, lits, lit) <==> TestHolds(t, o)
  {
    hide LitHolds;
    if |lits| == 1 {
      assert lit(lits[0].n) != lits[0].neg <==> LitHolds(t.lits[0], o);
    } else if op {
      if i: nat :| i < |lits| && lit(lits[i].n) != lits[i].neg { assert LitHolds(t.lits[i], o); }
      if i: nat :| i < |lits| && LitHolds(t.lits[i], o) { assert lit(lits[i].n) != lits[i].neg; }
    } else {
      if ListHolds(op, lits, lit) {
        forall i: nat | i < |lits| ensures LitHolds(t.lits[i], o) { assert lit(lits[i].n) != lits[i].neg; }
      }
      if TestHolds(t, o) {
        forall i: nat | i < |lits| ensures lit(lits[i].n) != lits[i].neg { assert LitHolds(t.lits[i], o); }
      }
    }
  }

  // ---- the forest read back ---------------------------------------------------------------

  /** No condition is conjoined with the next. */
  ghost predicate Unjoined(cnd: seq<Cond>) { forall k :: 0 <= k < |cnd| ==> cnd[k].join == JoinOr }

  lemma AloneIn(cnd: seq<Cond>, i: nat)
    requires Unjoined(cnd) && i < |cnd|
    ensures Members(cnd, i) == [i] && RunEnd(cnd, i) == i
  {
  }

  lemma {:induction false} HeadsPast(cnd: seq<Cond>, p: int, k: nat, to: nat)
    requires k <= to <= |cnd| && forall j :: k <= j < to ==> cnd[j].parent != p
    ensures Heads(cnd, p, k) == Heads(cnd, p, to)
    decreases |cnd| - k
  {
    hide RunEnd;
    if k < to { HeadsPast(cnd, p, k + 1, to); }
  }

  lemma HeadsNext(cnd: seq<Cond>, p: int, k: nat)
    requires Unjoined(cnd) && k < |cnd| && cnd[k].parent == p
    ensures Heads(cnd, p, k) == [k] + Heads(cnd, p, k + 1)
  {
    AloneIn(cnd, k);
    hide RunEnd;
  }

  lemma {:induction false} KidsShape(s: seq<RLeaf>, base: nat, parent: int)
    ensures var c := KidsConds(s, base, parent);
      |c| == |s| && forall i :: 0 <= i < |c| ==> c[i].parent == parent && c[i].join == JoinOr
    decreases |s|
  {
    hide Print, Numbered;
    if s != [] { KidsShape(s[1..], base + |s[0].test.lits|, parent); }
  }

  lemma TopShape(x: RTop, base: nat, at: nat)
    ensures var c := TopConds(x, base, at);
      && |c| == 1 + (if x.TGate? then |x.kids| else 0)
      && c[0].parent == -1 && (forall i :: 1 <= i < |c| ==> c[i].parent == at)
      && forall i :: 0 <= i < |c| ==> c[i].join == JoinOr
  {
    hide Print, Numbered, KidsConds;
    if x.TGate? { KidsShape(x.kids, base + |HeadLits(x.test)|, at); }
  }

  /** Only a condition at the top has others inside it. */
  ghost predicate Shallow(cnd: seq<Cond>, at: nat) { forall i :: 0 <= i < |cnd| ==> ShallowAt(cnd, at, i) }

  predicate ShallowAt(cnd: seq<Cond>, at: nat, i: nat)
    requires i < |cnd|
  {
    cnd[i].parent == -1 || (at <= cnd[i].parent < at + i && cnd[cnd[i].parent - at].parent == -1)
  }

  lemma {:induction false} TopsShape(s: seq<RTop>, base: nat, at: nat)
    ensures Shallow(TopsConds(s, base, at), at) && Unjoined(TopsConds(s, base, at))
    decreases |s|
  {
    hide TopConds, TopLits;
    if s != [] {
      var c := TopConds(s[0], base, at);
      var rest := TopsConds(s[1..], base + |TopLits(s[0])|, at + |c|);
      TopShape(s[0], base, at);
      TopsShape(s[1..], base + |TopLits(s[0])|, at + |c|);
      ShapeJoin(c, rest, at);
    }
  }

  lemma ShapeJoin(c: seq<Cond>, rest: seq<Cond>, at: nat)
    requires c != [] && c[0].parent == -1 && forall i :: 1 <= i < |c| ==> c[i].parent == at
    requires Shallow(rest, at + |c|)
    ensures Shallow(c + rest, at)
  {
    var all := c + rest;
    forall i | 0 <= i < |all|
      ensures ShallowAt(all, at, i)
    {
      if i >= |c| {
        assert ShallowAt(rest, at + |c|, i - |c|);
        var r := rest[i - |c|];
        assert all[i] == r;
        if r.parent != -1 { assert all[r.parent - at] == rest[r.parent - (at + |c|)]; }
      }
    }
  }

  /** The draft holds exactly the branches s from condition `at` and matcher `base` on. */
  ghost predicate From(m: Model, calls: seq<RLit>, s: seq<RTop>, base: nat, at: nat, h: Header) {
    && Wired(m.decl, calls) && m.grp == Groups(calls, h) && CallsOk(calls, |m.decl|, h) && |m.grp| <= 32
    && base <= |calls| && at <= |m.cnd| && calls[base..] == TopsLits(s) && m.cnd[at..] == TopsConds(s, base, at)
    && Shallow(m.cnd, 0) && Forest(m.cnd) && Unjoined(m.cnd) && TopsOk(s)
  }

  lemma CondIs(m: Model, calls: seq<RLit>, test: Option<RTest>, base: nat, i: nat, h: Header, o: Obj)
    requires Wired(m.decl, calls) && m.grp == Groups(calls, h) && CallsOk(calls, |m.decl|, h)
    requires i < |m.cnd| && exists p, level, v :: m.cnd[i] == Made(test, base, p, level, v)
    requires test.Some? ==> TestOk(test.value) && base + |test.value.lits| <= |calls|
    requires test.Some? ==> calls[base..base + |test.value.lits|] == test.value.lits
    ensures |m.grp| <= 32
    ensures TextHolds(m, m.cnd[i].expr, o) <==> (test.Some? ==> TestHolds(test.value, o))
  {
    hide TextHolds, TestHolds, Print, CallsOk, Numbered, Groups, Wired;
    FewMatchers(m, calls, h);
    if test.Some? { TestRead(m, calls, test.value, base, h, o); } else { EmptyHolds(m, o); }
  }

  lemma EmptyHolds(m: Model, o: Obj)
    requires |m.grp| <= 32
    ensures TextHolds(m, "", o)
  {
  }

  lemma MadeTold(test: Option<RTest>, base: nat, p: int, level: Level, v: Variant)
    ensures Conclude(Made(test, base, p, level, v)) == Told(level, v)
    ensures GateVerdict(Made(test, base, p, level, v)) == if level == NoVerdict then Fell else Report(level, v)
    ensures Made(test, base, p, level, v).parent == p
  {
    hide Print, Numbered;
  }

  lemma NoKids(cnd: seq<Cond>, i: nat)
    requires forall k :: 0 <= k < |cnd| ==> cnd[k].parent != i
    ensures !HasKids(cnd, i)
  {
  }

  /** A leaf read back says what it was written for. */
  lemma LeafIs(m: Model, calls: seq<RLit>, x: RLeaf, base: nat, i: nat, p: int, h: Header, o: Obj)
    requires Wired(m.decl, calls) && m.grp == Groups(calls, h) && CallsOk(calls, |m.decl|, h)
    requires LeafOk(x) && base + |x.test.lits| <= |calls| && calls[base..base + |x.test.lits|] == x.test.lits
    requires Forest(m.cnd) && Unjoined(m.cnd) && i < |m.cnd|
      && m.cnd[i] == Made(Some(x.test), base, p, x.level, x.variant)
    requires forall k :: 0 <= k < |m.cnd| ==> m.cnd[k].parent != i
    ensures |m.grp| <= 32 && UnitMeaning(m, i, o) == LeafMeaning(x, o)
  {
    hide TextHolds, TestHolds, Print, CallsOk, Numbered, Groups, Wired, HasKids, Heads, FirstOf, Conclude, Made, TestOk;
    assert TestOk(x.test);
    CondIs(m, calls, Some(x.test), base, i, h, o);
    MadeTold(Some(x.test), base, p, x.level, x.variant);
    NoKids(m.cnd, i);
    AloneIn(m.cnd, i);
  }

  /** The branches of a gate, from condition k on, in order. */
  lemma {:induction false} KidsRead(m: Model, calls: seq<RLit>, s: seq<RLeaf>, base: nat, g: nat, k: nat, h: Header,
        o: Obj)
    requires Wired(m.decl, calls) && m.grp == Groups(calls, h) && CallsOk(calls, |m.decl|, h)
    requires Forest(m.cnd) && Unjoined(m.cnd) && Shallow(m.cnd, 0) && g < k && k + |s| <= |m.cnd|
    requires forall i :: 0 <= i < |s| ==> LeafOk(s[i])
    requires m.cnd[k..k + |s|] == KidsConds(s, base, g) && forall j :: k + |s| <= j < |m.cnd| ==> m.cnd[j].parent != g
    requires base + |LeafLits(s)| <= |calls| && calls[base..base + |LeafLits(s)|] == LeafLits(s)
    ensures |m.grp| <= 32 && HeadsIn(m.cnd, Heads(m.cnd, g, k), g + 1)
    ensures FirstOf(m, Heads(m.cnd, g, k), g + 1, o) == KidsMeaning(s, o)
    decreases |s|
  {
    hide Wired, Groups, CallsOk, LeafOk, Made, UnitMeaning, LeafMeaning, Heads, RunEnd, Shallow;
    FewMatchers(m, calls, h);
    if s == [] {
      HeadsPast(m.cnd, g, k, |m.cnd|);
      HeadsNone(m.cnd, g);
    } else {
      var x, t := s[0], s[1..];
      var n := |x.test.lits|;
      KidsCount(t, base + n, g);
      CutKid(m.cnd, k, Made(Some(x.test), base, g, x.level, x.variant), KidsConds(t, base + n, g), |s|);
      CutLits(calls, base, x.test.lits, LeafLits(t), LeafLits(s));
      MadeTold(Some(x.test), base, g, x.level, x.variant);
      KidNoParent(m.cnd, k);
      LeafIs(m, calls, x, base, k, g, h, o);
      HeadsNext(m.cnd, g, k);
      KidsRead(m, calls, t, base + n, g, k + 1, h, o);
      var heads := Heads(m.cnd, g, k);
      assert heads[0] == k && heads[1..] == Heads(m.cnd, g, k + 1);
    }
  }

  lemma FewMatchers(m: Model, calls: seq<RLit>, h: Header)
    requires Wired(m.decl, calls) && m.grp == Groups(calls, h)
    ensures |m.grp| <= 32
  {
    hide Bit;
  }

  lemma HeadsNone(cnd: seq<Cond>, p: int)
    ensures Heads(cnd, p, |cnd|) == []
  {
  }

  lemma CutKid(cnd: seq<Cond>, k: nat, c: Cond, rest: seq<Cond>, n: nat)
    requires n == 1 + |rest| && k + n <= |cnd| && cnd[k..k + n] == [c] + rest
    ensures cnd[k] == c && cnd[k + 1..k + n] == rest
  {
    assert cnd[k..k + n][0] == cnd[k];
    assert cnd[k..k + n][1..] == cnd[k + 1..k + n];
  }

  lemma CutLits(calls: seq<RLit>, base: nat, a: seq<RLit>, b: seq<RLit>, all: seq<RLit>)
    requires all == a + b && base + |all| <= |calls| && calls[base..base + |all|] == all
    ensures calls[base..base + |a|] == a && calls[base + |a|..base + |a| + |b|] == b
  {
    assert calls[base..base + |all|][..|a|] == calls[base..base + |a|];
    assert calls[base..base + |all|][|a|..] == calls[base + |a|..base + |all|];
  }

  lemma KidNoParent(cnd: seq<Cond>, k: nat)
    requires Shallow(cnd, 0) && k < |cnd| && cnd[k].parent >= 0
    ensures forall j :: 0 <= j < |cnd| ==> cnd[j].parent != k
  {
    forall j | 0 <= j < |cnd|
      ensures cnd[j].parent != k
    {
      assert ShallowAt(cnd, 0, j);
    }
  }

  lemma HasKid(cnd: seq<Cond>, i: nat, k: nat)
    requires k < |cnd| && cnd[k].parent == i
    ensures HasKids(cnd, i)
  {
  }

  lemma CutTop(cnd: seq<Cond>, at: nat, c: seq<Cond>, rest: seq<Cond>)
    requires at <= |cnd| && cnd[at..] == c + rest
    ensures at + |c| <= |cnd| && cnd[at..at + |c|] == c && cnd[at + |c|..] == rest
    ensures forall i :: 0 <= i < |c| ==> cnd[at + i] == c[i]
    ensures forall k :: at + |c| <= k < |cnd| ==> cnd[k] == rest[k - (at + |c|)]
  {
    assert cnd[at..][..|c|] == cnd[at..at + |c|] && cnd[at..][|c|..] == cnd[at + |c|..];
  }

  lemma CutCalls(calls: seq<RLit>, base: nat, a: seq<RLit>, b: seq<RLit>)
    requires base <= |calls| && calls[base..] == a + b
    ensures base + |a| <= |calls| && calls[base..base + |a|] == a && calls[base + |a|..] == b
  {
    assert calls[base..][..|a|] == calls[base..base + |a|] && calls[base..][|a|..] == calls[base + |a|..];
  }

  /** Everything inside the branch at `at` is written right after it. */
  lemma OwnKids(m: Model, calls: seq<RLit>, s: seq<RTop>, base: nat, at: nat, h: Header)
    requires From(m, calls, s, base, at, h) && s != []
    ensures var c := TopConds(s[0], base, at);
      && |c| >= 1 && at + |c| <= |m.cnd| && m.cnd[at..at + |c|] == c && m.cnd[at] == c[0] && m.cnd[at].parent == -1
      && (forall k :: 0 <= k < at ==> m.cnd[k].parent != at)
      && (forall k :: at < k < at + |c| ==> m.cnd[k].parent == at)
      && (forall k :: at + |c| <= k < |m.cnd| ==> m.cnd[k].parent != at)
  {
    hide Wired, Groups, CallsOk, TopConds, TopLits, TopOk, Shallow;
    var c, lits := TopConds(s[0], base, at), TopLits(s[0]);
    var rest := TopsConds(s[1..], base + |lits|, at + |c|);
    TopShape(s[0], base, at);
    CutTop(m.cnd, at, c, rest);
    TopsShape(s[1..], base + |lits|, at + |c|);
    forall k | at + |c| <= k < |m.cnd|
      ensures m.cnd[k].parent != at
    {
      Outside(rest, at + |c|, k - (at + |c|));
    }
    forall k | at < k < at + |c|
      ensures m.cnd[k].parent == at
    {
      assert m.cnd[at + (k - at)] == c[k - at];
    }
    assert m.cnd[at + 0] == c[0];
  }

  lemma Outside(cnd: seq<Cond>, at: nat, i: nat)
    requires Shallow(cnd, at) && i < |cnd|
    ensures cnd[i].parent == -1 || cnd[i].parent >= at
  {
    assert ShallowAt(cnd, at, i);
  }

  lemma FromNext(m: Model, calls: seq<RLit>, s: seq<RTop>, base: nat, at: nat, h: Header)
    requires From(m, calls, s, base, at, h) && s != []
    ensures base + |TopLits(s[0])| <= |calls| && calls[base..base + |TopLits(s[0])|] == TopLits(s[0])
    ensures From(m, calls, s[1..], base + |TopLits(s[0])|, at + |TopConds(s[0], base, at)|, h)
  {
    hide Wired, Groups, CallsOk, TopConds, TopLits, TopOk, Shallow;
    var c, lits := TopConds(s[0], base, at), TopLits(s[0]);
    CutTop(m.cnd, at, c, TopsConds(s[1..], base + |lits|, at + |c|));
    CutCalls(calls, base, lits, TopsLits(s[1..]));
  }

  lemma GateIs(x: RTop, base: nat, at: nat)
    requires x.TGate? && TopOk(x)
    ensures TopConds(x, base, at) == [Made(x.test, base, -1, x.level, x.variant)]
      + KidsConds(x.kids, base + |HeadLits(x.test)|, at)
    ensures TopLits(x) == HeadLits(x.test) + LeafLits(x.kids)
    ensures (x.test.Some? ==> TestOk(x.test.value)) && x.kids != [] && forall i :: 0 <= i < |x.kids| ==>
      LeafOk(x.kids[i])
  {
    hide Made, KidsConds, LeafLits, HeadLits, LeafOk, TestOk, NameOk;
  }

  lemma TopRead(m: Model, calls: seq<RLit>, s: seq<RTop>, base: nat, at: nat, h: Header, o: Obj)
    requires From(m, calls, s, base, at, h) && s != []
    ensures at < |m.cnd| && UnitMeaning(m, at, o) == TopMeaning(s[0], o)
  {
    hide Wired, Groups, CallsOk, Made, LeafOk, UnitMeaning, LeafMeaning, Shallow, TopsConds, TopsLits, KidsConds;
    hide LeafLits, HeadLits;
    OwnKids(m, calls, s, base, at, h);
    FromNext(m, calls, s, base, at, h);
    var x := s[0];
    match x
    case TLeaf(leaf) =>
      LeafIs(m, calls, leaf, base, at, -1, h, o);
    case TGate(_, _, _, _) =>
      hide TopMeaning, TopConds, TopLits, TopOk;
      assert TopOk(x);
      GateIs(x, base, at);
      var mid, n := base + |HeadLits(x.test)|, |x.kids|;
      KidsCount(x.kids, mid, at);
      CutKid(m.cnd, at, Made(x.test, base, -1, x.level, x.variant), KidsConds(x.kids, mid, at), 1 + n);
      CutLits(calls, base, HeadLits(x.test), LeafLits(x.kids), TopLits(x));
      GateRead(m, calls, x, base, at, h, o);
  }

  /** A gate read back tries its branches and then speaks for itself. */
  lemma GateRead(m: Model, calls: seq<RLit>, x: RTop, base: nat, at: nat, h: Header, o: Obj)
    requires Wired(m.decl, calls) && m.grp == Groups(calls, h) && CallsOk(calls, |m.decl|, h) && |m.grp| <= 32
    requires Forest(m.cnd) && Unjoined(m.cnd) && Shallow(m.cnd, 0) && x.TGate? && TopOk(x)
    requires at + 1 + |x.kids| <= |m.cnd| && m.cnd[at] == Made(x.test, base, -1, x.level, x.variant)
      && m.cnd[at].parent == -1
    requires m.cnd[at + 1..at + 1 + |x.kids|] == KidsConds(x.kids, base + |HeadLits(x.test)|, at)
    requires forall k :: 0 <= k < at ==> m.cnd[k].parent != at
    requires forall k :: at + 1 + |x.kids| <= k < |m.cnd| ==> m.cnd[k].parent != at
    requires base + |HeadLits(x.test)| + |LeafLits(x.kids)| <= |calls|
      && calls[base..base + |HeadLits(x.test)|] == HeadLits(x.test)
    requires var mid := base + |HeadLits(x.test)|; calls[mid..mid + |LeafLits(x.kids)|] == LeafLits(x.kids)
    ensures UnitMeaning(m, at, o) == TopMeaning(x, o)
  {
    hide Wired, Groups, CallsOk, Made, LeafOk, TestOk, FirstOf, Heads, HasKids, TextHolds, TestHolds, KidsMeaning;
    hide KidsConds, LeafLits, Shallow, NameOk, Conclude, Conditions.GateVerdict, Members, TopConds, TopLits;
    var mid := base + |HeadLits(x.test)|;
    GateIs(x, base, at);
    MadeTold(x.test, base, -1, x.level, x.variant);
    KidsShape(x.kids, mid, at);
    assert m.cnd[at + 1] == m.cnd[at + 1..at + 1 + |x.kids|][0];
    HasKid(m.cnd, at, at + 1);
    AloneIn(m.cnd, at);
    HeadsPast(m.cnd, at, 0, at + 1);
    KidsRead(m, calls, x.kids, mid, at, at + 1, h, o);
    CondIs(m, calls, x.test, base, at, h, o);
  }

  lemma NextTop(m: Model, calls: seq<RLit>, s: seq<RTop>, base: nat, at: nat, h: Header)
    requires From(m, calls, s, base, at, h) && s != []
    ensures var next := at + |TopConds(s[0], base, at)|;
      at < next <= |m.cnd| && Heads(m.cnd, -1, at) == [at] + Heads(m.cnd, -1, next)
  {
    hide Wired, Groups, CallsOk, TopOk, Heads, TopConds, TopLits, TopsConds, TopsLits, Shallow;
    OwnKids(m, calls, s, base, at, h);
    HeadsNext(m.cnd, -1, at);
    HeadsPast(m.cnd, -1, at + 1, at + |TopConds(s[0], base, at)|);
  }

  lemma NoMore(m: Model, calls: seq<RLit>, base: nat, at: nat, h: Header)
    requires From(m, calls, [], base, at, h)
    ensures at == |m.cnd| && Heads(m.cnd, -1, at) == []
  {
    hide Wired, Groups, CallsOk;
    assert |m.cnd[at..]| == 0;
  }

  lemma FromBasics(m: Model, calls: seq<RLit>, s: seq<RTop>, base: nat, at: nat, h: Header)
    requires From(m, calls, s, base, at, h)
    ensures |m.grp| <= 32 && Forest(m.cnd) && at <= |m.cnd| && TopsOk(s)
    ensures HeadsIn(m.cnd, Heads(m.cnd, -1, at), 0)
  {
    hide Wired, Groups, CallsOk;
  }

  /** A draft holding exactly these branches says what they mean. */
  lemma {:induction false} TopsRead(m: Model, calls: seq<RLit>, s: seq<RTop>, base: nat, at: nat, h: Header, o: Obj)
    requires From(m, calls, s, base, at, h)
    ensures |m.grp| <= 32 && Forest(m.cnd) && at <= |m.cnd| && TopsOk(s)
    ensures HeadsIn(m.cnd, Heads(m.cnd, -1, at), 0)
    ensures FirstOf(m, Heads(m.cnd, -1, at), 0, o) == TopsMeaning(s, o)
    decreases |s|
  {
    hide From, TopOk, UnitMeaning, TopMeaning, Heads, TopConds, TopLits;
    FromBasics(m, calls, s, base, at, h);
    if s == [] {
      NoMore(m, calls, base, at, h);
    } else {
      var next := at + |TopConds(s[0], base, at)|;
      FromNext(m, calls, s, base, at, h);
      TopRead(m, calls, s, base, at, h, o);
      NextTop(m, calls, s, base, at, h);
      TopsRead(m, calls, s[1..], base + |TopLits(s[0])|, next, h, o);
      var heads := Heads(m.cnd, -1, at);
      assert heads[0] == at && heads[1..] == Heads(m.cnd, -1, next);
    }
  }
}
