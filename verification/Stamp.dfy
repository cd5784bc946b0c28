/** The stamp that says whether a draft was edited, and what it must not see: the order of the
    blocks, which is a fact about the file on screen, and option values that are not the author's. */
module Stamp {
  import opened TargetC
  import opened DraftModel
  import opened Matchers
  import opened ExprSource
  import opened ExprMeaning
  import opened Conditions
  import opened DraftEdits

  const HASH_INIT: bv32 := 2166136261
  const HASH_PRIME: bv32 := 16777619

  /** One step of the 32-bit hash. */
  function Mix(h: bv32, c: bv8): bv32 { (h ^ (c as bv32)) * HASH_PRIME }

  function Fold(h: bv32, s: seq<bv8>): bv32
    decreases |s|
  {
    if s == [] then h else Fold(Mix(h, s[0]), s[1..])
  }

  lemma {:induction false} FoldAppend(h: bv32, s: seq<bv8>, t: seq<bv8>)
    ensures Fold(h, s + t) == Fold(Fold(h, s), t)
    decreases |s|
  {
    hide Mix;
    if s == [] {
      assert s + t == t;
    } else {
      assert (s + t)[1..] == s[1..] + t;
      FoldAppend(Mix(h, s[0]), s[1..], t);
    }
  }

  /** What a cast to one byte keeps. */
  function Low(n: int): bv8 { (n % 0x100) as bv8 }

  function LowOf(x: bv32): bv8 { (x & 0xFF) as bv8 }

  function Flag(b: bool): bv8 { if b then 1 else 0 }

  // ---- what is mixed in, in order ---------------------------------------------------------

  /** The parts of a draft nothing else here looks at. */
  datatype Title = Title(family: seq<bv8>, note: seq<bv8>, maltype: nat, simUse: seq<bool>)

  function RangeBytes(s: seq<bv32>): seq<bv8> { if s == [] then [] else [LowOf(s[0])] + RangeBytes(s[1..]) }

  /** A value that is not the author's counts as none. */
  function OptBytes(p: Opt): seq<bv8> {
    var val := if p.auto then 0 else p.val;
    [Flag(!p.auto && p.on), Low(val), Low(val / 0x1_0000_0000)]
  }

  function OptsBytes(s: seq<Opt>): seq<bv8> { if s == [] then [] else OptBytes(s[0]) + OptsBytes(s[1..]) }

  function DeclBytes(d: Decl): seq<bv8> {
    [Low(d.len), Low(d.hex), LowOf(d.mask), LowOf(d.grp), Low(d.fullword), Low(d.icase)]
      + if d.hexs != [] then d.hexs else d.bytes
  }

  function DeclsBytes(s: seq<Decl>): seq<bv8> { if s == [] then [] else DeclBytes(s[0]) + DeclsBytes(s[1..]) }

  function GrpBytes(q: Group): seq<bv8> { [Low(q.rule), Low(q.thresh), LowOf(q.mask)] + q.note }

  function GrpsBytes(s: seq<Group>): seq<bv8> { if s == [] then [] else GrpBytes(s[0]) + GrpsBytes(s[1..]) }

  function TextBytes(s: string): seq<bv8> { if s == "" then [] else [Low(s[0] as int)] + TextBytes(s[1..]) }

  function LevelByte(l: Level): bv8 {
    match l
    case Infect => 0
    case Suspect => 1
    case NoVerdict => 2
  }

  function CondBytes(c: Cond): seq<bv8> {
    [LevelByte(c.level), Low(c.varKind), Low(c.parent), Flag(c.op), Flag(c.join == JoinAnd)]
      + TextBytes(c.expr) + TextBytes(c.variant)
  }

  function CondsBytes(s: seq<Cond>): seq<bv8> { if s == [] then [] else CondBytes(s[0]) + CondsBytes(s[1..]) }

  function BlockHash(b: Block): bv32 { Fold(HASH_INIT, [LowOf(b.id), Low(b.norm), Low(b.anywhere)]) }

  function Weight(b: Block): nat { if b.picked then BlockHash(b) as nat else 0 }

  /** The picked blocks as a set: each hashed alone, the results added. */
  function Sum(s: seq<Block>): nat { if s == [] then 0 else Sum(s[..|s| - 1]) + Weight(s[|s| - 1]) }

  /** The accumulator is 32 bits wide. */
  function SumBytes(x: nat): seq<bv8> {
    var acc := x % 0x1_0000_0000;
    [Low(acc), Low(acc / 0x100), Low(acc / 0x1_0000), Low(acc / 0x100_0000)]
  }

  function FlagsBytes(s: seq<bool>): seq<bv8> { if s == [] then [] else [Flag(s[0])] + FlagsBytes(s[1..]) }

  function ItemBytes(blk: seq<Block>, it: SimItem): seq<bv8> {
    [Low(it.what)] + if it.what == SIM_IT_BLOCK && it.blk < |blk| then [LowOf(blk[it.blk].id)] else []
  }

  function ItemsBytes(blk: seq<Block>, s: seq<SimItem>): seq<bv8> {
    if s == [] then [] else ItemBytes(blk, s[0]) + ItemsBytes(blk, s[1..])
  }

  function SimBytes(blk: seq<Block>, q: Group): seq<bv8> {
    if q.kind != Sim then [Low(0)] else [Low(1), Low(q.pct), Low(|q.sim|)] + ItemsBytes(blk, q.sim)
  }

  function SimsBytes(blk: seq<Block>, s: seq<Group>): seq<bv8> {
    if s == [] then [] else SimBytes(blk, s[0]) + SimsBytes(blk, s[1..])
  }

  function Head(m: Model, opt: seq<Opt>, rngAdd: seq<bv32>, x: Title): seq<bv8> {
    x.family + x.note + [Low(x.maltype)] + RangeBytes(rngAdd) + OptsBytes(opt)
      + DeclsBytes(m.decl) + GrpsBytes(m.grp) + CondsBytes(m.cnd)
  }

  function Bytes(m: Model, opt: seq<Opt>, rngAdd: seq<bv32>, x: Title): seq<bv8> {
    Head(m, opt, rngAdd, x) + SumBytes(Sum(m.blk)) + FlagsBytes(x.simUse) + SimsBytes(m.blk, m.grp)
  }

  function StampOf(m: Model, opt: seq<Opt>, rngAdd: seq<bv32>, x: Title): bv32 {
    Fold(HASH_INIT, Bytes(m, opt, rngAdd, x))
  }

  // ---- an option nobody set ---------------------------------------------------------------

  /** Nothing set by the author: the engine's own, or off. */
  predicate Unset(p: Opt) { p.auto || (!p.on && p.val == 0) }

  ghost predicate SameSettings(a: seq<Opt>, b: seq<Opt>) {
    |a| == |b| && forall i :: 0 <= i < |a| ==> a[i] == b[i] || (Unset(a[i]) && Unset(b[i]))
  }

  lemma {:induction false} SettingsBytes(a: seq<Opt>, b: seq<Opt>)
    requires SameSettings(a, b)
    ensures OptsBytes(a) == OptsBytes(b)
    decreases |a|
  {
    hide Low, Flag;
    if a != [] {
      SettingsBytes(a[1..], b[1..]);
      assert (!a[0].auto && a[0].on) == (!b[0].auto && b[0].on);
    }
  }

  /** Whatever the engine puts into an option, the draft does not read as edited - and neither
      does one where the author has set nothing. */
  lemma AutoUnseen(m: Model, a: seq<Opt>, b: seq<Opt>, rngAdd: seq<bv32>, x: Title)
    requires SameSettings(a, b)
    ensures StampOf(m, a, rngAdd, x) == StampOf(m, b, rngAdd, x)
  {
    hide Fold, OptsBytes;
    SettingsBytes(a, b);
  }

  /** Where a find_at matcher looks is not part of the stamp. */
  lemma PlaceUnseen(m: Model, g: nat, p: Place, opt: seq<Opt>, rngAdd: seq<bv32>, x: Title)
    requires g < |m.grp|
    ensures StampOf(m.(grp := m.grp[g := m.grp[g].(place := p)]), opt, rngAdd, x) == StampOf(m, opt, rngAdd, x)
  {
    hide Fold, GrpsBytes, SimsBytes, Sum;
    PlaceBytes(m.grp, g, p, m.blk);
  }

  lemma {:induction false} PlaceBytes(s: seq<Group>, g: nat, p: Place, blk: seq<Block>)
    requires g < |s|
    ensures GrpsBytes(s[g := s[g].(place := p)]) == GrpsBytes(s)
    ensures SimsBytes(blk, s[g := s[g].(place := p)]) == SimsBytes(blk, s)
    decreases |s|
  {
    hide Low, LowOf, ItemsBytes;
    var t := s[g := s[g].(place := p)];
    if g > 0 {
      PlaceBytes(s[1..], g - 1, p, blk);
      assert t[1..] == s[1..][g - 1 := s[g].(place := p)];
    } else {
      assert t[1..] == s[1..];
    }
  }

  // ---- the blocks in another order --------------------------------------------------------

  ghost predicate Perm(to: seq<nat>, n: nat) {
    && |to| == n
    && (forall i :: 0 <= i < n ==> to[i] < n)
    && (forall i, j :: 0 <= i < j < n ==> to[i] != to[j])
  }

  ghost predicate Rearranged(a: seq<Block>, b: seq<Block>, to: seq<nat>) {
    |a| == |b| && Perm(to, |a|) && forall i :: 0 <= i < |a| ==> b[to[i]] == a[i]
  }

  lemma SumNone()
    ensures Sum([]) == 0
  {
  }

  lemma SumSnoc(s: seq<Block>, b: Block)
    ensures Sum(s + [b]) == Sum(s) + Weight(b)
  {
    hide Weight;
    assert (s + [b])[..|s|] == s;
  }

  lemma {:induction false} SumWithout(s: seq<Block>, p: nat)
    requires p < |s|
    ensures Sum(s) == Sum(s[..p] + s[p + 1..]) + Weight(s[p])
    decreases |s|
  {
    hide Weight, Sum;
    var n := |s| - 1;
    var init := s[..n];
    assert s == init + [s[n]];
    SumSnoc(init, s[n]);
    if p == n {
      assert s[..p] + s[p + 1..] == init;
    } else {
      var cut := init[..p] + init[p + 1..];
      SumWithout(init, p);
      assert s[..p] + s[p + 1..] == cut + [s[n]];
      SumSnoc(cut, s[n]);
    }
  }

  function Closer(p: nat, x: nat): nat { if x > p then x - 1 else x }

  function Nearer(to: seq<nat>): (r: seq<nat>)
    requires to != []
    ensures |r| == |to| - 1 && forall i :: 0 <= i < |r| ==> r[i] == Closer(to[|to| - 1], to[i])
  {
    seq(|to| - 1, i requires 0 <= i < |to| - 1 => Closer(to[|to| - 1], to[i]))
  }

  lemma NearerPerm(to: seq<nat>)
    requires to != [] && Perm(to, |to|)
    ensures Perm(Nearer(to), |to| - 1)
  {
  }

  lemma PermAt(to: seq<nat>, n: nat, i: nat)
    requires Perm(to, n) && i < n - 1
    ensures to[i] < n && to[i] != to[n - 1]
  {
  }

  lemma NearerRearranged(a: seq<Block>, b: seq<Block>, to: seq<nat>)
    requires a != [] && Rearranged(a, b, to)
    ensures var n := |a| - 1; Rearranged(a[..n], b[..to[n]] + b[to[n] + 1..], Nearer(to))
  {
    NearerPerm(to);
    hide Perm;
    var n := |a| - 1;
    var p := to[n];
    forall i | 0 <= i < n
      ensures (b[..p] + b[p + 1..])[Nearer(to)[i]] == a[..n][i]
    {
      PermAt(to, |a|, i);
    }
  }

  /** The sum does not depend on the order. */
  lemma {:induction false} SumRearranged(a: seq<Block>, b: seq<Block>, to: seq<nat>)
    requires Rearranged(a, b, to)
    ensures Sum(a) == Sum(b)
    decreases |a|
  {
    hide Weight, Sum, Nearer;
    if a == [] {
      assert a == b;
    } else {
      var n := |a| - 1;
      NearerRearranged(a, b, to);
      SumRearranged(a[..n], b[..to[n]] + b[to[n] + 1..], Nearer(to));
      SumWithout(b, to[n]);
      assert a == a[..n] + [a[n]];
      SumSnoc(a[..n], a[n]);
    }
  }

  function MovedItem(it: SimItem, to: seq<nat>): SimItem {
    if it.what == SIM_IT_BLOCK && it.blk < |to| then it.(blk := to[it.blk]) else it
  }

  function MovedItems(s: seq<SimItem>, to: seq<nat>): (r: seq<SimItem>)
    ensures |r| == |s| && forall i :: 0 <= i < |s| ==> r[i] == MovedItem(s[i], to)
  {
    seq(|s|, i requires 0 <= i < |s| => MovedItem(s[i], to))
  }

  function MovedGrp(q: Group, to: seq<nat>): Group {
    if q.kind == Sim then q.(sim := MovedItems(q.sim, to)) else q
  }

  function MovedGrps(s: seq<Group>, to: seq<nat>): (r: seq<Group>)
    ensures |r| == |s| && forall i :: 0 <= i < |s| ==> r[i] == MovedGrp(s[i], to)
  {
    seq(|s|, i requires 0 <= i < |s| => MovedGrp(s[i], to))
  }

  lemma {:induction false} ItemsMoved(a: seq<Block>, b: seq<Block>, to: seq<nat>, s: seq<SimItem>)
    requires Rearranged(a, b, to)
    ensures ItemsBytes(b, MovedItems(s, to)) == ItemsBytes(a, s)
    decreases |s|
  {
    hide Low, LowOf;
    if s != [] {
      var r := MovedItems(s, to);
      ItemsMoved(a, b, to, s[1..]);
      assert r[1..] == MovedItems(s[1..], to);
      assert ItemBytes(b, r[0]) == ItemBytes(a, s[0]);
    }
  }

  lemma {:induction false} SimsMoved(a: seq<Block>, b: seq<Block>, to: seq<nat>, s: seq<Group>)
    requires Rearranged(a, b, to)
    ensures SimsBytes(b, MovedGrps(s, to)) == SimsBytes(a, s) && GrpsBytes(MovedGrps(s, to)) == GrpsBytes(s)
    decreases |s|
  {
    hide Low, LowOf, ItemsBytes, Rearranged;
    if s != [] {
      var r := MovedGrps(s, to);
      SimsMoved(a, b, to, s[1..]);
      assert r[1..] == MovedGrps(s[1..], to);
      ItemsMoved(a, b, to, s[0].sim);
    }
  }

  function Reordered(m: Model, blk: seq<Block>, to: seq<nat>): Model {
    m.(blk := blk, grp := MovedGrps(m.grp, to))
  }

  /** Putting the blocks in another order and telling the matchers is not an edit. */
  lemma OrderUnseen(m: Model, blk: seq<Block>, to: seq<nat>, opt: seq<Opt>, rngAdd: seq<bv32>, x: Title)
    requires Rearranged(m.blk, blk, to)
    ensures StampOf(Reordered(m, blk, to), opt, rngAdd, x) == StampOf(m, opt, rngAdd, x)
  {
    hide Fold, Sum, SimsBytes, GrpsBytes, MovedGrps, Rearranged;
    SumRearranged(m.blk, blk, to);
    SimsMoved(m.blk, blk, to, m.grp);
  }

  // ---- and no matcher names another block for it ------------------------------------------

  lemma {:induction false} UsableMoved(m: Model, blk: seq<Block>, to: seq<nat>, s: seq<SimItem>)
    requires Rearranged(m.blk, blk, to)
    ensures Usable(Reordered(m, blk, to), MovedItems(s, to)) == Usable(m, s)
    decreases |s|
  {
    if s != [] {
      var r := MovedItems(s, to);
      UsableMoved(m, blk, to, s[1..]);
      assert r[1..] == MovedItems(s[1..], to);
    }
  }

  lemma MaskMoved(m: Model, n: Model, g: nat)
    requires m.decl == n.decl && g < |m.grp| <= 32 && g < |n.grp| <= 32 && m.grp[g].mask == n.grp[g].mask
    ensures Strs(m, g) == Strs(n, g) && Mask(m, g) == Mask(n, g)
  {
    hide StrsFrom, Need;
    StrsSame(m, n, g, 0);
    NeedSame(m, n, g, |m.decl|);
  }

  lemma MatcherMoved(m: Model, blk: seq<Block>, to: seq<nat>, g: nat, o: Obj)
    requires g < |m.grp| <= 32 && Rearranged(m.blk, blk, to)
    ensures MatcherHolds(Reordered(m, blk, to), g, o) <==> MatcherHolds(m, g, o)
  {
    hide Strs, Mask, Usable, Hits, Rearranged;
    var n := Reordered(m, blk, to);
    MaskMoved(m, n, g);
    UsableMoved(m, blk, to, m.grp[g].sim);
  }

  lemma {:induction false} HoldsSame(c: Cnd, a: nat -> bool, b: nat -> bool)
    requires forall n: nat :: a(n) == b(n)
    ensures Holds(c, a) <==> Holds(c, b)
    decreases c
  {
    match c
    case CId(_, _) =>
    case CNot(x) => HoldsSame(x, a, b);
    case CAnd(x, y) => HoldsSame(x, a, b); HoldsSame(y, a, b);
    case COr(x, y) => HoldsSame(x, a, b); HoldsSame(y, a, b);
  }

  lemma TextMoved(m: Model, blk: seq<Block>, to: seq<nat>, text: string, o: Obj)
    requires |m.grp| <= 32 && Rearranged(m.blk, blk, to)
    ensures TextHolds(Reordered(m, blk, to), text, o) <==> TextHolds(m, text, o)
  {
    hide MatcherHolds, Holds, Read, Rearranged;
    var n := Reordered(m, blk, to);
    forall k: nat
      ensures Lits(n, o)(k) == Lits(m, o)(k)
    {
      if 1 <= k <= |m.grp| { MatcherMoved(m, blk, to, k - 1, o); }
    }
    if Read(text).Some? { HoldsSame(Read(text).value, Lits(n, o), Lits(m, o)); }
  }

  /** Nor does it change what the draft says about any object. */
  lemma OrderKeepsMeaning(m: Model, blk: seq<Block>, to: seq<nat>, o: Obj)
    requires |m.grp| <= 32 && Forest(m.cnd) && Rearranged(m.blk, blk, to)
    ensures Meaning(Reordered(m, blk, to), o) == Meaning(m, o)
  {
    hide TextHolds, Rearranged, Meaning;
    forall k | 0 <= k < |m.cnd|
      ensures TextHolds(Reordered(m, blk, to), m.cnd[k].expr, o) <==> TextHolds(m, m.cnd[k].expr, o)
    {
      TextMoved(m, blk, to, m.cnd[k].expr, o);
    }
    AlikeMeaning(m, Reordered(m, blk, to), o);
  }

  // ---- the loops --------------------------------------------------------------------------

  /** Every matcher that names a block by number is told its new one. */
  method BlkPermute(d: Draft, to: seq<nat>)
    modifies d`grp
    ensures d.grp == MovedGrps(old(d.grp), to)
  {
    for g := 0 to |d.grp|
      invariant |d.grp| == |old(d.grp)|
      invariant forall k :: 0 <= k < g ==> d.grp[k] == MovedGrp(old(d.grp)[k], to)
      invariant forall k :: g <= k < |d.grp| ==> d.grp[k] == old(d.grp)[k]
    {
      if d.grp[g].kind != Sim { continue; }
      ghost var was := d.grp[g].sim;
      var sim := d.grp[g].sim;
      for i := 0 to |sim|
        invariant |sim| == |was|
        invariant forall k :: 0 <= k < i ==> sim[k] == MovedItem(was[k], to)
        invariant forall k :: i <= k < |sim| ==> sim[k] == was[k]
      {
        if sim[i].what == SIM_IT_BLOCK && sim[i].blk < |to| {
          sim := sim[i := sim[i].(blk := to[sim[i].blk])];
        }
      }
      assert sim == MovedItems(was, to);
      d.grp := d.grp[g := d.grp[g].(sim := sim)];
    }
  }

  /** a belongs after b: blocks in file order, those this object does not hold last. */
  predicate After(a: Block, b: Block) {
    if a.len == 0 then b.len != 0 else b.len != 0 && b.off < a.off
  }

  /** The order to show the blocks in: every number once, and no block before one it belongs
      after. */
  method SortBlocks(blk: seq<Block>) returns (ord: array<nat>)
    ensures fresh(ord) && Perm(ord[..], |blk|)
    ensures forall i, j :: 0 <= i < j < |blk| ==> !After(blk[ord[i]], blk[ord[j]])
  {
    var n := |blk|;
    ord := new nat[n](i => i);
    for i := 0 to n
      invariant Perm(ord[..], n)
      invariant forall k :: i <= k < n ==> ord[k] == k
      invariant forall x, y :: 0 <= x < y < i ==> !After(blk[ord[x]], blk[ord[y]])
    {
      Insert(blk, ord, i);
    }
  }

  method Insert(blk: seq<Block>, ord: array<nat>, i: nat)
    requires i < |blk| == ord.Length && Perm(ord[..], |blk|)
    requires forall x, y :: 0 <= x < y < i ==> !After(blk[ord[x]], blk[ord[y]])
    modifies ord
    ensures Perm(ord[..], |blk|) && forall k :: i < k < |blk| ==> ord[k] == old(ord[k])
    ensures forall x, y :: 0 <= x < y <= i ==> !After(blk[ord[x]], blk[ord[y]])
  {
    var t := ord[i];
    var j := i;
    while j > 0 && After(blk[ord[j - 1]], blk[t])
      invariant 0 <= j <= i && t == old(ord[i])
      invariant forall k :: 0 <= k < j ==> ord[k] == old(ord[k])
      invariant forall k :: j < k <= i ==> ord[k] == old(ord[k - 1]) && After(blk[ord[k]], blk[t])
      invariant forall k :: i < k < |blk| ==> ord[k] == old(ord[k])
      invariant j < i ==> ord[j] == old(ord[j])
    {
      ord[j] := ord[j - 1];
      j := j - 1;
    }
    ord[j] := t;
  }

  function Values(s: seq<nat>): set<nat> { set i | 0 <= i < |s| :: s[i] }

  function Below(n: nat): (r: set<nat>)
    ensures |r| == n && forall x: nat :: x in r <==> x < n
  {
    if n == 0 then {} else Below(n - 1) + {n - 1}
  }

  lemma {:induction false} ValuesCount(s: seq<nat>)
    requires forall i, j :: 0 <= i < j < |s| ==> s[i] != s[j]
    ensures |Values(s)| == |s|
    decreases |s|
  {
    if s != [] {
      ValuesCount(s[..|s| - 1]);
      assert Values(s) == Values(s[..|s| - 1]) + {s[|s| - 1]};
    }
  }

  /** A numbering without repeats leaves no number out. */
  lemma PermCovers(s: seq<nat>, n: nat, v: nat)
    requires Perm(s, n) && v < n
    ensures exists i :: 0 <= i < n && s[i] == v
  {
    ValuesCount(s);
    var rest := Below(n) - Values(s);
    assert Values(s) <= Below(n);
    assert Below(n) == Values(s) + rest;
    assert v in Values(s);
  }

  method Invert(ord: array<nat>, n: nat) returns (to: array<nat>)
    requires ord.Length == n && Perm(ord[..], n)
    ensures fresh(to) && Perm(to[..], n) && forall i :: 0 <= i < n ==> to[ord[i]] == i && ord[to[i]] == i
  {
    to := new nat[n](_ => 0);
    for i := 0 to n
      invariant Perm(ord[..], n) && fresh(to) && forall k :: 0 <= k < i ==> to[ord[k]] == k
    {
      assert ord[..][i] == ord[i] && forall k :: 0 <= k < i ==> ord[..][k] != ord[..][i];
      to[ord[i]] := i;
    }
    forall v | 0 <= v < n
      ensures to[v] < n && ord[to[v]] == v
    {
      PermCovers(ord[..], n, v);
      var i :| 0 <= i < n && ord[..][i] == v;
      assert to[ord[i]] == i;
    }
  }

  method Gather(blk: seq<Block>, ord: array<nat>) returns (r: seq<Block>)
    requires Perm(ord[..], |blk|)
    ensures |r| == |blk| && forall i :: 0 <= i < |blk| ==> r[i] == blk[ord[i]]
  {
    r := [];
    for i := 0 to |blk|
      invariant |r| == i && forall k :: 0 <= k < i ==> r[k] == blk[ord[k]]
    {
      assert ord[..][i] == ord[i];
      r := r + [blk[ord[i]]];
    }
  }

  /** The blocks sorted, and where each went. */
  method Sorted(blk: seq<Block>) returns (r: seq<Block>, to: seq<nat>)
    ensures Rearranged(blk, r, to)
    ensures forall i, j :: 0 <= i < j < |r| ==> !After(r[i], r[j])
  {
    hide After;
    var ord := SortBlocks(blk);
    r := Gather(blk, ord);
    var place := Invert(ord, |blk|);
    to := place[..];
    assert forall v :: 0 <= v < |blk| ==> to[v] == place[v];
  }

  /** The blocks put in the order of the file on screen, and the matchers told: not an edit. */
  method MtnOrder(d: Draft) returns (ghost to: seq<nat>)
    requires d.Valid()
    modifies d`blk, d`grp
    ensures d.Valid() && Rearranged(old(d.blk), d.blk, to) && d.Snap() == Reordered(old(d.Snap()), d.blk, to)
    ensures forall i, j :: 0 <= i < j < |d.blk| ==> !After(d.blk[i], d.blk[j])
    ensures forall x: Title :: StampOf(d.Snap(), d.opt, d.rngAdd, x) == old(StampOf(d.Snap(), d.opt, d.rngAdd, x))
  {
    hide StampOf, After, Rearranged, MovedGrps;
    ghost var m := d.Snap();
    var blk, moved := Sorted(d.blk);
    d.blk := blk;
    BlkPermute(d, moved);
    to := moved;
    forall x: Title
      ensures StampOf(d.Snap(), d.opt, d.rngAdd, x) == StampOf(m, d.opt, d.rngAdd, x)
    {
      OrderUnseen(m, blk, to, d.opt, d.rngAdd, x);
    }
  }

  // ---- the stamp, byte by byte ------------------------------------------------------------

  method MixAll(h0: bv32, s: seq<bv8>) returns (h: bv32)
    ensures h == Fold(h0, s)
  {
    hide Mix;
    h := h0;
    for i := 0 to |s|
      invariant Fold(h, s[i..]) == Fold(h0, s)
    {
      assert s[i..][1..] == s[i + 1..];
      h := Mix(h, s[i]);
    }
  }

  lemma TailStep<T>(s: seq<T>, i: nat)
    requires i < |s|
    ensures s[i..] != [] && s[i..][0] == s[i] && s[i..][1..] == s[i + 1..]
  {
  }

  method MixRanges(h0: bv32, s: seq<bv32>) returns (h: bv32)
    ensures h == Fold(h0, RangeBytes(s))
  {
    hide Mix, LowOf;
    h := h0;
    for i := 0 to |s|
      invariant Fold(h, RangeBytes(s[i..])) == Fold(h0, RangeBytes(s))
    {
      TailStep(s, i);
      FoldAppend(h, [LowOf(s[i])], RangeBytes(s[i + 1..]));
      h := MixAll(h, [LowOf(s[i])]);
    }
  }

  method MixOpts(h0: bv32, s: seq<Opt>) returns (h: bv32)
    ensures h == Fold(h0, OptsBytes(s))
  {
    hide Mix, OptBytes;
    h := h0;
    for i := 0 to |s|
      invariant Fold(h, OptsBytes(s[i..])) == Fold(h0, OptsBytes(s))
    {
      TailStep(s, i);
      FoldAppend(h, OptBytes(s[i]), OptsBytes(s[i + 1..]));
      h := MixAll(h, OptBytes(s[i]));
    }
  }

  method MixDecls(h0: bv32, s: seq<Decl>) returns (h: bv32)
    ensures h == Fold(h0, DeclsBytes(s))
  {
    hide Mix, DeclBytes;
    h := h0;
    for i := 0 to |s|
      invariant Fold(h, DeclsBytes(s[i..])) == Fold(h0, DeclsBytes(s))
    {
      TailStep(s, i);
      FoldAppend(h, DeclBytes(s[i]), DeclsBytes(s[i + 1..]));
      h := MixAll(h, DeclBytes(s[i]));
    }
  }

  method MixGrps(h0: bv32, s: seq<Group>) returns (h: bv32)
    ensures h == Fold(h0, GrpsBytes(s))
  {
    hide Mix, GrpBytes;
    h := h0;
    for i := 0 to |s|
      invariant Fold(h, GrpsBytes(s[i..])) == Fold(h0, GrpsBytes(s))
    {
      TailStep(s, i);
      FoldAppend(h, GrpBytes(s[i]), GrpsBytes(s[i + 1..]));
      h := MixAll(h, GrpBytes(s[i]));
    }
  }

  method MixConds(h0: bv32, s: seq<Cond>) returns (h: bv32)
    ensures h == Fold(h0, CondsBytes(s))
  {
    hide Mix, CondBytes;
    h := h0;
    for i := 0 to |s|
      invariant Fold(h, CondsBytes(s[i..])) == Fold(h0, CondsBytes(s))
    {
      TailStep(s, i);
      FoldAppend(h, CondBytes(s[i]), CondsBytes(s[i + 1..]));
      h := MixAll(h, CondBytes(s[i]));
    }
  }

  method AddBlock(acc: nat, b: Block) returns (r: nat)
    requires b.picked
    ensures r == (acc + Weight(b)) % 0x1_0000_0000
  {
    hide Fold, LowOf, Low;
    var h := MixAll(HASH_INIT, [LowOf(b.id), Low(b.norm), Low(b.anywhere)]);
    r := (acc + h as nat) % 0x1_0000_0000;
  }

  lemma Wrapped(a: nat, w: nat)
    ensures (a % 0x1_0000_0000 + w) % 0x1_0000_0000 == (a + w) % 0x1_0000_0000
  {
  }

  lemma Unpicked(b: Block)
    requires !b.picked
    ensures Weight(b) == 0
  {
  }

  /** The picked blocks, each hashed on its own and added into 32 bits. */
  method AddBlocks(s: seq<Block>) returns (acc: nat)
    ensures acc == Sum(s) % 0x1_0000_0000
  {
    hide Weight, Sum;
    acc := 0;
    SumNone();
    assert s[..0] == [];
    for i := 0 to |s|
      invariant acc == Sum(s[..i]) % 0x1_0000_0000
    {
      assert s[..i + 1] == s[..i] + [s[i]];
      SumSnoc(s[..i], s[i]);
      Wrapped(Sum(s[..i]), Weight(s[i]));
      if !s[i].picked {
        Unpicked(s[i]);
        continue;
      }
      acc := AddBlock(acc, s[i]);
    }
    assert s[..|s|] == s;
  }

  method MixFlags(h0: bv32, s: seq<bool>) returns (h: bv32)
    ensures h == Fold(h0, FlagsBytes(s))
  {
    hide Mix, Flag;
    h := h0;
    for i := 0 to |s|
      invariant Fold(h, FlagsBytes(s[i..])) == Fold(h0, FlagsBytes(s))
    {
      TailStep(s, i);
      FoldAppend(h, [Flag(s[i])], FlagsBytes(s[i + 1..]));
      h := MixAll(h, [Flag(s[i])]);
    }
  }

  method MixItems(h0: bv32, blk: seq<Block>, s: seq<SimItem>) returns (h: bv32)
    ensures h == Fold(h0, ItemsBytes(blk, s))
  {
    hide Mix, ItemBytes;
    h := h0;
    for i := 0 to |s|
      invariant Fold(h, ItemsBytes(blk, s[i..])) == Fold(h0, ItemsBytes(blk, s))
    {
      TailStep(s, i);
      FoldAppend(h, ItemBytes(blk, s[i]), ItemsBytes(blk, s[i + 1..]));
      h := MixAll(h, ItemBytes(blk, s[i]));
    }
  }

  method MixSims(h0: bv32, blk: seq<Block>, s: seq<Group>) returns (h: bv32)
    ensures h == Fold(h0, SimsBytes(blk, s))
  {
    hide Mix, Low, ItemsBytes;
    h := h0;
    for i := 0 to |s|
      invariant Fold(h, SimsBytes(blk, s[i..])) == Fold(h0, SimsBytes(blk, s))
    {
      var q := s[i];
      TailStep(s, i);
      FoldAppend(h, SimBytes(blk, q), SimsBytes(blk, s[i + 1..]));
      if q.kind != Sim {
        h := MixAll(h, [Low(0)]);
        continue;
      }
      FoldAppend(h, [Low(1), Low(q.pct), Low(|q.sim|)], ItemsBytes(blk, q.sim));
      h := MixAll(h, [Low(1), Low(q.pct), Low(|q.sim|)]);
      h := MixItems(h, blk, q.sim);
    }
  }

  method DraftHash(d: Draft, x: Title) returns (h: bv32)
    requires d.Valid()
    ensures h == StampOf(d.Snap(), d.opt, d.rngAdd, x)
  {
    hide Fold, Sum, RangeBytes, OptsBytes, DeclsBytes, GrpsBytes, CondsBytes, FlagsBytes, SimsBytes, Low;
    h := MixAll(HASH_INIT, x.family);
    h := MixAll(h, x.note);
    h := MixAll(h, [Low(x.maltype)]);
    h := MixRanges(h, d.rngAdd);
    h := MixOpts(h, d.opt);
    h := MixDecls(h, d.decl);
    h := MixGrps(h, d.grp);
    h := MixConds(h, d.cnd);
    HeadFold(d.Snap(), d.opt, d.rngAdd, x);
    var acc := AddBlocks(d.blk);
    h := MixAll(h, [Low(acc), Low(acc / 0x100), Low(acc / 0x1_0000), Low(acc / 0x100_0000)]);
    h := MixFlags(h, x.simUse);
    h := MixSims(h, d.blk, d.grp);
    BytesFold(d.Snap(), d.opt, d.rngAdd, x);
  }

  lemma HeadFold(m: Model, opt: seq<Opt>, rngAdd: seq<bv32>, x: Title)
    ensures Fold(HASH_INIT, Head(m, opt, rngAdd, x))
         == Fold(Fold(Fold(Fold(Fold(Fold(Fold(Fold(HASH_INIT, x.family), x.note), [Low(x.maltype)]),
              RangeBytes(rngAdd)), OptsBytes(opt)), DeclsBytes(m.decl)), GrpsBytes(m.grp)), CondsBytes(m.cnd))
  {
    hide Fold, RangeBytes, OptsBytes, DeclsBytes, GrpsBytes, CondsBytes, Low;
    var s1 := x.family + x.note;
    var s2 := s1 + [Low(x.maltype)];
    var s3 := s2 + RangeBytes(rngAdd);
    var s4 := s3 + OptsBytes(opt);
    var s5 := s4 + DeclsBytes(m.decl);
    var s6 := s5 + GrpsBytes(m.grp);
    FoldAppend(HASH_INIT, x.family, x.note);
    FoldAppend(HASH_INIT, s1, [Low(x.maltype)]);
    FoldAppend(HASH_INIT, s2, RangeBytes(rngAdd));
    FoldAppend(HASH_INIT, s3, OptsBytes(opt));
    FoldAppend(HASH_INIT, s4, DeclsBytes(m.decl));
    FoldAppend(HASH_INIT, s5, GrpsBytes(m.grp));
    FoldAppend(HASH_INIT, s6, CondsBytes(m.cnd));
  }

  lemma BytesFold(m: Model, opt: seq<Opt>, rngAdd: seq<bv32>, x: Title)
    ensures StampOf(m, opt, rngAdd, x)
         == Fold(Fold(Fold(Fold(HASH_INIT, Head(m, opt, rngAdd, x)), SumBytes(Sum(m.blk))), FlagsBytes(x.simUse)),
              SimsBytes(m.blk, m.grp))
  {
    hide Fold, Head, SumBytes, Sum, FlagsBytes, SimsBytes;
    var s1 := Head(m, opt, rngAdd, x) + SumBytes(Sum(m.blk));
    FoldAppend(HASH_INIT, Head(m, opt, rngAdd, x), SumBytes(Sum(m.blk)));
    FoldAppend(HASH_INIT, s1, FlagsBytes(x.simUse));
    FoldAppend(HASH_INIT, s1 + FlagsBytes(x.simUse), SimsBytes(m.blk, m.grp));
  }
}
