/** Finding a marker in an object again: the symbol halves first, then the file, and of the
    occurrences in the file the one the detection would have used. */
module Locator {
  import opened TargetC
  import opened DraftModel

  const HITS_MAX: nat := 64
  const SYM_IMP: bv32 := 0x4000_0000
  const SYM_EXP: bv32 := 0x8000_0000

  /** The matcher as this code sees it. `find(from, end, p)`: the windowed search accepts p;
      `exact(p)`: the whole buffer matches at p; `cut(p, n)`: it does when cut to n bytes. */
  datatype Search = Search(find: (nat, nat, nat) -> bool, exact: nat -> bool, cut: (nat, nat) -> bool)

  /** An occurrence in a window is one wherever the window began - a range search takes the start
      of its range for a word boundary, so for whole words the match is asked for again. */
  ghost predicate Honest(q: Search, fullword: bool, hit: (nat, nat) -> bool) {
    forall from: nat, end: nat, p: nat :: from <= p < end ==>
      (q.find(from, end, p) && (fullword ==> q.exact(p)) <==> hit(end, p))
  }

  /** What matches in a few bytes matches in more. */
  ghost predicate Monotone(q: Search) {
    forall p: nat, n: nat, n': nat :: n <= n' && q.cut(p, n) ==> q.cut(p, n')
  }

  predicate Overlaps(a: bv32, b: bv32) { a & b != 0 }

  function Both(a: bv32, b: bv32): bv32 { a | b }

  // ---- regions ----------------------------------------------------------------------------

  datatype Extent = Extent(off: nat, len: nat)

  datatype Region = Region(mask: bv32, ext: seq<Extent>)

  predicate Inside(e: Extent, off: nat) { e.off <= off < e.off + e.len }

  predicate Holds(r: Region, off: nat) { exists j :: 0 <= j < |r.ext| && Inside(r.ext[j], off) }

  /** The first region of the map holding an offset. */
  function RegionAt(rs: seq<Region>, off: nat): bv32 {
    if rs == [] then 0 else if Holds(rs[0], off) then rs[0].mask else RegionAt(rs[1..], off)
  }

  method RegionMapAt(rs: seq<Region>, off: nat) returns (r: bv32)
    ensures r == RegionAt(rs, off)
  {
    for k := 0 to |rs|
      invariant RegionAt(rs, off) == RegionAt(rs[k..], off)
    {
      assert rs[k..][1..] == rs[k + 1..];
      for j := 0 to |rs[k].ext|
        invariant forall i :: 0 <= i < j ==> !Inside(rs[k].ext[i], off)
      {
        if Inside(rs[k].ext[j], off) { return rs[k].mask; }
      }
    }
    return 0;
  }

  // ---- every occurrence -------------------------------------------------------------------

  /** The occurrences in a window, ascending. */
  ghost function Occ(hit: (nat, nat) -> bool, from: nat, end: nat): seq<nat>
    decreases end as int - from as int
  {
    if from >= end then [] else (if hit(end, from) then [from] else []) + Occ(hit, from + 1, end)
  }

  ghost predicate Ascending(s: seq<nat>) { forall i, j :: 0 <= i < j < |s| ==> s[i] < s[j] }

  lemma {:induction false} OccIs(hit: (nat, nat) -> bool, from: nat, end: nat)
    ensures forall p: nat :: p in Occ(hit, from, end) <==> from <= p < end && hit(end, p)
    ensures Ascending(Occ(hit, from, end))
    decreases end as int - from as int
  {
    if from < end {
      var rest := Occ(hit, from + 1, end);
      OccIs(hit, from + 1, end);
      assert forall i :: 0 <= i < |rest| ==> rest[i] in rest;
    }
  }

  lemma {:induction false} OccSkip(hit: (nat, nat) -> bool, from: nat, to: nat, end: nat)
    requires from <= to <= end && forall p: nat :: from <= p < to ==> !hit(end, p)
    ensures Occ(hit, from, end) == Occ(hit, to, end)
    decreases end as int - from as int
  {
    if from < to { OccSkip(hit, from + 1, to, end); }
  }

  // ---- what is kept of them ---------------------------------------------------------------

  class Locate {
    var at: Option<nat>
    var atMask: bv32
    var sym: bv32
    var seenMask: bv32
    var inRgn: bool
    var offRgn: bool
    var curHit: nat
    var clipped: bool
    var hits: seq<nat>
    var hitLen: seq<nat>

    constructor ()
      ensures at == None && sym == 0 && seenMask == 0 && !inRgn && !offRgn && curHit == 0 && !clipped
      ensures hits == [] && hitLen == []
    {
      at, atMask, sym, seenMask := None, 0, 0, 0;
      inRgn, offRgn, curHit, clipped := false, false, 0, false;
      hits, hitLen := [], [];
    }
  }

  function First64(s: seq<nat>): seq<nat> { if |s| <= HITS_MAX then s else s[..HITS_MAX] }

  predicate Allowed(mask: bv32, rm: bv32) { mask == 0 || Overlaps(mask, SCAN_ALL) || Overlaps(rm, mask) }

  /** The index of the first occurrence in a region the mask names. */
  function FirstNamed(s: seq<nat>, mask: bv32, region: nat -> bv32): (r: nat)
    ensures r <= |s|
  {
    if s == [] then 0 else if Allowed(mask, region(s[0])) then 0 else 1 + FirstNamed(s[1..], mask, region)
  }

  lemma {:induction false} FirstNamedIs(s: seq<nat>, mask: bv32, region: nat -> bv32)
    ensures var r := FirstNamed(s, mask, region);
      && (r < |s| ==> Allowed(mask, region(s[r])))
      && (forall i :: 0 <= i < r ==> !Allowed(mask, region(s[i])))
    decreases |s|
  {
    hide Allowed;
    if s != [] {
      var t := s[1..];
      FirstNamedIs(t, mask, region);
      assert forall i :: 1 <= i < |s| ==> s[i] == t[i - 1];
    }
  }

  /** Every region an occurrence is in. */
  function Seen(s: seq<nat>, region: nat -> bv32): bv32 {
    if s == [] then 0 else Both(Seen(s[..|s| - 1], region), region(s[|s| - 1]))
  }

  /** The list of occurrences, cut at 64. */
  ghost predicate TracksHits(o: Locate, s: seq<nat>)
    reads o`hits, o`clipped
  {
    o.hits == First64(s) && (o.clipped <==> |s| > HITS_MAX)
  }

  /** The occurrence reported, and which of the list it is. */
  ghost predicate TracksAt(o: Locate, s: seq<nat>, mask: bv32, region: nat -> bv32)
    reads o`at, o`atMask, o`inRgn, o`curHit, o`seenMask
  {
    var k := FirstNamed(s, mask, region);
    && (k == |s| ==> o.at == None && !o.inRgn && o.curHit == 0 && o.seenMask == Seen(s, region))
    && (k < |s| ==>
          && o.at == Some(s[k]) && o.atMask == region(s[k]) && o.inRgn
          && o.curHit == if k < HITS_MAX then k else HITS_MAX - 1)
  }

  /** What is known once the occurrences s have been met, in order. */
  ghost predicate Tracks(o: Locate, s: seq<nat>, mask: bv32, region: nat -> bv32)
    reads o`hits, o`clipped, o`at, o`atMask, o`inRgn, o`curHit, o`seenMask
  {
    TracksHits(o, s) && TracksAt(o, s, mask, region)
  }

  lemma {:induction false} NamedAppend(s: seq<nat>, t: seq<nat>, mask: bv32, region: nat -> bv32)
    ensures var k := FirstNamed(s, mask, region);
      FirstNamed(s + t, mask, region) == if k < |s| then k else |s| + FirstNamed(t, mask, region)
    decreases |s|
  {
    hide Allowed;
    if s == [] {
      assert s + t == t;
    } else {
      NamedAppend(s[1..], t, mask, region);
      assert (s + t)[1..] == s[1..] + t;
    }
  }

  /** Once the list is full and there is an answer, no later occurrence changes anything. */
  lemma FullAndAnswered(o: Locate, s: seq<nat>, t: seq<nat>, mask: bv32, region: nat -> bv32)
    requires Tracks(o, s, mask, region) && o.clipped && o.at.Some?
    ensures Tracks(o, s + t, mask, region)
  {
    NamedAppend(s, t, mask, region);
    assert (s + t)[..HITS_MAX] == s[..HITS_MAX];
  }

  /** The least p from `from` on that the windowed search accepts. */
  method MatchWhere(q: Search, from: nat, end: nat) returns (at: Option<nat>)
    ensures at.Some? ==> from <= at.value < end && q.find(from, end, at.value)
    ensures forall p :: from <= p < (if at.Some? then at.value else end) ==> !q.find(from, end, p)
  {
    var p := from;
    while p < end
      invariant from <= p && (p <= end || p == from) && forall i :: from <= i < p ==> !q.find(from, end, i)
    {
      if q.find(from, end, p) { return Some(p); }
      p := p + 1;
    }
    return None;
  }

  method RecordHit(o: Locate, at: nat, ghost s: seq<nat>)
    requires TracksHits(o, s)
    modifies o`hits, o`clipped
    ensures TracksHits(o, s + [at]) && |o.hits| == if |s| < HITS_MAX then |s| + 1 else HITS_MAX
  {
    if |o.hits| < HITS_MAX {
      o.hits := o.hits + [at];
      assert o.hits == s + [at];
    } else {
      o.clipped := true;
      assert (s + [at])[..HITS_MAX] == s[..HITS_MAX];
    }
  }

  method RecordAt(o: Locate, at: nat, rm: bv32, mask: bv32, ghost s: seq<nat>, ghost region: nat -> bv32)
    requires TracksAt(o, s, mask, region) && rm == region(at)
    requires |o.hits| == if |s| < HITS_MAX then |s| + 1 else HITS_MAX
    modifies o`at, o`atMask, o`inRgn, o`curHit, o`seenMask
    ensures TracksAt(o, s + [at], mask, region)
  {
    hide Allowed, Both, FirstNamed;
    NamedAppend(s, [at], mask, region);
    NamedOne(at, mask, region);
    SeenSnoc(s, at, region);
    o.seenMask := Both(o.seenMask, rm);
    if o.at.None? && Allowed(mask, rm) {
      o.at, o.atMask, o.inRgn := Some(at), rm, true;
      o.curHit := |o.hits| - 1;
    }
  }

  lemma SeenSnoc(s: seq<nat>, at: nat, region: nat -> bv32)
    ensures Seen(s + [at], region) == Both(Seen(s, region), region(at))
  {
    hide Both;
    assert (s + [at])[..|s|] == s;
  }

  /** One more occurrence. */
  method Record(o: Locate, at: nat, rm: bv32, mask: bv32, ghost s: seq<nat>, ghost region: nat -> bv32)
    requires Tracks(o, s, mask, region) && rm == region(at)
    modifies o`hits, o`clipped, o`at, o`atMask, o`inRgn, o`curHit, o`seenMask
    ensures Tracks(o, s + [at], mask, region)
  {
    hide TracksAt, TracksHits;
    RecordHit(o, at, s);
    RecordAt(o, at, rm, mask, s, region);
  }

  lemma NamedOne(at: nat, mask: bv32, region: nat -> bv32)
    ensures FirstNamed([at], mask, region) == if Allowed(mask, region(at)) then 0 else 1
  {
    assert [at][1..] == [];
  }

  lemma NoHit(q: Search, from: nat, to: nat, end: nat, fullword: bool, hit: (nat, nat) -> bool)
    requires Honest(q, fullword, hit) && from <= to <= end
    requires forall p: nat :: from <= p < to ==> !q.find(from, end, p)
    ensures Occ(hit, from, end) == Occ(hit, to, end)
  {
    forall p: nat | from <= p < to
      ensures !hit(end, p)
    {
      assert !q.find(from, end, p);
    }
    OccSkip(hit, from, to, end);
  }

  /** Every occurrence of one window, told to the result in order. */
  method LocateWalk(o: Locate, q: Search, from0: nat, end: nat, fullword: bool, mask: bv32,
                    ghost hit: (nat, nat) -> bool, region: nat -> bv32, ghost s0: seq<nat>)
    requires Honest(q, fullword, hit) && Tracks(o, s0, mask, region)
    modifies o`hits, o`clipped, o`at, o`atMask, o`inRgn, o`curHit, o`seenMask
    ensures Tracks(o, s0 + Occ(hit, from0, end), mask, region)
  {
    hide Tracks, Occ;
    var from := from0;
    ghost var s := s0;
    ghost var all := s0 + Occ(hit, from0, end);
    while from < end
      invariant Tracks(o, s, mask, region) && all == s + Occ(hit, from, end)
      decreases end as int - from as int
    {
      var found := MatchWhere(q, from, end);
      if found.None? {
        NoHit(q, from, end, end, fullword, hit);
        OccNone(hit, end, end);
        assert all == s + [] == s;
        return;
      }
      var at := found.value;
      NoHit(q, from, at, end, fullword, hit);
      OccStep(hit, at, end);
      if fullword && !q.exact(at) {
        assert [] + Occ(hit, at + 1, end) == Occ(hit, at + 1, end);
        from := at + 1;
        continue;
      }
      Record(o, at, region(at), mask, s, region);
      assert s + ([at] + Occ(hit, at + 1, end)) == (s + [at]) + Occ(hit, at + 1, end);
      s := s + [at];
      from := at + 1;
      if o.clipped && o.at.Some? {
        FullAndAnswered(o, s, Occ(hit, from, end), mask, region);
        return;
      }
    }
    OccNone(hit, from, end);
    assert all == s + [] == s;
  }

  lemma OccNone(hit: (nat, nat) -> bool, from: nat, end: nat)
    requires from >= end
    ensures Occ(hit, from, end) == []
  {
  }

  lemma OccStep(hit: (nat, nat) -> bool, at: nat, end: nat)
    requires at < end
    ensures Occ(hit, at, end) == (if hit(end, at) then [at] else []) + Occ(hit, at + 1, end)
  {
  }

  // ---- how long each match is -------------------------------------------------------------

  function Cap(spanMax: nat, at: nat, size: nat): nat
    requires at <= size
  {
    if at + spanMax > size then size - at else spanMax
  }

  /** The least length of the span the match survives being cut to, bounded by the end of the
      buffer. */
  ghost predicate Shortest(q: Search, at: nat, spanMin: nat, spanMax: nat, size: nat, len: nat)
    requires at <= size
  {
    var hi := Cap(spanMax, at, size);
    if spanMax <= spanMin || hi <= spanMin then len == spanMin
    else
      && spanMin <= len <= hi
      && (forall n: nat :: at + spanMin <= n < at + len ==> !q.cut(at, n))
      && (len < hi ==> q.cut(at, at + len))
  }

  method Length(q: Search, at: nat, spanMin: nat, spanMax: nat, size: nat) returns (len: nat)
    requires Monotone(q) && at <= size
    ensures Shortest(q, at, spanMin, spanMax, size, len)
  {
    if spanMax <= spanMin { return spanMin; }
    var lo, hi := spanMin, spanMax;
    if at + hi > size { hi := size - at; }
    ghost var top := hi;
    while lo < hi
      invariant spanMin <= lo && 0 <= hi <= top && (lo <= hi || lo == spanMin)
      invariant forall n: nat :: at + spanMin <= n < at + lo ==> !q.cut(at, n)
      invariant hi < top ==> q.cut(at, at + hi)
      decreases hi - lo
    {
      var mid := lo + (hi - lo) / 2;
      if q.cut(at, at + mid) {
        hi := mid;
      } else {
        assert forall n: nat :: n <= at + mid && q.cut(at, n) ==> q.cut(at, at + mid);
        lo := mid + 1;
      }
    }
    return lo;
  }

  method LocateLens(o: Locate, q: Search, spanMin: nat, spanMax: nat, size: nat)
    requires Monotone(q) && forall i :: 0 <= i < |o.hits| ==> o.hits[i] <= size
    modifies o`hitLen
    ensures |o.hitLen| == |o.hits|
    ensures forall i :: 0 <= i < |o.hits| ==> Shortest(q, o.hits[i], spanMin, spanMax, size, o.hitLen[i])
  {
    hide Shortest;
    o.hitLen := [];
    for h := 0 to |o.hits|
      invariant |o.hitLen| == h
      invariant forall i :: 0 <= i < h ==> Shortest(q, o.hits[i], spanMin, spanMax, size, o.hitLen[i])
    {
      var len := Length(q, o.hits[h], spanMin, spanMax, size);
      o.hitLen := o.hitLen + [len];
    }
  }

  // ---- imports, then exports, then the file -----------------------------------------------

  /** One half of the symbol block: the windows its names lie in. */
  datatype Symbols = Symbols(q: Search, size: nat, imports: seq<Extent>, exports: seq<Extent>)

  ghost function OccAll(hit: (nat, nat) -> bool, ext: seq<Extent>): seq<nat> {
    if ext == [] then []
    else
      OccAll(hit, ext[..|ext| - 1]) + Occ(hit, ext[|ext| - 1].off, ext[|ext| - 1].off + ext[|ext| - 1].len)
  }

  predicate InBuffer(ext: seq<Extent>, size: nat) { forall i :: 0 <= i < |ext| ==> ext[i].off + ext[i].len <= size }

  lemma {:induction false} OccAllIn(hit: (nat, nat) -> bool, ext: seq<Extent>, size: nat)
    requires InBuffer(ext, size)
    ensures forall p :: p in OccAll(hit, ext) ==> p < size
    decreases |ext|
  {
    if ext != [] {
      var e := ext[|ext| - 1];
      OccAllIn(hit, ext[..|ext| - 1], size);
      OccIs(hit, e.off, e.off + e.len);
    }
  }

  method WalkHalf(o: Locate, y: Symbols, ext: seq<Extent>, fullword: bool, mask: bv32, bit: bv32,
                  ghost hit: (nat, nat) -> bool)
    requires Honest(y.q, fullword, hit) && Tracks(o, [], mask, (p: nat) => bit)
    modifies o`hits, o`clipped, o`at, o`atMask, o`inRgn, o`curHit, o`seenMask
    ensures Tracks(o, OccAll(hit, ext), mask, (p: nat) => bit)
  {
    hide Tracks, Occ;
    assert ext[..0] == [];
    for e := 0 to |ext|
      invariant Tracks(o, OccAll(hit, ext[..e]), mask, (p: nat) => bit)
    {
      assert ext[..e + 1][..e] == ext[..e] && ext[..e + 1][e] == ext[e];
      LocateWalk(o, y.q, ext[e].off, ext[e].off + ext[e].len, fullword, mask, hit, (p: nat) => bit,
                 OccAll(hit, ext[..e]));
    }
    assert ext[..|ext|] == ext;
  }

  lemma TracksNone(o: Locate, mask: bv32, region: nat -> bv32)
    requires o.at == None && o.seenMask == 0 && !o.inRgn && o.curHit == 0 && !o.clipped && o.hits == []
    ensures Tracks(o, [], mask, region)
  {
  }

  lemma TracksSome(o: Locate, s: seq<nat>, mask: bv32, region: nat -> bv32)
    requires Tracks(o, s, mask, region)
    ensures |o.hits| <= |s| && (|o.hits| == 0 <==> s == [])
    ensures forall i :: 0 <= i < |o.hits| ==> o.hits[i] == s[i]
    ensures s == [] ==> o.at == None && o.seenMask == 0 && !o.inRgn && o.curHit == 0 && !o.clipped && o.hits == []
  {
  }

  /** The half named by `bit`, when the mask names it and it holds an occurrence. */
  method TryHalf(o: Locate, y: Symbols, ext: seq<Extent>, fullword: bool, mask: bv32, bit: bv32,
                 spanMin: nat, spanMax: nat, ghost hit: (nat, nat) -> bool) returns (found: bool)
    requires Honest(y.q, fullword, hit) && Monotone(y.q) && InBuffer(ext, y.size)
    requires o.at == None && o.seenMask == 0 && !o.inRgn && o.curHit == 0 && !o.clipped && o.hits == []
    modifies o
    ensures found <==> Overlaps(mask, bit) && OccAll(hit, ext) != []
    ensures found ==> Tracks(o, OccAll(hit, ext), mask, (p: nat) => bit) && o.sym == bit
    ensures found ==> Measured(o, y.q, spanMin, spanMax, y.size)
    ensures !found ==> o.at == None && o.seenMask == 0 && !o.inRgn && o.curHit == 0 && !o.clipped && o.hits == []
    ensures !found ==> o.sym == old(o.sym) && o.hitLen == old(o.hitLen)
    ensures o.offRgn == old(o.offRgn)
  {
    hide Tracks, Overlaps, Shortest;
    ghost var s := OccAll(hit, ext);
    if !Overlaps(mask, bit) { return false; }
    TracksNone(o, mask, (p: nat) => bit);
    WalkHalf(o, y, ext, fullword, mask, bit, hit);
    TracksSome(o, s, mask, (p: nat) => bit);
    if |o.hits| == 0 { return false; }
    OccAllIn(hit, ext, y.size);
    assert forall i :: 0 <= i < |o.hits| ==> o.hits[i] == s[i] && s[i] in s;
    o.sym := bit;
    LocateLens(o, y.q, spanMin, spanMax, y.size);
    return true;
  }

  ghost predicate Measured(o: Locate, q: Search, spanMin: nat, spanMax: nat, size: nat)
    reads o`hits, o`hitLen
  {
    && |o.hitLen| == |o.hits|
    && forall i :: 0 <= i < |o.hits| ==>
      o.hits[i] <= size && Shortest(q, o.hits[i], spanMin, spanMax, size, o.hitLen[i])
  }

  /** What the file tells: the list, and the occurrence a range of the rule would have found - or
      the first, marked as one no range names. */
  ghost predicate FileFound(o: Locate, s: seq<nat>, mask: bv32, region: nat -> bv32)
    reads o`hits, o`clipped, o`at, o`atMask, o`inRgn, o`offRgn, o`curHit, o`seenMask
  {
    var k := FirstNamed(s, mask, region);
    && TracksHits(o, s)
    && (s == [] ==> o.at == None && !o.inRgn && !o.offRgn)
    && (k < |s| ==> TracksAt(o, s, mask, region) && !o.offRgn)
    && (0 < |s| == k ==>
          && o.at == Some(s[0]) && o.curHit == 0 && o.offRgn && !o.inRgn
          && o.atMask == if Seen(s, region) != 0 then Seen(s, region) else region(s[0]))
  }

  /** Only occurrences outside the mask: the first of them is reported, and marked as such. */
  method Settle(o: Locate, mask: bv32, region: nat -> bv32, ghost s: seq<nat>)
    requires Tracks(o, s, mask, region) && !o.offRgn
    modifies o`at, o`atMask, o`curHit, o`offRgn
    ensures FileFound(o, s, mask, region)
  {
    hide FirstNamed, Seen;
    NoneNamed(s, mask, region);
    if o.at.None? && |o.hits| > 0 {
      o.at := Some(o.hits[0]);
      o.atMask := if o.seenMask != 0 then o.seenMask else region(o.hits[0]);
      o.curHit, o.offRgn := 0, true;
    }
  }

  method LocateFile(o: Locate, q: Search, rs: seq<Region>, size: nat, fullword: bool, mask: bv32,
                    spanMin: nat, spanMax: nat, ghost hit: (nat, nat) -> bool)
    requires Honest(q, fullword, hit) && Monotone(q)
    requires o.at == None && o.seenMask == 0 && !o.inRgn && o.curHit == 0 && !o.clipped && o.hits == []
    requires !o.offRgn && o.hitLen == []
    modifies o
    ensures FileFound(o, Occ(hit, 0, size), mask, (p: nat) => RegionAt(rs, p))
    ensures Measured(o, q, spanMin, spanMax, size) && o.sym == old(o.sym)
  {
    hide Tracks, Occ, Shortest, RegionAt, FileFound;
    ghost var s := Occ(hit, 0, size);
    var region := (p: nat) => RegionAt(rs, p);
    TracksNone(o, mask, region);
    LocateWalk(o, q, 0, size, fullword, mask, hit, region, []);
    assert [] + s == s;
    TracksWithin(o, hit, size, mask, region);
    Settle(o, mask, region, s);
    LocateLens(o, q, spanMin, spanMax, size);
  }

  lemma TracksWithin(o: Locate, hit: (nat, nat) -> bool, size: nat, mask: bv32, region: nat -> bv32)
    requires Tracks(o, Occ(hit, 0, size), mask, region)
    ensures forall i :: 0 <= i < |o.hits| ==> o.hits[i] <= size
  {
    hide Occ, TracksAt;
    var s := Occ(hit, 0, size);
    OccIs(hit, 0, size);
    forall i | 0 <= i < |o.hits|
      ensures o.hits[i] <= size
    {
      assert s[i] in s;
    }
  }

  lemma NoneNamed(s: seq<nat>, mask: bv32, region: nat -> bv32)
    ensures FirstNamed(s, mask, region) <= |s| && (s == [] ==> FirstNamed(s, mask, region) == 0)
  {
  }

  ghost function Half(mask: bv32, bit: bv32, hit: (nat, nat) -> bool, ext: seq<Extent>): seq<nat> {
    if Overlaps(mask, bit) then OccAll(hit, ext) else []
  }

  /** Imports, then exports, then the file: the first of the three that holds an occurrence is
      the one reported, with everything found there. */
  method LocateStr(q: Search, y: Symbols, rs: seq<Region>, size: nat, plen: nat, fullword: bool, mask: bv32,
                   spanMin: nat, spanMax: nat, ghost inFile: (nat, nat) -> bool, ghost inSym: (nat, nat) -> bool)
    returns (o: Locate, found: bool)
    requires Honest(q, fullword, inFile) && Monotone(q) && Honest(y.q, fullword, inSym) && Monotone(y.q)
    requires InBuffer(y.imports, y.size) && InBuffer(y.exports, y.size)
    ensures fresh(o)
    ensures plen == 0 ==> !found && o.at == None && o.hits == []
    ensures plen > 0 ==>
      var imp := Half(mask, SYM_IMP, inSym, y.imports);
      var exp := Half(mask, SYM_EXP, inSym, y.exports);
      var all := if plen <= size then Occ(inFile, 0, size) else [];
      && (found <==> imp != [] || exp != [] || all != [])
      && (imp != [] ==>
            && Tracks(o, imp, mask, (p: nat) => SYM_IMP) && o.sym == SYM_IMP
            && Measured(o, y.q, spanMin, spanMax, y.size))
      && (imp == [] && exp != [] ==>
            && Tracks(o, exp, mask, (p: nat) => SYM_EXP) && o.sym == SYM_EXP
            && Measured(o, y.q, spanMin, spanMax, y.size))
      && (imp == [] && exp == [] ==>
            && FileFound(o, all, mask, (p: nat) => RegionAt(rs, p)) && o.sym == 0
            && Measured(o, q, spanMin, spanMax, size))
  {
    hide Tracks, Occ, OccAll, Overlaps, FileFound, RegionAt, Measured;
    o := new Locate();
    if plen == 0 { return o, false; }
    found := TryHalf(o, y, y.imports, fullword, mask, SYM_IMP, spanMin, spanMax, inSym);
    if found { return; }
    found := TryHalf(o, y, y.exports, fullword, mask, SYM_EXP, spanMin, spanMax, inSym);
    if found { return; }
    if plen > size {
      FileNone(o, mask, (p: nat) => RegionAt(rs, p));
      MeasuredNone(o, q, spanMin, spanMax, size);
      return o, false;
    }
    LocateFile(o, q, rs, size, fullword, mask, spanMin, spanMax, inFile);
    FileSome(o, Occ(inFile, 0, size), mask, (p: nat) => RegionAt(rs, p));
    return o, o.at.Some?;
  }

  lemma FileNone(o: Locate, mask: bv32, region: nat -> bv32)
    requires o.at == None && !o.inRgn && !o.offRgn && !o.clipped && o.hits == []
    ensures FileFound(o, [], mask, region)
  {
  }

  lemma MeasuredNone(o: Locate, q: Search, spanMin: nat, spanMax: nat, size: nat)
    requires o.hits == [] && o.hitLen == []
    ensures Measured(o, q, spanMin, spanMax, size)
  {
  }

  lemma FileSome(o: Locate, s: seq<nat>, mask: bv32, region: nat -> bv32)
    requires FileFound(o, s, mask, region)
    ensures o.at.Some? <==> s != []
  {
  }

  // ---- what it all says about the object --------------------------------------------------

  /** Reported from the file: the least occurrence in a region the mask names, or, when there is
      none, the least of all and marked so; the list is the least 64, ascending, and said to be
      cut exactly when there are more. */
  lemma FileAnswer(o: Locate, hit: (nat, nat) -> bool, size: nat, mask: bv32, region: nat -> bv32)
    requires FileFound(o, Occ(hit, 0, size), mask, region)
    ensures o.inRgn <==> exists p: nat :: p < size && hit(size, p) && Allowed(mask, region(p))
    ensures o.inRgn ==> o.at.Some? && !o.offRgn && o.at.value < size && hit(size, o.at.value)
    ensures o.inRgn ==> Allowed(mask, region(o.at.value))
    ensures o.inRgn ==> forall p: nat :: p < o.at.value && hit(size, p) ==> !Allowed(mask, region(p))
    ensures o.offRgn ==> o.at.Some? && o.at.value < size && hit(size, o.at.value)
    ensures o.offRgn ==> forall p: nat :: p < o.at.value ==> !hit(size, p)
    ensures o.offRgn <==> !o.inRgn && exists p: nat :: p < size && hit(size, p)
    ensures Ascending(o.hits) && |o.hits| <= HITS_MAX
    ensures forall p: nat :: p < size && hit(size, p) ==>
      p in o.hits || (o.clipped && forall h :: h in o.hits ==> h < p)
    ensures forall h :: h in o.hits ==> h < size && hit(size, h)
    ensures o.clipped ==> |o.hits| == HITS_MAX && exists p: nat :: p < size && hit(size, p) && p !in o.hits
  {
    hide Allowed, Occ;
    var s := Occ(hit, 0, size);
    var k := FirstNamed(s, mask, region);
    OccIs(hit, 0, size);
    FirstNamedIs(s, mask, region);
    hide FirstNamed;
    forall p: nat | p < size && hit(size, p)
      ensures exists i :: 0 <= i < |s| && s[i] == p
    {
      assert p in s;
    }
    if |s| > 0 { assert s[0] in s; }
    if k < |s| { assert s[k] in s; }
    if |s| > HITS_MAX { assert s[HITS_MAX] in s; }
  }

  /** The row of the list that is the one reported, unless the list was cut before it. */
  lemma CurHitIs(o: Locate, s: seq<nat>, mask: bv32, region: nat -> bv32)
    requires FileFound(o, s, mask, region) && Ascending(s) && s != []
    ensures o.curHit < |o.hits| && (o.hits[o.curHit] == o.at.value <==> o.at.value in o.hits)
    ensures !o.clipped ==> o.hits[o.curHit] == o.at.value
  {
    var k := FirstNamed(s, mask, region);
    hide FirstNamed;
    if k < |s| && k >= HITS_MAX {
      assert forall i :: 0 <= i < HITS_MAX ==> s[i] < s[k];
    }
  }

  /** In a symbol half every occurrence counts, so the first is the one reported. */
  lemma HalfAnswer(o: Locate, s: seq<nat>, mask: bv32, bit: bv32)
    requires Tracks(o, s, mask, (p: nat) => bit) && Overlaps(mask, bit) && s != []
    ensures o.at == Some(s[0]) && o.atMask == bit && o.inRgn && o.curHit == 0 && o.hits[0] == s[0]
  {
    OverlapsBoth(mask, bit);
    hide Overlaps;
  }

  lemma OverlapsBoth(a: bv32, b: bv32)
    ensures Overlaps(a, b) == Overlaps(b, a)
  {
  }
}
