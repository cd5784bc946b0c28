/** The reader's own loops, filling a draft in place. */
module ReaderLoop {
  import opened TargetC
  import opened DraftModel
  import opened ExprSource
  import opened IdList
  import opened Lines
  import opened CallText
  import opened Reader

  /** What the reader remembers between lines. */
  class Reading {
    var cur: int
    var pendIf: int
    var parent: int
    var depth: nat
    var skipped: nat
    const owner: array<int>

    constructor ()
      ensures cur == -1 && pendIf == -1 && parent == -1 && depth == 1 && skipped == 0
      ensures fresh(owner) && owner.Length == OWNERS && owner[..] == seq(OWNERS, _ => -1)
    {
      cur, pendIf, parent, depth, skipped := -1, -1, -1, 1, 0;
      owner := new int[OWNERS](_ => -1);
    }

    /** With the draft it fills. */
    function Now(d: Draft): RState
      reads this, owner, d
    {
      RState(d.decl, d.grp, d.cnd, cur, pendIf, parent, depth, owner[..], skipped)
    }
  }

  method BareLine(r: Reading, d: Draft, line: seq<Tok>)
    modifies r`cur, r`pendIf, d`cnd
    ensures r.Now(d) == Bare(old(r.Now(d)), line)
  {
    if line != [] && Opens(line[0]) && r.depth >= 1 && |d.cnd| < MAX_GROUP {
      r.cur := |d.cnd|;
      r.pendIf := -1;
      d.cnd := d.cnd + [NEW_COND.(parent := r.parent)];
    }
  }

  method IfBegins(r: Reading, d: Draft, line: seq<Tok>)
    modifies r`cur, r`pendIf, d`cnd
    ensures r.Now(d) == If(old(r.Now(d)), line)
  {
    r.cur := |d.cnd|;
    r.pendIf := r.cur;
    d.cnd := d.cnd + [NEW_COND.(parent := r.parent, op := HasOr(line))];
  }

  method OrLine(r: Reading, d: Draft, line: seq<Tok>)
    modifies d`cnd
    ensures r.Now(d) == SetOr(old(r.Now(d)), line)
  {
    var call := false;
    for i := 0 to |line|
      invariant call <==> exists k :: 0 <= k < i && IsCall(line[k])
      invariant d.cnd == old(d.cnd)
    {
      if IsCall(line[i]) { call := true; }
    }
    if call && 0 <= r.cur < |d.cnd| && HasOr(line) && !Shows(line, AndAnd, "&&") {
      d.cnd := d.cnd[r.cur := d.cnd[r.cur].(op := true)];
    }
  }

  method MarkAll(d: Draft, ids: seq<string>, g: nat)
    requires g < MAX_GROUP
    modifies d`decl
    ensures d.decl == Marked(old(d.decl), ids, g)
  {
    hide SetBit, IdOf;
    ghost var was := d.decl;
    for k := 0 to |d.decl|
      invariant |d.decl| == |was|
      invariant forall i :: 0 <= i < k ==> d.decl[i] == Marked(was, ids, g)[i]
      invariant forall i :: k <= i < |was| ==> d.decl[i] == was[i]
    {
      if IdOf(k) in ids { d.decl := d.decl[k := d.decl[k].(grp := SetBit(d.decl[k].grp, g))]; }
    }
  }

  /** One call of the line: a matcher, its markers' bits, and its number in the condition. */
  method OneCall(r: Reading, d: Draft, call: Option<Asked>, neg: bool, thresh: nat)
    modifies r`skipped, d`decl, d`grp, d`cnd
    ensures r.Now(d) == Call(old(r.Now(d)), call, neg, thresh)
  {
    hide Marked, GroupOf;
    if |d.grp| >= MAX_GROUP || !(0 <= r.cur < |d.cnd|) {
      r.skipped := r.skipped + 1;
      return;
    }
    if call.None? { return; }
    var g := |d.grp|;
    MarkAll(d, call.value.ids, g);
    var c := d.cnd[r.cur];
    var piece := (if c.expr == "" then "" else Sep(c.op)) + Item(Lit(g + 1, neg));
    d.cnd := d.cnd[r.cur := c.(expr := Fitted(c.expr + piece))];
    d.grp := d.grp + [GroupOf(call.value, thresh)];
  }

  method EveryCall(r: Reading, d: Draft, line: seq<Tok>, h: Header)
    modifies r`skipped, d`decl, d`grp, d`cnd
    ensures r.Now(d) == Calls(old(r.Now(d)), line, 0, h)
  {
    hide Call, NegatedAt, ThreshAt, CallAt;
    ghost var all := Calls(r.Now(d), line, 0, h);
    for i := 0 to |line|
      invariant Calls(r.Now(d), line, i, h) == all
    {
      if IsCall(line[i]) { OneCall(r, d, CallAt(line[i], h), NegatedAt(line, i), ThreshAt(line, i)); }
    }
  }

  method VerdictLine(r: Reading, d: Draft, line: seq<Tok>)
    requires r.owner.Length == OWNERS
    modifies r`pendIf, d`cnd
    ensures r.Now(d) == Verdict(old(r.Now(d)), line)
  {
    hide Judged;
    var v := ScanOf(line);
    if v.None? { return; }
    var at := if r.pendIf >= 0 then r.pendIf else if 0 < r.depth < OWNERS then r.owner[r.depth] else -1;
    if at < 0 { at := r.cur; }
    if v.value.Scan? && 0 <= at < |d.cnd| { d.cnd := d.cnd[at := Judged(d.cnd[at], v.value)]; }
    r.pendIf := -1;
  }

  method OneBrace(r: Reading, d: Draft, t: Tok)
    requires r.owner.Length == OWNERS
    modifies r`depth, r`pendIf, r`parent, r.owner
    ensures r.Now(d) == Brace(old(r.Now(d)), t)
  {
    hide Opens;
    ghost var was := r.owner[..];
    if Opens(t) {
      r.depth := r.depth + 1;
      if r.depth < OWNERS { r.owner[r.depth] := r.cur; }
      if r.depth > 1 && r.cur >= 0 { r.parent := r.cur; }
      r.pendIf := -1;
      assert r.depth < OWNERS ==> r.owner[..] == was[r.depth := r.cur];
    } else if t == RBrace {
      if r.depth < OWNERS { r.owner[r.depth] := -1; }
      assert r.depth < OWNERS ==> r.owner[..] == was[r.depth := -1];
      if r.depth > 0 { r.depth := r.depth - 1; }
      if r.depth <= 1 { r.parent := -1; }
    }
  }

  method EveryBrace(r: Reading, d: Draft, line: seq<Tok>)
    requires r.owner.Length == OWNERS
    modifies r`depth, r`pendIf, r`parent, r.owner
    ensures r.Now(d) == Braces(old(r.Now(d)), line)
  {
    hide Brace;
    ghost var all := Braces(r.Now(d), line);
    for i := 0 to |line|
      invariant Braces(r.Now(d), line[i..]) == all
    {
      assert line[i..][0] == line[i] && line[i..][1..] == line[i + 1..];
      OneBrace(r, d, line[i]);
    }
  }

  method OneLine(r: Reading, d: Draft, line: seq<Tok>, h: Header)
    requires r.owner.Length == OWNERS
    modifies r, r.owner, d`decl, d`grp, d`cnd
    ensures r.Now(d) == ReadLine(old(r.Now(d)), line, h)
  {
    hide Bare, If, SetOr, Calls, Verdict, Braces, CounterLine;
    BareLine(r, d, line);
    if KIf in line {
      if |d.cnd| >= MAX_GROUP {
        r.skipped := r.skipped + 1;
        return;
      }
      IfBegins(r, d, line);
    }
    if CounterLine(line) { return; }
    OrLine(r, d, line);
    EveryCall(r, d, line, h);
    VerdictLine(r, d, line);
    EveryBrace(r, d, line);
  }

  /** One line as the buffer delivers it. */
  method EveryPiece(r: Reading, d: Draft, s: seq<seq<Tok>>, h: Header)
    requires r.owner.Length == OWNERS
    modifies r, r.owner, d`decl, d`grp, d`cnd
    ensures r.Now(d) == ReadPieces(old(r.Now(d)), s, h)
  {
    hide ReadLine;
    ghost var all := ReadPieces(r.Now(d), s, h);
    for i := 0 to |s|
      invariant ReadPieces(r.Now(d), s[i..], h) == all
    {
      assert s[i..][0] == s[i] && s[i..][1..] == s[i + 1..];
      OneLine(r, d, s[i], h);
    }
  }

  /** A body read into a draft that has its markers and nothing else. */
  method DraftFromBody(d: Draft, t: seq<Tok>, h: Header)
    requires d.grp == [] && d.cnd == []
    modifies d`decl, d`grp, d`cnd
    ensures Model(d.decl, d.grp, d.cnd, [], None) == ReadBack(old(d.decl), t, h)
  {
    hide ReadPieces, Pieces, Room, Lines.Next;
    var r := new Reading();
    ghost var all := ReadAll(r.Now(d), t, INSIDE, h);
    assert r.Now(d) == Start(d.decl);
    var rest, at := t, INSIDE;
    while rest != []
      invariant fresh(r) && fresh(r.owner) && r.owner.Length == OWNERS
      invariant ReadAll(r.Now(d), rest, at, h) == all
      decreases |rest|
    {
      var n := LineLen(rest);
      var line := rest[..n];
      EveryPiece(r, d, Pieces(line, Room(at, line), h.name), h);
      rest, at := if n == |rest| then [] else rest[n + 1..], Lines.Next(at, line);
    }
  }
}
