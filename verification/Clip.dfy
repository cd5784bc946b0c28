/** The screen writer: every cell goes through a rectangle, in runs rather than bytes. */
module Clip {
  import opened ExprSource
  import opened IdList

  type Byte = x: nat | x < 0x100

  const ESC: Byte := 0x1b
  const NEWLINE: Byte := 10
  const RETURN: Byte := 13

  /** The rectangle drawing may land in, 1-based and inclusive; b == 0 is none at all. */
  datatype Rect = Rect(t: int, l: int, b: int, r: int)

  predicate RowIn(c: Rect, row: int) { c.b == 0 || c.t <= row <= c.b }

  predicate Admits(c: Rect, row: int, col: int) { c.b == 0 || (c.t <= row <= c.b && c.l <= col <= c.r) }

  /** Where the next cell lands, the byte count a caller lays out with, how many cells were
      refused, and whether the cell being written is one that is shown. */
  datatype Pen = Pen(row: int, col: int, hint: nat, drop: nat, ok: bool)

  // ---- one byte at a time -----------------------------------------------------------------

  predicate Cont(b: Byte) { 0x80 <= b < 0xC0 }

  predicate Ends(b: Byte) { b == 109 || b == 72 || b == 75 }

  /** How long the escape at the head of s is: up to its m, H or K, or to the end. */
  function EscLen(s: seq<Byte>, j: nat): (r: nat)
    requires j <= |s|
    ensures j <= r <= |s|
    decreases |s| - j
  {
    if j == |s| then j else if Ends(s[j]) then j + 1 else EscLen(s, j + 1)
  }

  function Bytes(s: string): seq<Byte> { seq(|s|, i requires 0 <= i < |s| => (s[i] as int % 0x100) as Byte) }

  function IntText(n: int): string { if n < 0 then "-" + Dec(-n) else Dec(n) }

  /** "\033[row;colH" */
  function Goto(row: int, col: int): seq<Byte> { [ESC] + Bytes("[" + IntText(row) + ";" + IntText(col) + "H") }

  function Spaces(n: int): seq<Byte> { if n <= 0 then [] else seq(n, _ => 32) }

  /** An erase to end of line where the rectangle is narrower than the screen. */
  predicate Erases(c: Rect, w: int, e: seq<Byte>) {
    e != [] && e[|e| - 1] == 75 && c.b != 0 && c.r < w
  }

  /** What is drawn for it: blanks to the edge of the rectangle, and the cursor put back. */
  function Blanked(c: Rect, rowOk: bool, pen: Pen): seq<Byte> {
    if rowOk && pen.col <= c.r then Spaces(c.r - pen.col + 1) + Goto(pen.row, pen.col) else []
  }

  /** A byte that is no escape: which cell it belongs to, and where the next one goes. */
  function Moved(c: Rect, rowOk: bool, pen: Pen, b: Byte): Pen {
    if Cont(b) then pen
    else if b < 0x20 then
      pen.(ok := true, row := if b == NEWLINE then pen.row + 1 else pen.row,
           col := if b == NEWLINE || b == RETURN then 1 else pen.col)
    else pen.(ok := c.b == 0 || (rowOk && c.l <= pen.col <= c.r), col := pen.col + 1)
  }

  function Wrote(pen: Pen): Pen { pen.(hint := pen.hint + 1, drop := if pen.ok then pen.drop else pen.drop + 1) }

  /** What writing s puts on the screen, and where it leaves the pen. */
  function Put(c: Rect, w: int, rowOk: bool, pen: Pen, s: seq<Byte>): (seq<Byte>, Pen)
    decreases |s|
  {
    if s == [] then ([], pen)
    else if s[0] == ESC then
      var j := EscLen(s, 1);
      if Erases(c, w, s[..j]) then
        var r := Put(c, w, rowOk, pen.(drop := pen.drop + 1), s[j..]);
        (Blanked(c, rowOk, pen) + r.0, r.1)
      else
        var r := Put(c, w, rowOk, pen, s[j..]);
        (s[..j] + r.0, r.1)
    else
      var next := Moved(c, rowOk, pen, s[0]);
      var r := Put(c, w, rowOk, Wrote(next), s[1..]);
      ((if next.ok then [s[0]] else []) + r.0, r.1)
  }

  /** Where text goes does not depend on what is shown of it. */
  lemma {:induction false} PlacesIndependent(c: Rect, c': Rect, w: int, rowOk: bool, rowOk': bool, pen: Pen,
        pen': Pen, s: seq<Byte>)
    requires pen.row == pen'.row && pen.col == pen'.col && pen.hint == pen'.hint
    ensures var p := Put(c, w, rowOk, pen, s).1; var p' := Put(c', w, rowOk', pen', s).1;
      p.row == p'.row && p.col == p'.col && p.hint == p'.hint
    decreases |s|
  {
    hide Blanked, Goto;
    if s != [] {
      if s[0] == ESC {
        var j := EscLen(s, 1);
        var a := if Erases(c, w, s[..j]) then pen.(drop := pen.drop + 1) else pen;
        var b := if Erases(c', w, s[..j]) then pen'.(drop := pen'.drop + 1) else pen';
        PlacesIndependent(c, c', w, rowOk, rowOk', a, b, s[j..]);
      } else {
        PlacesIndependent(c, c', w, rowOk, rowOk', Wrote(Moved(c, rowOk, pen, s[0])),
            Wrote(Moved(c', rowOk', pen', s[0])), s[1..]);
      }
    }
  }

  // ---- text as cells ----------------------------------------------------------------------

  /** An escape that is no erase, a control byte, or a whole UTF-8 sequence in one column. */
  datatype Piece = Escape(e: seq<Byte>) | Control(b: Byte) | Cell(u: seq<Byte>)

  predicate Formed(x: Piece) {
    match x
    case Escape(e) => |e| >= 2 && e[0] == ESC && Ends(e[|e| - 1]) && e[|e| - 1] != 75
      && forall i :: 1 <= i < |e| - 1 ==> !Ends(e[i])
    case Control(b) => b < 0x20 && b != ESC
    case Cell(u) => u != [] && u[0] >= 0x20 && !Cont(u[0]) && forall i :: 1 <= i < |u| ==> Cont(u[i])
  }

  function Raw(x: Piece): (r: seq<Byte>)
    ensures Formed(x) ==> r != []
  {
    match x
    case Escape(e) => e
    case Control(b) => [b]
    case Cell(u) => u
  }

  function Flat(s: seq<Piece>): seq<Byte> { if s == [] then [] else Raw(s[0]) + Flat(s[1..]) }

  ghost predicate AllFormed(s: seq<Piece>) { forall i :: 0 <= i < |s| ==> Formed(s[i]) }

  function RowAfter(x: Piece, row: int): int { if x == Control(NEWLINE) then row + 1 else row }

  function ColAfter(x: Piece, col: int): int {
    match x
    case Escape(_) => col
    case Control(b) => if b == NEWLINE || b == RETURN then 1 else col
    case Cell(_) => col + 1
  }

  /** The pieces of a text a rectangle lets through: every escape and control byte, and the cells
      whose row and column it holds. */
  function Shown(c: Rect, row: int, col: int, s: seq<Piece>): seq<Piece>
    decreases |s|
  {
    if s == [] then []
    else (if s[0].Cell? && !Admits(c, row, col) then [] else [s[0]])
         + Shown(c, RowAfter(s[0], row), ColAfter(s[0], col), s[1..])
  }

  /** The same with every cell judged on the row the text began on. */
  function ShownFrom(c: Rect, row: int, col: int, s: seq<Piece>): seq<Piece>
    decreases |s|
  {
    if s == [] then []
    else (if s[0].Cell? && !Admits(c, row, col) then [] else [s[0]]) + ShownFrom(c, row, ColAfter(s[0], col), s[1..])
  }

  // ---- the byte filter lets through whole pieces ------------------------------------------

  lemma {:induction false} EscLenIs(e: seq<Byte>, rest: seq<Byte>, j: nat)
    requires 1 <= j < |e| && Formed(Escape(e))
    ensures EscLen(e + rest, j) == |e|
    decreases |e| - j
  {
    if j < |e| - 1 { EscLenIs(e, rest, j + 1); }
  }

  lemma PutEscape(c: Rect, w: int, rowOk: bool, pen: Pen, e: seq<Byte>, rest: seq<Byte>)
    requires Formed(Escape(e))
    ensures Put(c, w, rowOk, pen, e + rest) == (var r := Put(c, w, rowOk, pen, rest); (e + r.0, r.1))
  {
    hide Blanked;
    EscLenIs(e, rest, 1);
    var s := e + rest;
    assert s[..|e|] == e && s[|e|..] == rest && s[0] == ESC;
  }

  lemma PutByte(c: Rect, w: int, rowOk: bool, pen: Pen, b: Byte, rest: seq<Byte>)
    requires b != ESC
    ensures var next := Moved(c, rowOk, pen, b);
      Put(c, w, rowOk, pen, [b] + rest)
      == (var r := Put(c, w, rowOk, Wrote(next), rest); ((if next.ok then [b] else []) + r.0, r.1))
  {
    hide Moved, Wrote;
    assert ([b] + rest)[1..] == rest;
  }

  function Advanced(pen: Pen, n: nat): Pen {
    pen.(hint := pen.hint + n, drop := if pen.ok then pen.drop else pen.drop + n)
  }

  /** The bytes that continue a character share its fate. */
  lemma {:induction false} PutConts(c: Rect, w: int, rowOk: bool, pen: Pen, u: seq<Byte>, rest: seq<Byte>)
    requires forall i :: 0 <= i < |u| ==> Cont(u[i])
    ensures Put(c, w, rowOk, pen, u + rest)
         == (var r := Put(c, w, rowOk, Advanced(pen, |u|), rest); ((if pen.ok then u else []) + r.0, r.1))
    decreases |u|
  {
    hide Put;
    if u == [] {
      assert u + rest == rest;
      assert [] + Put(c, w, rowOk, pen, rest).0 == Put(c, w, rowOk, pen, rest).0;
    } else {
      var t := u[1..];
      PutByte(c, w, rowOk, pen, u[0], t + rest);
      PutConts(c, w, rowOk, Wrote(pen), t, rest);
      assert u + rest == [u[0]] + (t + rest);
      assert Advanced(Wrote(pen), |t|) == Advanced(pen, |u|);
      var r := Put(c, w, rowOk, Advanced(pen, |u|), rest).0;
      assert [u[0]] + (t + r) == u + r;
      assert [] + ([] + r) == [] + r;
    }
  }

  lemma PutCell(c: Rect, w: int, rowOk: bool, pen: Pen, u: seq<Byte>, rest: seq<Byte>)
    requires Formed(Cell(u))
    ensures var ok := c.b == 0 || (rowOk && c.l <= pen.col <= c.r);
      Put(c, w, rowOk, pen, u + rest)
      == (var r := Put(c, w, rowOk, Advanced(pen.(ok := ok, col := pen.col + 1), |u|), rest); ((if ok then u else [])
          + r.0, r.1))
  {
    hide Put;
    var t := u[1..];
    var next := Moved(c, rowOk, pen, u[0]);
    PutByte(c, w, rowOk, pen, u[0], t + rest);
    PutConts(c, w, rowOk, Wrote(next), t, rest);
    assert u + rest == [u[0]] + (t + rest);
    assert Advanced(Wrote(next), |t|) == Advanced(next, |u|);
    var r := Put(c, w, rowOk, Advanced(next, |u|), rest).0;
    assert [u[0]] + (t + r) == u + r;
    assert [] + ([] + r) == [] + r;
  }

  function PenAfter(x: Piece, pen: Pen, ok: bool): Pen {
    match x
    case Escape(_) => pen
    case Control(b) => Advanced(pen.(ok := true, row := RowAfter(x, pen.row), col := ColAfter(x, pen.col)), 1)
    case Cell(u) => Advanced(pen.(ok := ok, col := pen.col + 1), |u|)
  }

  lemma PutPiece(c: Rect, w: int, rowOk: bool, pen: Pen, x: Piece, rest: seq<Byte>)
    requires Formed(x)
    ensures var ok := c.b == 0 || (rowOk && c.l <= pen.col <= c.r);
      Put(c, w, rowOk, pen, Raw(x) + rest)
      == (var r := Put(c, w, rowOk, PenAfter(x, pen, ok), rest); ((if x.Cell? && !ok then [] else Raw(x)) + r.0, r.1))
  {
    hide Put;
    match x
    case Escape(e) => PutEscape(c, w, rowOk, pen, e, rest);
    case Control(b) => PutByte(c, w, rowOk, pen, b, rest);
    case Cell(u) => PutCell(c, w, rowOk, pen, u, rest);
  }

  /** Writing a text shows exactly its escapes and the cells the rectangle holds, judged on the
      row the text began on; no cell is cut in two, and what was refused is counted. */
  lemma {:induction false} PutShows(c: Rect, w: int, row0: int, pen: Pen, s: seq<Piece>)
    requires AllFormed(s)
    ensures var r := Put(c, w, RowIn(c, row0), pen, Flat(s));
      && r.0 == Flat(ShownFrom(c, row0, pen.col, s))
      && r.1.drop == pen.drop + |Flat(s)| - |r.0|
    decreases |s|
  {
    hide Put, Raw, Formed, PenAfter;
    if s == [] {
      PutNone(c, w, RowIn(c, row0), pen);
    } else {
      var x, rest := s[0], Flat(s[1..]);
      var ok := Admits(c, row0, pen.col);
      PutPiece(c, w, RowIn(c, row0), pen, x, rest);
      PutShows(c, w, row0, PenAfter(x, pen, ok), s[1..]);
      PenAfterIs(x, pen, ok);
      var kept := ShownFrom(c, row0, ColAfter(x, pen.col), s[1..]);
      FlatCons(x, kept);
      assert [] + kept == kept && [] + Flat(kept) == Flat(kept);
    }
  }

  lemma PenAfterIs(x: Piece, pen: Pen, ok: bool)
    ensures PenAfter(x, pen, ok).col == ColAfter(x, pen.col)
    ensures PenAfter(x, pen, ok).drop == pen.drop + if x.Cell? && !ok then |Raw(x)| else 0
  {
  }

  lemma FlatCons(x: Piece, rest: seq<Piece>)
    ensures Flat([x] + rest) == Raw(x) + Flat(rest)
  {
    assert ([x] + rest)[1..] == rest;
  }

  // ---- and text that stays on its row is clipped where it lands -----------------------------

  /** Every cell is shown, or not, as its own row says. */
  ghost predicate Steady(c: Rect, row0: int, row: int, col: int, s: seq<Piece>)
    decreases |s|
  {
    s != [] ==>
      && (s[0].Cell? ==> (Admits(c, row0, col) <==> Admits(c, row, col)))
      && Steady(c, row0, RowAfter(s[0], row), ColAfter(s[0], col), s[1..])
  }

  lemma {:induction false} OneRowSteady(c: Rect, row: int, col: int, s: seq<Piece>)
    requires Control(NEWLINE) !in s
    ensures Steady(c, row, row, col, s)
    decreases |s|
  {
    if s != [] { OneRowSteady(c, row, ColAfter(s[0], col), s[1..]); }
  }

  lemma RawSome(x: Piece)
    requires Formed(x)
    ensures |Raw(x)| > 0
  {
  }

  lemma {:induction false} SteadyIff(c: Rect, row0: int, row: int, col: int, s: seq<Piece>)
    requires AllFormed(s)
    ensures var a := Flat(ShownFrom(c, row0, col, s)); var b := Flat(Shown(c, row, col, s));
      && (RowIn(c, row0) ==> |a| >= |b|) && (!RowIn(c, row0) ==> |a| <= |b|)
      && (Steady(c, row0, row, col, s) <==> a == b) && (a != b ==> |a| != |b|)
    decreases |s|
  {
    hide Formed;
    if s != [] {
      var x := s[0];
      var row', col' := RowAfter(x, row), ColAfter(x, col);
      SteadyIff(c, row0, row', col', s[1..]);
      var a, b := ShownFrom(c, row0, col', s[1..]), Shown(c, row', col', s[1..]);
      FlatCons(x, a);
      FlatCons(x, b);
      assert [] + a == a && [] + b == b;
      SamePrefix(Raw(x), Flat(a), Flat(b));
      RawSome(x);
    }
  }

  lemma SamePrefix(p: seq<Byte>, a: seq<Byte>, b: seq<Byte>)
    ensures p + a == p + b <==> a == b
  {
    if p + a == p + b {
      assert a == (p + a)[|p|..];
      assert b == (p + b)[|p|..];
    }
  }

  /** A text shows exactly what the rectangle holds of it - which one that never leaves its row
      always does - if and only if no newline carries a cell to a row with another answer: the
      row is asked once, when the text begins. */
  lemma ClippedIff(c: Rect, w: int, pen: Pen, s: seq<Piece>)
    requires AllFormed(s)
    ensures Put(c, w, RowIn(c, pen.row), pen, Flat(s)).0 == Flat(Shown(c, pen.row, pen.col, s))
       <==> Steady(c, pen.row, pen.row, pen.col, s)
    ensures Control(NEWLINE) !in s ==> Steady(c, pen.row, pen.row, pen.col, s)
  {
    hide Put, Shown, ShownFrom, Steady;
    PutShows(c, w, pen.row, pen, s);
    SteadyIff(c, pen.row, pen.row, pen.col, s);
    if Control(NEWLINE) !in s { OneRowSteady(c, pen.row, pen.col, s); }
  }

  /** A cell written after a newline, past the last row: shown all the same. */
  lemma NewlineShows(c: Rect, w: int, pen: Pen)
    requires c.b != 0 && c.t <= pen.row == c.b && c.l <= 1 <= c.r
    ensures !Admits(c, pen.row + 1, 1)
    ensures Put(c, w, RowIn(c, pen.row), pen, [NEWLINE, 88]).0 == [NEWLINE, 88]
  {
    var s := [Control(NEWLINE), Cell([88])];
    assert s[1..] == [Cell([88])] && s[1..][1..] == [];
    assert Flat(s[1..]) == [88] + Flat([]);
    assert Flat(s) == [NEWLINE] + Flat(s[1..]);
    PutShows(c, w, pen.row, pen, s);
    assert ShownFrom(c, pen.row, 1, s[1..]) == s[1..];
  }

  // ---- rectangles inside rectangles -------------------------------------------------------

  function Narrowed(c: Rect, t: int, l: int, b: int, r: int): Rect {
    var t' := if c.b != 0 && t < c.t then c.t else t;
    var l' := if c.b != 0 && l < c.l then c.l else l;
    var b' := if c.b != 0 && b > c.b then c.b else b;
    var r' := if c.b != 0 && r > c.r then c.r else r;
    var e := if b' < t' then t' - 1 else b';
    Rect(t', l', if e == 0 then -1 else e, r')
  }

  /** On the screen, a rectangle set inside another admits exactly what both do. */
  lemma NestedIsIntersection(c: Rect, t: int, l: int, b: int, r: int, row: int, col: int)
    requires row >= 1
    ensures Admits(Narrowed(c, t, l, b, r), row, col) <==> Admits(c, row, col) && t <= row <= b && l <= col <= r
  {
  }

  // ---- the writer -------------------------------------------------------------------------

  class Out {
    var p: seq<Byte>
    var colHint: nat
    var colBase: int
    var rowHint: int
    var clip: Rect
    var clW: int
    var clCol: int
    var clDrop: nat

    function Now(ok: bool): Pen reads this { Pen(rowHint, clCol, colHint, clDrop, ok) }
  }

  /** Narrows the rectangle, and hands back the one to restore. */
  method OutClipSet(o: Out, t: int, l: int, b: int, r: int) returns (prev: Rect)
    modifies o`clip, o`clW
    ensures prev == old(o.clip) && o.clip == Narrowed(prev, t, l, b, r)
    ensures o.clW == if prev.b == 0 then r else old(o.clW)
  {
    prev := o.clip;
    if o.clip.b == 0 { o.clW := r; }
    var t', l', b', r' := t, l, b, r;
    if o.clip.b != 0 {
      if t' < o.clip.t { t' := o.clip.t; }
      if l' < o.clip.l { l' := o.clip.l; }
      if b' > o.clip.b { b' := o.clip.b; }
      if r' > o.clip.r { r' := o.clip.r; }
    }
    o.clip := Rect(t', l', if b' < t' then t' - 1 else b', r');
    if o.clip.b == 0 { o.clip := o.clip.(b := -1); }
  }

  method OutClipRestore(o: Out, prev: Rect)
    modifies o`clip
    ensures o.clip == prev
  {
    o.clip := prev;
  }

  method OutRaw(o: Out, s: seq<Byte>)
    modifies o`p
    ensures o.p == old(o.p) + s
  {
    o.p := o.p + s;
  }

  method EscEnd(s: seq<Byte>, i: nat) returns (j: nat)
    requires i < |s|
    ensures i < j <= |s| && j - i == EscLen(s[i..], 1)
  {
    j := i + 1;
    while j < |s| && !Ends(s[j])
      invariant i < j <= |s| && EscLen(s[i..], 1) == EscLen(s[i..], j - i)
    {
      j := j + 1;
    }
    if j < |s| { j := j + 1; }
  }

  method Blank(o: Out)
    requires o.clCol <= o.clip.r
    modifies o`p
    ensures o.p == old(o.p) + Spaces(o.clip.r - o.clCol + 1)
  {
    hide Spaces;
    var c := o.clCol;
    SpaceMore(0);
    assert o.p + Spaces(0) == o.p;
    while c <= o.clip.r
      invariant o.clCol <= c <= o.clip.r + 1 && o.p == old(o.p) + Spaces(c - o.clCol)
      decreases o.clip.r - c
    {
      SpaceMore(c - o.clCol);
      OutRaw(o, [32]);
      c := c + 1;
    }
  }

  /** Blanks to the edge of the rectangle, and the cursor put back. */
  method Erase(o: Out, rowOk: bool)
    modifies o`p, o`clDrop
    ensures o.p == old(o.p) + Blanked(o.clip, rowOk, old(o.Now(true))) && o.clDrop == old(o.clDrop) + 1
  {
    hide Spaces, Goto;
    ghost var was := o.p;
    if rowOk && o.clCol <= o.clip.r {
      Blank(o);
      OutRaw(o, Goto(o.rowHint, o.clCol));
      Assoc(was, Spaces(o.clip.r - o.clCol + 1), Goto(o.rowHint, o.clCol));
    } else {
      assert was + [] == was;
    }
    o.clDrop := o.clDrop + 1;
  }

  lemma Assoc(a: seq<Byte>, b: seq<Byte>, c: seq<Byte>)
    ensures (a + b) + c == a + (b + c)
  {
  }

  lemma SpaceMore(n: int)
    requires n >= 0
    ensures Spaces(0) == [] && Spaces(n) + [32] == Spaces(n + 1)
  {
  }

  /** A byte that is no escape, in one step: the run grows or ends. */
  method Step(o: Out, rowOk: bool, cellOk: bool, b: Byte) returns (ok: bool)
    modifies o`rowHint, o`clCol
    ensures o.Now(ok) == Moved(o.clip, rowOk, old(o.Now(cellOk)), b)
  {
    ok := cellOk;
    if !Cont(b) {
      if b < 0x20 {
        ok := true;
        if b == NEWLINE { o.rowHint := o.rowHint + 1; }
        if b == NEWLINE || b == RETURN { o.clCol := 1; }
      } else {
        ok := o.clip.b == 0 || (rowOk && o.clCol >= o.clip.l && o.clCol <= o.clip.r);
        o.clCol := o.clCol + 1;
      }
    }
  }

  lemma PutEsc(c: Rect, w: int, rowOk: bool, pen: Pen, s: seq<Byte>, j: nat)
    requires s != [] && s[0] == ESC && j == EscLen(s, 1)
    ensures Put(c, w, rowOk, pen, s)
         == if Erases(c, w, s[..j])
            then (var r := Put(c, w, rowOk, pen.(drop := pen.drop + 1), s[j..]); (Blanked(c, rowOk, pen) + r.0, r.1))
            else (var r := Put(c, w, rowOk, pen, s[j..]); (s[..j] + r.0, r.1))
  {
    hide Blanked;
  }

  /** With the run s[i-run..i] not written yet, the rest of the text completes `whole`. */
  ghost predicate Owes(o: Out, s: seq<Byte>, i: nat, run: nat, rowOk: bool, ok: bool, whole: (seq<Byte>, Pen))
    reads o
  {
    && run <= i <= |s|
    && o.p + s[i - run..i] + Put(o.clip, o.clW, rowOk, o.Now(ok), s[i..]).0 == whole.0
    && Put(o.clip, o.clW, rowOk, o.Now(ok), s[i..]).1 == whole.1
  }

  method EscapeStep(o: Out, s: seq<Byte>, i: nat, run: nat, rowOk: bool, ok: bool, ghost whole: (seq<Byte>, Pen))
    returns (j: nat)
    requires i < |s| && s[i] == ESC && Owes(o, s, i, run, rowOk, ok, whole)
    modifies o`p, o`clDrop
    ensures i < j <= |s| && Owes(o, s, j, 0, rowOk, ok, whole)
  {
    hide Put, Blanked;
    ghost var rest, pen := s[i..], o.Now(ok);
    OutRaw(o, s[i - run..i]);
    ghost var head := o.p;
    j := EscEnd(s, i);
    assert rest[..j - i] == s[i..j] && rest[j - i..] == s[j..];
    PutEsc(o.clip, o.clW, rowOk, pen, rest, j - i);
    ghost var piece;
    if s[j - 1] == 75 && o.clip.b != 0 && o.clip.r < o.clW {
      BlankedSame(o.clip, rowOk, o.Now(true), pen);
      piece := Blanked(o.clip, rowOk, pen);
      Erase(o, rowOk);
    } else {
      piece := s[i..j];
      OutRaw(o, s[i..j]);
    }
    assert s[j..j] == [] && o.p + [] == o.p;
    Assoc(head, piece, Put(o.clip, o.clW, rowOk, o.Now(ok), s[j..]).0);
  }

  method ByteStep(o: Out, s: seq<Byte>, i: nat, run: nat, rowOk: bool, cellOk: bool, ghost whole: (seq<Byte>, Pen))
    returns (ok: bool, run': nat)
    requires i < |s| && s[i] != ESC && Owes(o, s, i, run, rowOk, cellOk, whole)
    modifies o`p, o`colHint, o`rowHint, o`clCol, o`clDrop
    ensures Owes(o, s, i + 1, run', rowOk, ok, whole)
  {
    hide Put, Moved;
    ghost var head, pen := o.p + s[i - run..i], o.Now(cellOk);
    assert s[i..] == [s[i]] + s[i + 1..];
    PutByte(o.clip, o.clW, rowOk, pen, s[i], s[i + 1..]);
    ok := Step(o, rowOk, cellOk, s[i]);
    if ok {
      assert s[i - run..i + 1] == s[i - run..i] + [s[i]];
      run' := run + 1;
    } else {
      OutRaw(o, s[i - run..i]);
      run' := 0;
      o.clDrop := o.clDrop + 1;
    }
    o.colHint := o.colHint + 1;
    ghost var piece := if ok then [s[i]] else [];
    assert o.p + s[i + 1 - run'..i + 1] == head + piece;
    Assoc(head, piece, Put(o.clip, o.clW, rowOk, o.Now(ok), s[i + 1..]).0);
  }

  /** Writes a text in runs: what reaches the screen and where the pen is left are those of the
      byte-at-a-time filter, for every text there is. */
  method OutAdd(o: Out, s: seq<Byte>)
    modifies o`p, o`colHint, o`rowHint, o`clCol, o`clDrop
    ensures var r := Put(o.clip, o.clW, RowIn(o.clip, old(o.rowHint)), old(o.Now(true)), s);
      && o.p == old(o.p) + r.0
      && o.Now(r.1.ok) == r.1
  {
    hide Put, Owes;
    var i, run := 0, 0;
    var rowOk := RowIn(o.clip, o.rowHint);
    var cellOk := true;
    ghost var whole := Put(o.clip, o.clW, rowOk, o.Now(true), s);
    whole := (o.p + whole.0, whole.1);
    OwesAll(o, s, rowOk, whole);
    while i < |s|
      invariant i <= |s| && Owes(o, s, i, run, rowOk, cellOk, whole)
    {
      OwesRun(o, s, i, run, rowOk, cellOk, whole);
      if s[i] == ESC {
        i := EscapeStep(o, s, i, run, rowOk, cellOk, whole);
        run := 0;
      } else {
        cellOk, run := ByteStep(o, s, i, run, rowOk, cellOk, whole);
        i := i + 1;
      }
    }
    OwesRun(o, s, i, run, rowOk, cellOk, whole);
    OwesNone(o, s, run, rowOk, cellOk, whole);
    OutRaw(o, s[i - run..]);
  }

  lemma OwesAll(o: Out, s: seq<Byte>, rowOk: bool, whole: (seq<Byte>, Pen))
    requires var r := Put(o.clip, o.clW, rowOk, o.Now(true), s); whole == (o.p + r.0, r.1)
    ensures Owes(o, s, 0, 0, rowOk, true, whole)
  {
    hide Put;
    assert s[0..] == s && s[0..0] == [] && o.p + [] == o.p;
  }

  lemma OwesRun(o: Out, s: seq<Byte>, i: nat, run: nat, rowOk: bool, ok: bool, whole: (seq<Byte>, Pen))
    requires Owes(o, s, i, run, rowOk, ok, whole)
    ensures run <= i
  {
  }

  lemma OwesNone(o: Out, s: seq<Byte>, run: nat, rowOk: bool, ok: bool, whole: (seq<Byte>, Pen))
    requires Owes(o, s, |s|, run, rowOk, ok, whole) && run <= |s|
    ensures whole == (o.p + s[|s| - run..], o.Now(ok))
  {
    hide Put;
    PutNone(o.clip, o.clW, rowOk, o.Now(ok));
    assert s[|s|..] == [] && s[|s| - run..|s|] == s[|s| - run..];
    assert o.p + s[|s| - run..] + [] == o.p + s[|s| - run..];
  }

  lemma BlankedSame(c: Rect, rowOk: bool, a: Pen, b: Pen)
    requires a.row == b.row && a.col == b.col
    ensures Blanked(c, rowOk, a) == Blanked(c, rowOk, b)
  {
  }

  lemma PutNone(c: Rect, w: int, rowOk: bool, pen: Pen)
    ensures Put(c, w, rowOk, pen, []) == ([], pen)
  {
  }

  /** One glyph is one cell, whatever its bytes. */
  method OutGlyph(o: Out, g: seq<Byte>)
    modifies o`p, o`colHint, o`clCol, o`clDrop
    ensures var shown := Admits(o.clip, o.rowHint, old(o.clCol));
      && o.p == old(o.p) + (if shown then g else [])
      && o.clDrop == old(o.clDrop) + (if shown then 0 else 1)
    ensures o.clCol == old(o.clCol) + 1 && o.colHint == old(o.colHint) + 1
  {
    if o.clip.b == 0
       || (o.rowHint >= o.clip.t && o.rowHint <= o.clip.b && o.clCol >= o.clip.l && o.clCol <= o.clip.r) {
      OutRaw(o, g);
    } else {
      o.clDrop := o.clDrop + 1;
    }
    o.clCol := o.clCol + 1;
    o.colHint := o.colHint + 1;
  }

  /** The cursor put somewhere: an escape, which every rectangle lets through. */
  method OutAt(o: Out, row: int, col: int)
    modifies o`p, o`colHint, o`rowHint, o`clCol, o`clDrop, o`colBase
    ensures o.p == old(o.p) + Goto(row, col) && o.rowHint == row && o.clCol == col && o.colBase == col
    ensures o.colHint == old(o.colHint) && o.clDrop == old(o.clDrop)
  {
    GotoEscape(row, col);
    var e := Goto(row, col);
    assert e + [] == e;
    PutEscape(o.clip, o.clW, RowIn(o.clip, o.rowHint), o.Now(true), e, []);
    PutNone(o.clip, o.clW, RowIn(o.clip, o.rowHint), o.Now(true));
    OutAdd(o, e);
    o.rowHint := row;
    o.colBase := col;
    o.clCol := col;
  }

  lemma GotoEscape(row: int, col: int)
    ensures Formed(Escape(Goto(row, col)))
  {
    var body := IntText(row) + ";" + IntText(col);
    IntPlain(row);
    IntPlain(col);
    hide IntText;
    var e := Goto(row, col);
    assert forall i :: 0 <= i < |body| ==> !Ends((body[i] as int % 0x100) as Byte);
    assert "[" + IntText(row) + ";" + IntText(col) + "H" == "[" + body + "H";
    assert forall i :: 2 <= i < |e| - 1 ==> e[i] == (body[i - 2] as int % 0x100) as Byte;
  }

  lemma IntPlain(n: int)
    ensures forall i :: 0 <= i < |IntText(n)| ==> IntText(n)[i] == '-' || IsDigit(IntText(n)[i])
  {
  }
}
