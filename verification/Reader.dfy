/** Reading a generated body back into a draft, a line at a time. */
module Reader {
  import opened TargetC
  import opened DraftModel
  import opened ExprSource
  import opened IdList
  import opened Lines
  import opened CallText

  /** The arrays of the draft being filled, and what the reader remembers between lines: the
      condition it is in, the `if` still waiting for its verdict, the gate it is inside, and how
      deep, with the condition each brace belongs to. */
  datatype RState = RState(decl: seq<Decl>, grp: seq<Group>, cnd: seq<Cond>, cur: int, pendIf: int,
                           parent: int, depth: nat, owner: seq<int>, skipped: nat)

  const OWNERS: nat := 8

  predicate IsCall(t: Tok) { t.Find? || t.FindAt? || (t.Raw? && CALL <= t.text) }

  // ---- one line ---------------------------------------------------------------------------

  const NEW_COND: Cond := Cond("", false, JoinOr, NoVerdict, 0, "", -1)

  predicate Opens(t: Tok) { t == LBrace || (t.Raw? && '{' in t.text) }

  /** A line that begins with a brace begins a condition without a test. */
  function Bare(st: RState, line: seq<Tok>): RState {
    if line != [] && Opens(line[0]) && st.depth >= 1 && |st.cnd| < MAX_GROUP then
      st.(cnd := st.cnd + [NEW_COND.(parent := st.parent)], cur := |st.cnd|, pendIf := -1)
    else st
  }

  predicate Word(s: string, w: string, i: nat)
    decreases |s| - i
  {
    i + |w| <= |s| && (s[i..i + |w|] == w || Word(s, w, i + 1))
  }

  /** The token is on the line, whole or as part of one that was cut. */
  predicate Shows(line: seq<Tok>, t: Tok, w: string) {
    t in line || exists i :: 0 <= i < |line| && line[i].Raw? && Word(line[i].text, w, 0)
  }

  predicate HasOr(line: seq<Tok>) { Shows(line, OrOr, "||") }

  function If(st: RState, line: seq<Tok>): RState {
    st.(cnd := st.cnd + [NEW_COND.(parent := st.parent, op := HasOr(line))], cur := |st.cnd|, pendIf := |st.cnd|)
  }

  predicate HasCall(line: seq<Tok>) { exists i :: 0 <= i < |line| && IsCall(line[i]) }

  function SetOr(st: RState, line: seq<Tok>): RState {
    if HasCall(line) && 0 <= st.cur < |st.cnd| && HasOr(line) && !Shows(line, AndAnd, "&&") then
      st.(cnd := st.cnd[st.cur := st.cnd[st.cur].(op := true)])
    else st
  }

  /** Stepping back over at most one bracket, a "!". */
  predicate NegatedAt(line: seq<Tok>, i: nat)
    requires i <= |line|
  {
    if i >= 1 && line[i - 1] == LPar then i >= 2 && line[i - 2] == Bang else i >= 1 && line[i - 1] == Bang
  }

  predicate IsGe(t: Tok) { t == Ge || (t.Raw? && Word(t.text, ">=", 0)) }

  function NumberAt(line: seq<Tok>, i: nat): nat {
    if i >= |line| then 0
    else if line[i].Num? then line[i].n
    else if line[i].Raw? then Decimal(Digits(line[i].text)) else 0
  }

  /** The number after the first ">=" from i on. */
  function ThreshAt(line: seq<Tok>, i: nat): nat
    requires i <= |line|
    decreases |line| - i
  {
    if i == |line| then 2
    else if IsGe(line[i]) then NumberAt(line, i + 1) % 0x1_0000_0000
    else ThreshAt(line, i + 1)
  }

  function SetBit(x: bv32, g: nat): bv32
    requires g < MAX_GROUP
  {
    x | (1 << g)
  }

  /** The markers named get matcher g's bit. */
  function Marked(decl: seq<Decl>, ids: seq<string>, g: nat): (r: seq<Decl>)
    requires g < MAX_GROUP
    ensures |r| == |decl|
    ensures forall i :: 0 <= i < |decl| ==> r[i] == MarkedOne(decl[i], ids, i, g)
  {
    seq(|decl|, i requires 0 <= i < |decl| => MarkedOne(decl[i], ids, i, g))
  }

  function MarkedOne(d: Decl, ids: seq<string>, i: nat, g: nat): Decl
    requires g < MAX_GROUP
  {
    if IdOf(i) in ids then d.(grp := SetBit(d.grp, g)) else d
  }

  function GroupOf(a: Asked, thresh: nat): Group {
    Group(a.rule, if a.rule == 2 then thresh else 0, a.place, a.mask, Str, [], 0, [])
  }

  /** snprintf into what is left of the field. */
  function Fitted(s: string): string { if |s| < EXPR_ROOM then s else s[..EXPR_ROOM - 1] }

  /** One call is one matcher, added to the condition it is read in. */
  function Call(st: RState, call: Option<Asked>, neg: bool, thresh: nat): RState {
    if |st.grp| >= MAX_GROUP || !(0 <= st.cur < |st.cnd|) then st.(skipped := st.skipped + 1)
    else if call.None? then st
    else
      var c := st.cnd[st.cur];
      var piece := (if c.expr == "" then "" else Sep(c.op)) + Item(Lit(|st.grp| + 1, neg));
      st.(grp := st.grp + [GroupOf(call.value, thresh)],
          decl := Marked(st.decl, call.value.ids, |st.grp|),
          cnd := st.cnd[st.cur := c.(expr := Fitted(c.expr + piece))])
  }

  function CallAt(t: Tok, h: Header): Option<Asked>
    requires IsCall(t)
  {
    CallLong(t, h.name);
    Asks(Spell(t, h.name), h)
  }

  lemma CallLong(t: Tok, name: Naming)
    requires IsCall(t)
    ensures |Spell(t, name)| >= |CALL|
  {
    hide Markers, PlaceC;
  }

  /** Every call on the line from token i on. */
  function Calls(st: RState, line: seq<Tok>, i: nat, h: Header): RState
    requires i <= |line|
    decreases |line| - i
  {
    if i == |line| then st
    else
      Calls(if IsCall(line[i]) then Call(st, CallAt(line[i], h), NegatedAt(line, i), ThreshAt(line, i)) else st,
            line, i + 1, h)
  }

  function ScanOf(line: seq<Tok>): Option<Tok> {
    if line == [] then None else if line[0].Scan? then Some(line[0]) else ScanOf(line[1..])
  }

  const VARIANT_ROOM: nat := 48

  /** The verdict word is looked for on the whole line, its variant's name included. */
  function Judged(c: Cond, v: Tok): Cond
    requires v.Scan?
  {
    var name := if v.variant.Custom? then v.variant.name else "";
    var level := if v.level == Suspect || Word(name, "SUSPECT", 0) then Suspect else Infect;
    if v.variant == Generic || Word(name, "KOF_MALVAR_GENERIC", 0) then c.(level := level, varKind := 1)
    else if v.variant.Custom? then
      c.(level := level, varKind := 2, variant := if |name| < VARIANT_ROOM then name else name[..VARIANT_ROOM - 1])
    else c.(level := level)
  }

  /** A verdict belongs to the `if` just read, or to the condition whose block this is. */
  function Verdict(st: RState, line: seq<Tok>): RState {
    var v := ScanOf(line);
    if v.None? then st
    else
      var held := if 0 < st.depth < OWNERS && st.depth < |st.owner| then st.owner[st.depth] else -1;
      var at := if st.pendIf >= 0 then st.pendIf else if held >= 0 then held else st.cur;
      if v.value.Scan? && 0 <= at < |st.cnd| then st.(cnd := st.cnd[at := Judged(st.cnd[at], v.value)], pendIf := -1)
      else st.(pendIf := -1)
  }

  function Brace(st: RState, t: Tok): RState {
    if Opens(t) then
      var d := st.depth + 1;
      st.(depth := d, pendIf := -1,
          owner := if d < OWNERS && d < |st.owner| then st.owner[d := st.cur] else st.owner,
          parent := if d > 1 && st.cur >= 0 then st.cur else st.parent)
    else if t == RBrace then
      var d := if st.depth > 0 then st.depth - 1 else 0;
      st.(depth := d,
          owner := if st.depth < OWNERS && st.depth < |st.owner| then st.owner[st.depth := -1] else st.owner,
          parent := if d <= 1 then -1 else st.parent)
    else st
  }

  function Braces(st: RState, line: seq<Tok>): RState
    decreases |line|
  {
    if line == [] then st else Braces(Brace(st, line[0]), line[1..])
  }

  predicate HasEq(t: Tok) { t == Ge || t == Assign || (t.Raw? && '=' in t.text) }

  /** A call with an "=" in front of it and no test is taken for a counter's, which is kept for
      comparisons to come and makes no matcher. */
  predicate CounterLine(line: seq<Tok>) {
    KIf !in line && exists i, j :: 0 <= j < i < |line| && IsCall(line[i]) && HasEq(line[j]) && !HasCall(line[..i])
  }

  function ReadLine(st0: RState, line: seq<Tok>, h: Header): RState {
    var st := Bare(st0, line);
    if KIf in line && |st.cnd| >= MAX_GROUP then st.(skipped := st.skipped + 1)
    else
      var begun := if KIf in line then If(st, line) else st;
      if CounterLine(line) then begun
      else Braces(Verdict(Calls(SetOr(begun, line), line, 0, h), line), line)
  }

  // ---- all of them ------------------------------------------------------------------------

  function ReadPieces(st: RState, s: seq<seq<Tok>>, h: Header): RState
    decreases |s|
  {
    if s == [] then st else ReadPieces(ReadLine(st, s[0], h), s[1..], h)
  }

  /** A body as the buffer delivers it: a line longer than that comes in pieces, each read as a
      line of its own. */
  function ReadAll(st: RState, t: seq<Tok>, at: Layout, h: Header): RState
    decreases |t|
  {
    var n := LineLen(t);
    if t == [] then st
    else
      var r := ReadPieces(st, Pieces(t[..n], Room(at, t[..n]), h.name), h);
      if n == |t| then r else ReadAll(r, t[n + 1..], Next(at, t[..n]), h)
  }

  /** The same with every line whole. */
  function ReadWhole(st: RState, t: seq<Tok>, h: Header): RState
    decreases |t|
  {
    var n := LineLen(t);
    if t == [] then st
    else if n == |t| then ReadLine(st, t, h)
    else ReadWhole(ReadLine(st, t[..n], h), t[n + 1..], h)
  }

  /** When every line fits the buffer, nothing is cut. */
  lemma {:induction false} FitsWhole(st: RState, t: seq<Tok>, at: Layout, h: Header)
    requires AllFit(t, at, h.name)
    ensures ReadAll(st, t, at, h) == ReadWhole(st, t, h)
    decreases |t|
  {
    hide ReadLine, Room, Next, Spelled;
    if t != [] {
      var n := LineLen(t);
      var line := t[..n];
      assert Pieces(line, Room(at, line), h.name) == [line];
      assert [line][1..] == [];
      assert ReadPieces(st, [line], h) == ReadLine(st, line, h);
      if n < |t| { FitsWhole(ReadLine(st, line, h), t[n + 1..], Next(at, line), h); } else { assert line == t; }
    }
  }

  /** Inside the body's own brace. */
  function Start(decl: seq<Decl>): RState { RState(decl, [], [], -1, -1, -1, 1, seq(OWNERS, _ => -1), 0) }

  const INSIDE: Layout := Layout(1, false)

  function ReadBack(decl: seq<Decl>, t: seq<Tok>, h: Header): Model {
    var st := ReadAll(Start(decl), t, INSIDE, h);
    Model(st.decl, st.grp, st.cnd, [], None)
  }
}
