/** The characters a body is printed in, and the lines a reader with a buffer of 1024 gets of it. */
module Lines {
  import opened TargetC
  import opened ExprSource
  import opened IdList
  import PlaceText

  // ---- how tokens are spelled -------------------------------------------------------------

  predicate NameChar(c: char) { 'a' <= c <= 'z' || 'A' <= c <= 'Z' || IsDigit(c) || c == '_' }

  predicate IsName(s: string) { s != "" && forall i :: 0 <= i < |s| ==> NameChar(s[i]) }

  /** What a range is called in the file: an identifier, whichever regions it unites. */
  type Naming = f: bv32 -> string | forall r: bv32 :: IsName(f(r)) witness (r: bv32) => "r"

  const CALL: string := "kof_find_str_"

  function KindWord(kind: FindKind): string {
    match kind
    case FindAll => "all"
    case FindAny => "any"
    case FindMulti => "multi"
  }

  function Markers(strs: seq<nat>): string { if strs == [] then "" else ", s" + Dec(strs[0]) + Markers(strs[1..]) }

  predicate Fits64(x: int) { -0x8000_0000_0000_0000 <= x < 0x8000_0000_0000_0000 }

  function PlaceC(p: Place): string {
    if Fits64(p.step) then PlaceText.Text(p.anchor, p.step as PlaceText.Int64, true) else ""
  }

  function Padded(s: string, n: nat): string { if |s| >= n then s else seq(n - |s|, _ => '0') + s }

  function VariantC(v: Variant): string {
    match v
    case Auto => "KOF_MALVAR_AUTO"
    case Generic => "KOF_MALVAR_GENERIC"
    case Custom(name) => "\"" + name + "\""
  }

  /** A token with the blanks around it. The blank in front of a brace that stands alone is one
      of the tabs the line begins with. */
  function Spell(t: Tok, name: Naming): string {
    match t
    case KIf => "if "
    case KReturn => "return"
    case KUint8 => "uint8_t "
    case LPar => "("
    case RPar => ")"
    case LBrace => " {"
    case RBrace => "}"
    case Semi => ";"
    case Assign => " = "
    case Newline => "\n"
    case Bang => "!"
    case AndAnd => " && "
    case OrOr => " || "
    case Ge => " >= "
    case Gt => " > "
    case Num(n) => Dec(n)
    case Var(id) => "m" + Dec(id + 1)
    case Find(kind, range, strs) => CALL + (KindWord(kind) + "(" + (name(range) + (Markers(strs) + ")")))
    case FindAt(place, strs) => CALL + ("at(" + (PlaceC(place) + (Markers(strs) + ")")))
    case Score(blk) => "kof_mutation_score(blk_" + Padded(PlaceText.Hex(blk as nat), 8) + ")"
    case ObjSize => "ctx->obj_size"
    case Scan(level, v) => "KOF_SCAN_" + (if level == Suspect then "SUSPECT" else "INFECT") + "(" + VariantC(v) + ")"
    case Raw(text) => text
  }

  function Spelled(s: seq<Tok>, name: Naming): string {
    if s == [] then "" else Spell(s[0], name) + Spelled(s[1..], name)
  }

  // ---- a line that does not fit -----------------------------------------------------------

  /** What fgets leaves of a buffer of 1024. */
  const LINE_ROOM: nat := 1023

  /** The first n characters of a line ... */
  function CutHead(s: seq<Tok>, n: nat, name: Naming): seq<Tok>
    decreases |s|
  {
    if s == [] || n == 0 then []
    else
      var w := Spell(s[0], name);
      if |w| <= n then [s[0]] + CutHead(s[1..], n - |w|, name) else [Raw(w[..n])]
  }

  /** ... and the rest of it. */
  function CutTail(s: seq<Tok>, n: nat, name: Naming): seq<Tok>
    decreases |s|
  {
    if s == [] || n == 0 then s
    else
      var w := Spell(s[0], name);
      if |w| <= n then CutTail(s[1..], n - |w|, name) else [Raw(w[n..])] + s[1..]
  }

  lemma SpelledCons(t: Tok, s: seq<Tok>, name: Naming)
    ensures Spelled([t] + s, name) == Spell(t, name) + Spelled(s, name)
  {
    hide Spell;
    assert ([t] + s)[1..] == s;
  }

  lemma {:induction false} SpelledAppend(a: seq<Tok>, b: seq<Tok>, name: Naming)
    ensures Spelled(a + b, name) == Spelled(a, name) + Spelled(b, name)
    decreases |a|
  {
    hide Spell;
    if a == [] {
      assert a + b == b;
    } else {
      assert (a + b)[1..] == a[1..] + b;
      SpelledAppend(a[1..], b, name);
    }
  }

  lemma SpelledNone(name: Naming)
    ensures Spelled([], name) == ""
  {
  }

  /** No character is lost, none is read twice, and none moves. */
  lemma {:induction false} CutExact(s: seq<Tok>, n: nat, name: Naming)
    requires n <= |Spelled(s, name)|
    ensures Spelled(CutHead(s, n, name), name) == Spelled(s, name)[..n]
    ensures Spelled(CutTail(s, n, name), name) == Spelled(s, name)[n..]
    decreases |s|
  {
    hide Spell, Spelled;
    SpelledNone(name);
    if s != [] && n > 0 {
      var w, t := Spell(s[0], name), s[1..];
      assert [s[0]] + t == s;
      SpelledCons(s[0], t, name);
      if |w| <= n {
        CutExact(t, n - |w|, name);
        SpelledCons(s[0], CutHead(t, n - |w|, name), name);
      } else {
        RawSpelled(w[..n], name);
        RawSpelled(w[n..], name);
        SpelledCons(Raw(w[..n]), [], name);
        assert [Raw(w[..n])] + [] == [Raw(w[..n])];
        SpelledCons(Raw(w[n..]), t, name);
        assert w == w[..n] + w[n..];
      }
    }
  }

  lemma RawSpelled(w: string, name: Naming)
    ensures Spell(Raw(w), name) == w
  {
  }

  /** The lines fgets makes of one line with room for `room` characters in the first. */
  function Pieces(s: seq<Tok>, room: nat, name: Naming): seq<seq<Tok>>
    requires 0 < room
    decreases |Spelled(s, name)|
  {
    if |Spelled(s, name)| <= room then [s]
    else
      CutExact(s, room, name);
      [CutHead(s, room, name)] + Pieces(CutTail(s, room, name), LINE_ROOM, name)
  }

  // ---- where a line begins ----------------------------------------------------------------

  /** How many blocks are open, and whether the line before was a test with its verdict to come. */
  datatype Layout = Layout(open: nat, hung: bool)

  function Tabs(at: Layout, line: seq<Tok>): nat {
    if line != [] && (line[0] == LBrace || line[0] == RBrace) then (if at.open > 0 then at.open - 1 else 0)
    else at.open + if at.hung then 1 else 0
  }

  function Room(at: Layout, line: seq<Tok>): (r: nat)
    ensures 0 < r <= LINE_ROOM
  {
    if Tabs(at, line) < LINE_ROOM then LINE_ROOM - Tabs(at, line) else 1
  }

  function Opened(open: nat, line: seq<Tok>): nat
    decreases |line|
  {
    if line == [] then open
    else Opened(if line[0] == LBrace then open + 1 else if line[0] == RBrace && open > 0 then open - 1
        else open, line[1..])
  }

  function Next(at: Layout, line: seq<Tok>): Layout {
    Layout(Opened(at.open, line), line != [] && line[0] == KIf && line[|line| - 1] != LBrace)
  }

  function LineLen(t: seq<Tok>): (n: nat)
    ensures n <= |t| && (n < |t| ==> t[n] == Newline) && Newline !in t[..n]
  {
    if t == [] || t[0] == Newline then 0
    else
      assert t == [t[0]] + t[1..];
      var n := 1 + LineLen(t[1..]);
      assert t[..n] == [t[0]] + t[1..][..n - 1];
      n
  }

  /** Every line fits the buffer whole. */
  predicate AllFit(t: seq<Tok>, at: Layout, name: Naming)
    decreases |t|
  {
    var n := LineLen(t);
    && |Spelled(t[..n], name)| <= Room(at, t[..n])
    && (n == |t| || AllFit(t[n + 1..], Next(at, t[..n]), name))
  }
}
