/** Writing a find_at place out, for the screen and for the file, and reading it back. */
module PlaceText {
  import opened TargetC
  import opened ExprSource
  import opened IdList

  const BOF: nat := 0
  const ENTRY: nat := 1
  const EOF: nat := 2
  const ANCHOR_COUNT: nat := 3

  const INT64_MIN: int := -0x8000_0000_0000_0000
  const TWO64: nat := 0x1_0000_0000_0000_0000

  newtype Int64 = x: int | -0x8000_0000_0000_0000 <= x < 0x8000_0000_0000_0000

  /** How the generated file names an anchor; bof is nothing at all. */
  function AnchorExpr(a: nat): string {
    if a == ENTRY then "ctx->entry_off" else if a == EOF then "ctx->obj_size" else ""
  }

  /** How the screen names it. */
  function AnchorWord(a: nat): string {
    if a == ENTRY then "entry" else if a == EOF then "eof" else "bof"
  }

  // ---- writing ----------------------------------------------------------------------------

  function HexChar(d: nat): char
    requires d < 16
  {
    "0123456789abcdef"[d]
  }

  /** %llx */
  function Hex(n: nat): (r: string)
    ensures r != ""
  {
    (if n < 16 then "" else Hex(n / 16)) + [HexChar(n % 16)]
  }

  function Mag(off: Int64): nat { if off < 0 then -(off as int) else off as int }

  function Sign(off: Int64): string { if off < 0 then "-" else "+" }

  function Spelling(a: nat, asC: bool): string { if asC then AnchorExpr(a) else AnchorWord(a) }

  predicate HasName(a: nat, asC: bool) { Spelling(a, asC) != "" }

  function Text(a: nat, off: Int64, asC: bool): string {
    var b := Spelling(a, asC);
    var u := if asC then "u" else "";
    if b == "" then (if off < 0 then "-" else "") + "0x" + Hex(Mag(off)) + u
    else if off == 0 && asC then b
    else b + " " + Sign(off) + " 0x" + Hex(Mag(off)) + u
  }

  // ---- strtoull(s, &end, 0) ---------------------------------------------------------------

  predicate Space(c: char) { c == ' ' || '\t' <= c <= '\r' }

  function DigitOf(c: char): nat {
    if '0' <= c <= '9' then c as int - '0' as int
    else if 'a' <= c <= 'z' then c as int - 'a' as int + 10
    else if 'A' <= c <= 'Z' then c as int - 'A' as int + 10
    else 99
  }

  predicate InBase(c: char, base: nat) { DigitOf(c) < base }

  /** The leading run of digits of a base. */
  function Run(s: string, base: nat): (r: string)
    ensures |r| <= |s| && r == s[..|r|]
    ensures forall i :: 0 <= i < |r| ==> InBase(r[i], base)
  {
    if s != "" && InBase(s[0], base) then [s[0]] + Run(s[1..], base) else ""
  }

  function Value(ds: string, base: nat): nat {
    if ds == "" then 0 else Value(ds[..|ds| - 1], base) * base + DigitOf(ds[|ds| - 1])
  }

  function SkipSpace(s: string): (r: string)
    ensures |r| <= |s|
  {
    if s != "" && Space(s[0]) then SkipSpace(s[1..]) else s
  }

  /** Clamped to 64 bits, and negated there. */
  function Wrap(v: nat, neg: bool): (r: nat)
    ensures r < TWO64
  {
    if v >= TWO64 then TWO64 - 1 else if neg then (TWO64 - v) % TWO64 else v
  }

  /** The number and what is left; nothing is taken when there is no digit. */
  function StrToULL(s: string): (r: (nat, string))
    ensures r.0 < TWO64 && |r.1| <= |s|
  {
    var t := SkipSpace(s);
    var neg := t != "" && t[0] == '-';
    var n := if t != "" && (t[0] == '-' || t[0] == '+') then t[1..] else t;
    if |n| >= 3 && n[0] == '0' && (n[1] == 'x' || n[1] == 'X') && InBase(n[2], 16) then
      var ds := Run(n[2..], 16);
      (Wrap(Value(ds, 16), neg), n[2..][|ds|..])
    else
      var base := if n != "" && n[0] == '0' then 8 else 10;
      var ds := Run(n, base);
      if ds == "" then (0, s) else (Wrap(Value(ds, base), neg), n[|ds|..])
  }

  // ---- reading ----------------------------------------------------------------------------

  /** The cast to int64_t. */
  function Signed(v: nat): Int64
    requires v < TWO64
  {
    if v >= 0x8000_0000_0000_0000 then (v - TWO64) as Int64 else v as Int64
  }

  /** `Overflow` where the C negates the most negative value. */
  datatype Reading = Reading(anchor: nat, off: Int64, rest: string) | Overflow

  function Blanks(s: string): (r: string)
    ensures |r| <= |s|
  {
    if s != "" && (s[0] == ' ' || s[0] == '\t') then Blanks(s[1..]) else s
  }

  function Bare(e: string): string { if "ctx->" <= e then e[5..] else e }

  /** The spelling of anchor i that s begins with: the C text, the field bare, then the word. */
  function Spelled(s: string, i: nat): (r: Option<string>)
    ensures r.Some? ==> r.value <= s
  {
    var e := AnchorExpr(i);
    if e != "" && e <= s then Some(e)
    else if e != "" && Bare(e) <= s then Some(Bare(e))
    else if AnchorWord(i) <= s then Some(AnchorWord(i))
    else None
  }

  function FindAnchor(s: string, i: nat): (r: Option<(nat, string)>)
    requires i <= ANCHOR_COUNT
    ensures r.Some? ==> i <= r.value.0 < ANCHOR_COUNT && |r.value.1| <= |s|
    decreases ANCHOR_COUNT - i
  {
    if i == ANCHOR_COUNT then None
    else if Spelled(s, i).Some? then Some((i, s[|Spelled(s, i).value|..]))
    else FindAnchor(s, i + 1)
  }

  function Suffix(s: string): (r: string)
    ensures |r| <= |s|
  {
    if s != "" && (s[0] == 'u' || s[0] == 'U' || s[0] == 'l' || s[0] == 'L') then Suffix(s[1..]) else s
  }

  function Step(a: nat, s: string): Reading {
    if s == "" || (s[0] != '+' && s[0] != '-') then Reading(a, 0, s)
    else
      var r := StrToULL(s[1..]);
      var v := Signed(r.0);
      if |r.1| == |s[1..]| then Reading(a, v, s[1..])
      else if s[0] == '-' && v as int == INT64_MIN then Overflow
      else Reading(a, if s[0] == '-' then -v else v, Suffix(r.1))
  }

  function Parse(s0: string): Reading {
    var s := Blanks(s0);
    var f := FindAnchor(s, 0);
    if f.Some? then Step(f.value.0, Blanks(f.value.1))
    else
      var t := Blanks(s);
      var r := StrToULL(t);
      Reading(BOF, Signed(r.0), Suffix(r.1))
  }

  // ---- a number printed is a number read --------------------------------------------------

  lemma HexDigit(d: nat)
    requires d < 16
    ensures DigitOf(HexChar(d)) == d
  {
  }

  lemma {:induction false} HexIs(n: nat)
    ensures (forall i :: 0 <= i < |Hex(n)| ==> InBase(Hex(n)[i], 16)) && Value(Hex(n), 16) == n
    decreases n
  {
    HexDigit(n % 16);
    hide HexChar, DigitOf;
    var h := Hex(n);
    if n >= 16 {
      HexIs(n / 16);
      assert h[..|h| - 1] == Hex(n / 16);
    } else {
      assert h[..|h| - 1] == "";
    }
  }

  lemma {:induction false} RunThen(ds: string, k: string, base: nat)
    requires forall i :: 0 <= i < |ds| ==> InBase(ds[i], base)
    requires k == "" || !InBase(k[0], base)
    ensures Run(ds + k, base) == ds && (ds + k)[|ds|..] == k
    decreases |ds|
  {
    hide InBase;
    if ds == "" {
      assert ds + k == k;
    } else {
      var t := ds[1..];
      assert (ds + k)[1..] == t + k;
      assert ds == [ds[0]] + t && (ds + k)[0] == ds[0];
      RunThen(t, k, base);
      assert (ds + k)[|ds|..] == (t + k)[|t|..];
    }
  }

  /** What may follow a number: nothing, its suffix, or the comma before the markers. */
  predicate Ends(k: string) { k == "" || k[0] == ',' }

  function U(asC: bool): string { if asC then "u" else "" }

  /** strtoull on a hexadecimal literal, after a blank or a sign. */
  lemma HexNumber(n: string)
    requires |n| >= 3 && n[0] == '0' && n[1] == 'x' && InBase(n[2], 16)
    ensures var ds := Run(n[2..], 16); var k := n[2..][|ds|..];
      && StrToULL(n) == (Wrap(Value(ds, 16), false), k)
      && StrToULL("-" + n) == (Wrap(Value(ds, 16), true), k)
      && StrToULL(" " + n) == (Wrap(Value(ds, 16), false), k)
  {
    hide Run, Value, InBase, Wrap;
    assert ("-" + n)[1..] == n && (" " + n)[1..] == n;
    assert SkipSpace(n) == n && SkipSpace("-" + n) == "-" + n && SkipSpace(" " + n) == n;
  }

  function Literal(n: nat, asC: bool): string { "0x" + Hex(n) + U(asC) }

  lemma LiteralShape(n: nat, asC: bool, k: string)
    ensures var t := Literal(n, asC) + k; var d := Hex(n) + (U(asC) + k);
      |t| >= 3 && t[0] == '0' && t[1] == 'x' && t[2..] == d && t[2] == d[0] == Hex(n)[0]
  {
    hide Hex, U;
    assert Literal(n, asC) + k == "0x" + (Hex(n) + (U(asC) + k));
  }

  lemma HexRead(n: nat, asC: bool, k: string)
    requires n < TWO64 && Ends(k)
    ensures var t := Literal(n, asC) + k;
      StrToULL(t) == (n, U(asC) + k) && StrToULL("-" + t) == (Wrap(n, true), U(asC) + k)
      && StrToULL(" " + t) == (n, U(asC) + k)
  {
    hide Hex, Run, Value, InBase, U, Literal, StrToULL;
    HexIs(n);
    TailEnds(asC, k);
    RunThen(Hex(n), U(asC) + k, 16);
    LiteralShape(n, asC, k);
    HexNumber(Literal(n, asC) + k);
  }

  lemma TailEnds(asC: bool, k: string)
    requires Ends(k)
    ensures var tail := U(asC) + k; (tail == "" || !InBase(tail[0], 16)) && Suffix(tail) == k
  {
    if asC { assert ("u" + k)[1..] == k; } else { assert "" + k == k; }
  }

  // ---- a place printed is a place read ----------------------------------------------------

  /** What stands after an anchor: nothing, the comma, or the blank before its step. */
  predicate AfterAnchor(k: string) { k == "" || k[0] == ' ' || k[0] == ',' }

  lemma Begins(b: string, k: string)
    requires b != ""
    ensures b <= b + k && (b + k)[|b|..] == k && (b + k)[0] == b[0]
  {
  }

  lemma NotC(s: string, i: nat)
    requires 0 < i < ANCHOR_COUNT && |s| > 5 && s[0] == 'c' && s[5] != AnchorExpr(i)[5]
    ensures Spelled(s, i).None? && Spelled(s, 0).None?
  {
    assert "bof"[0] == 'b' && AnchorWord(i)[0] == 'e' && Bare(AnchorExpr(i))[0] != 'c';
  }

  lemma AnchorC(a: nat, k: string)
    requires 0 < a < ANCHOR_COUNT
    ensures var s := AnchorExpr(a) + k; Blanks(s) == s && FindAnchor(s, 0) == Some((a, k))
  {
    var s := AnchorExpr(a) + k;
    Begins(AnchorExpr(a), k);
    hide AnchorWord, Bare;
    assert s[5] == AnchorExpr(a)[5];
    NotC(s, 3 - a);
    assert Spelled(s, a) == Some(AnchorExpr(a));
    if a == ENTRY { assert FindAnchor(s, 1) == Some((a, k)); } else { assert FindAnchor(s, 2) == Some((a, k)); }
  }

  lemma AnchorW(a: nat, k: string)
    requires a < ANCHOR_COUNT && AfterAnchor(k)
    ensures var s := AnchorWord(a) + k; Blanks(s) == s && FindAnchor(s, 0) == Some((a, k))
  {
    var s := AnchorWord(a) + k;
    Begins(AnchorWord(a), k);
    WordSpelled(a, k);
    hide AnchorWord, Spelled;
    if a == BOF {
    } else if a == ENTRY {
      assert FindAnchor(s, 1) == Some((a, k));
    } else {
      assert FindAnchor(s, 2) == Some((a, k));
    }
  }

  lemma WordSpelled(a: nat, k: string)
    requires a < ANCHOR_COUNT && AfterAnchor(k)
    ensures var s := AnchorWord(a) + k;
      Spelled(s, a) == Some(AnchorWord(a)) && (forall i :: 0 <= i < a ==> Spelled(s, i).None?)
      && s[0] == AnchorWord(a)[0] != ' ' && s[0] != '\t'
  {
    var s := AnchorWord(a) + k;
    assert "bof"[0] == 'b' && "ctx->entry_off"[0] == 'c' && "ctx->obj_size"[0] == 'c';
    assert Bare("ctx->entry_off")[1] == 'n' && Bare("ctx->obj_size")[0] == 'o' && "entry"[1] == 'n';
    if a == BOF { assert s[0] == 'b'; }
    if a == ENTRY { assert s[0] == 'e'; EntryWord(k); }
    if a == EOF { assert s[0] == 'e' && s[1] == 'o'; }
  }

  lemma AnchorRead(a: nat, asC: bool, k: string)
    requires a < ANCHOR_COUNT && HasName(a, asC) && AfterAnchor(k)
    ensures var s := Spelling(a, asC) + k; Blanks(s) == s && FindAnchor(s, 0) == Some((a, k))
  {
    hide FindAnchor, Blanks;
    if asC { AnchorC(a, k); } else { AnchorW(a, k); }
  }

  /** "entry" on its own is not the beginning of "entry_off". */
  lemma EntryWord(k: string)
    requires k == "" || k[0] == ' ' || k[0] == ','
    ensures Spelled("entry" + k, 1) == Some("entry")
  {
    var s, f := "entry" + k, "entry_off";
    assert |s| > 5 ==> s[5] == k[0];
    assert f[5] == '_';
    assert s[0] == 'e';
  }

  lemma Cast(off: Int64)
    ensures Mag(off) < TWO64
    ensures off >= 0 ==> Signed(Mag(off)) == off
    ensures off < 0 ==> Signed(Wrap(Mag(off), true)) == off
    ensures off < 0 && off as int != INT64_MIN ==> Signed(Mag(off)) as int != INT64_MIN && -Signed(Mag(off)) == off
    ensures off as int == INT64_MIN ==> Signed(Mag(off)) as int == INT64_MIN
  {
  }

  lemma StepRead(a: nat, off: Int64, asC: bool, k: string)
    requires Ends(k)
    ensures Step(a, Sign(off) + " " + Literal(Mag(off), asC) + k)
         == if off as int == INT64_MIN then Overflow else Reading(a, off, k)
  {
    hide Literal, StrToULL, Suffix;
    Cast(off);
    HexRead(Mag(off), asC, k);
    TailEnds(asC, k);
    var t := Literal(Mag(off), asC) + k;
    var s := Sign(off) + " " + Literal(Mag(off), asC) + k;
    assert s == Sign(off) + (" " + t);
    assert s[1..] == " " + t && s[0] == Sign(off)[0];
    LiteralLong(Mag(off), asC);
    assert |U(asC) + k| < |" " + t|;
  }

  lemma LiteralLong(n: nat, asC: bool)
    ensures |Literal(n, asC)| > |U(asC)|
  {
  }

  lemma TextShape(a: nat, off: Int64, asC: bool, k: string)
    requires HasName(a, asC) && !(off == 0 && asC)
    ensures Text(a, off, asC) + k == Spelling(a, asC) + (" " + (Sign(off) + " " + Literal(Mag(off), asC) + k))
  {
    hide AnchorExpr, AnchorWord, Mag, Hex;
  }

  lemma StepStart(off: Int64, x: string)
    ensures Blanks(" " + (Sign(off) + x)) == Sign(off) + x
  {
    var t := Sign(off) + x;
    assert (" " + t)[1..] == t && t[0] == Sign(off)[0];
  }

  lemma ParseNamed(a: nat, s: string, k: string)
    requires Blanks(s) == s && FindAnchor(s, 0) == Some((a, k))
    ensures Parse(s) == Step(a, Blanks(k))
  {
    hide FindAnchor, Step, Blanks;
  }

  lemma NoStep(a: nat, k: string)
    requires Ends(k)
    ensures Blanks(k) == k && Step(a, k) == Reading(a, 0, k)
  {
  }

  lemma NamedText(a: nat, off: Int64, asC: bool, k: string)
    requires a < ANCHOR_COUNT && Ends(k) && HasName(a, asC)
    ensures Parse(Text(a, off, asC) + k) == if off as int == INT64_MIN then Overflow else Reading(a, off, k)
  {
    hide Step, FindAnchor, Literal, AnchorExpr, AnchorWord, Mag, Hex, Parse, Blanks, Sign;
    var b := Spelling(a, asC);
    if off == 0 && asC {
      AnchorRead(a, asC, k);
      ParseNamed(a, b + k, k);
      NoStep(a, k);
    } else {
      hide Text;
      var x := " " + Literal(Mag(off), asC) + k;
      var step := Sign(off) + " " + Literal(Mag(off), asC) + k;
      assert step == Sign(off) + x;
      TextShape(a, off, asC, k);
      AnchorRead(a, asC, " " + step);
      ParseNamed(a, b + (" " + step), " " + step);
      StepStart(off, x);
      StepRead(a, off, asC, k);
    }
  }

  lemma NoAnchor(s: string)
    requires s != "" && (s[0] == '0' || s[0] == '-')
    ensures FindAnchor(s, 0).None?
  {
    assert "bof"[0] == 'b' && "entry"[0] == 'e' && "entry_off"[0] == 'e' && "ctx->entry_off"[0] == 'c';
    assert "eof"[0] == 'e' && "obj_size"[0] == 'o' && "ctx->obj_size"[0] == 'c';
    assert Bare("ctx->entry_off") == "entry_off" && Bare("ctx->obj_size") == "obj_size";
    assert Spelled(s, 0).None? && Spelled(s, 1).None? && Spelled(s, 2).None?;
  }

  lemma PlainText(a: nat, off: Int64, k: string)
    requires a == BOF && Ends(k)
    ensures Parse(Text(a, off, true) + k) == Reading(BOF, off, k)
  {
    hide FindAnchor, StrToULL, Suffix, Mag, Hex;
    Cast(off);
    HexRead(Mag(off), true, k);
    TailEnds(true, k);
    var lit := Literal(Mag(off), true) + k;
    assert lit[0] == '0';
    var s := Text(a, off, true) + k;
    assert s == if off < 0 then "-" + lit else lit;
    NoAnchor(s);
    assert Blanks(s) == s;
  }

  /** A place printed is a place read - the same anchor, the same signed step, up to the comma
      before the markers - unless it is named and the step is the most negative there is, which
      the reader cannot negate. */
  lemma PlaceRoundTrip(a: nat, off: Int64, asC: bool, k: string)
    requires a < ANCHOR_COUNT && Ends(k)
    ensures Parse(Text(a, off, asC) + k) == Reading(a, off, k)
       <==> !(HasName(a, asC) && off as int == INT64_MIN)
  {
    hide Parse, Text;
    if HasName(a, asC) { NamedText(a, off, asC, k); } else { PlainText(a, off, k); }
  }

  // ---- the loops --------------------------------------------------------------------------

  method SkipBlanks(s: string, p: nat) returns (q: nat)
    requires p <= |s|
    ensures p <= q <= |s| && s[q..] == Blanks(s[p..])
  {
    q := p;
    while q < |s| && (s[q] == ' ' || s[q] == '\t')
      invariant p <= q <= |s| && Blanks(s[q..]) == Blanks(s[p..])
    {
      assert s[q..][1..] == s[q + 1..];
      q := q + 1;
    }
  }

  method SkipSuffix(s: string) returns (r: string)
    ensures r == Suffix(s)
  {
    r := s;
    while r != "" && (r[0] == 'u' || r[0] == 'U' || r[0] == 'l' || r[0] == 'L')
      invariant Suffix(r) == Suffix(s)
      decreases |r|
    {
      r := r[1..];
    }
  }

  method ReadAnchor(s: string) returns (named: bool, a: nat, rest: string)
    ensures named == FindAnchor(s, 0).Some?
    ensures if named then FindAnchor(s, 0) == Some((a, rest)) else a == BOF && rest == s
  {
    hide Spelled;
    var i := 0;
    while i < ANCHOR_COUNT
      invariant i <= ANCHOR_COUNT && FindAnchor(s, 0) == FindAnchor(s, i)
    {
      var w := Spelled(s, i);
      if w.Some? { return true, i, s[|w.value|..]; }
      i := i + 1;
    }
    return false, BOF, s;
  }

  method GrpAtParse(s0: string) returns (r: Reading)
    ensures r == Parse(s0)
  {
    hide Blanks, FindAnchor, StrToULL, Suffix;
    assert s0[0..] == s0;
    var p := SkipBlanks(s0, 0);
    var named, a, s := ReadAnchor(s0[p..]);
    assert s[0..] == s;
    p := SkipBlanks(s, 0);
    s := s[p..];
    if !named {
      var n := StrToULL(s);
      var rest := SkipSuffix(n.1);
      return Reading(BOF, Signed(n.0), rest);
    }
    if s == "" || (s[0] != '+' && s[0] != '-') { return Reading(a, 0, s); }
    var neg := s[0] == '-';
    s := s[1..];
    var n := StrToULL(s);
    var v := Signed(n.0);
    if |n.1| == |s| { return Reading(a, v, s); }
    if neg && v as int == INT64_MIN { return Overflow; }
    if neg { v := -v; }
    var rest := SkipSuffix(n.1);
    return Reading(a, v, rest);
  }
}
