/** The text a condition holds: an expression over matcher ids, at most 63 characters of a
    64-byte field, typed by hand or built by the id row.

    `Lex` is the one reading of that text the emitter makes. `SOr`..`SUnary` give it the
    grammar the panel documents ("1", "1&2", "(1&2)|3"), and `Holds` its meaning. */
module ExprSource {
  import opened TargetC

  predicate IsDigit(c: char) { '0' <= c <= '9' }

  function SkipSpaces(s: string): (r: string)
    ensures |r| <= |s|
  {
    if s != [] && s[0] == ' ' then SkipSpaces(s[1..]) else s
  }

  /** The leading run of digits. */
  function Digits(s: string): (r: string)
    ensures |r| <= |s| && r == s[..|r|]
    ensures forall i :: 0 <= i < |r| ==> IsDigit(r[i])
    ensures |r| < |s| ==> !IsDigit(s[|r|])
  {
    if s != [] && IsDigit(s[0]) then [s[0]] + Digits(s[1..]) else []
  }

  function AfterDigits(s: string): (r: string)
    ensures |r| <= |s|
    ensures s != [] && IsDigit(s[0]) ==> |r| < |s|
  {
    s[|Digits(s)|..]
  }

  /** A run of decimal digits as a number. */
  function Decimal(ds: string): nat
    requires forall i :: 0 <= i < |ds| ==> IsDigit(ds[i])
  {
    if ds == [] then 0
    else
      assert IsDigit(ds[|ds| - 1]);
      Decimal(ds[..|ds| - 1]) * 10 + (ds[|ds| - 1] as int - '0' as int)
  }

  datatype STok = SId(n: nat, neg: bool) | SBang | SAnd | SOrT | SLp | SRp

  /** A "!" reaching digits over spaces belongs to that number; one reaching a bracket
      negates what the bracket holds; any other "!", and any other character, is dropped. */
  function Lex(s: string): seq<STok>
    decreases |s|
  {
    if s == [] then []
    else if s[0] == '!' then
      var q := SkipSpaces(s[1..]);
      if q != [] && IsDigit(q[0]) then [SId(Decimal(Digits(q)), true)] + Lex(AfterDigits(q))
      else if q != [] && q[0] == '(' then [SBang] + Lex(q)
      else Lex(s[1..])
    else if IsDigit(s[0]) then [SId(Decimal(Digits(s)), false)] + Lex(AfterDigits(s))
    else if s[0] == '&' then [SAnd] + Lex(s[1..])
    else if s[0] == '|' then [SOrT] + Lex(s[1..])
    else if s[0] == '(' then [SLp] + Lex(s[1..])
    else if s[0] == ')' then [SRp] + Lex(s[1..])
    else Lex(s[1..])
  }

  // ---- the grammar, and what an expression means --------------------------------------

  datatype Cnd = CId(n: nat, neg: bool) | CNot(c: Cnd) | CAnd(a: Cnd, b: Cnd) | COr(a: Cnd, b: Cnd)

  type SParsed = Option<(Cnd, seq<STok>)>

  function SFirst(s: seq<STok>): Option<STok> { if s == [] then None else Some(s[0]) }

  function SUnary(s: seq<STok>): (r: SParsed)
    ensures r.Some? ==> |r.value.1| < |s| && forall x :: x in r.value.1 ==> x in s
    decreases |s|, 0
  {
    if s == [] then None
    else if s[0].SId? then Some((CId(s[0].n, s[0].neg), s[1..]))
    else if s[0] == SLp then
      var r := SOr(s[1..]);
      if r.Some? && SFirst(r.value.1) == Some(SRp) then
        assert forall x :: x in r.value.1[1..] ==> x in r.value.1;
        assert forall x :: x in s[1..] ==> x in s;
        Some((r.value.0, r.value.1[1..]))
      else None
    else if s[0] == SBang && SFirst(s[1..]) == Some(SLp) then
      var r := SUnary(s[1..]);
      if r.Some? then Some((CNot(r.value.0), r.value.1)) else None
    else None
  }

  function SAndTail(a: Cnd, s: seq<STok>): (r: SParsed)
    ensures r.Some? ==> |r.value.1| <= |s| && forall x :: x in r.value.1 ==> x in s
    decreases |s|, 1
  {
    if SFirst(s) == Some(SAnd) then
      var r := SUnary(s[1..]);
      if r.None? then None else SAndTail(CAnd(a, r.value.0), r.value.1)
    else Some((a, s))
  }

  function SConj(s: seq<STok>): (r: SParsed)
    ensures r.Some? ==> |r.value.1| < |s| && forall x :: x in r.value.1 ==> x in s
    decreases |s|, 2
  {
    var r := SUnary(s);
    if r.None? then None else SAndTail(r.value.0, r.value.1)
  }

  function SOrTail(a: Cnd, s: seq<STok>): (r: SParsed)
    ensures r.Some? ==> |r.value.1| <= |s| && forall x :: x in r.value.1 ==> x in s
    decreases |s|, 3
  {
    if SFirst(s) == Some(SOrT) then
      var r := SConj(s[1..]);
      if r.None? then None else SOrTail(COr(a, r.value.0), r.value.1)
    else Some((a, s))
  }

  function SOr(s: seq<STok>): (r: SParsed)
    ensures r.Some? ==> |r.value.1| < |s| && forall x :: x in r.value.1 ==> x in s
    decreases |s|, 4
  {
    var r := SConj(s);
    if r.None? then None else SOrTail(r.value.0, r.value.1)
  }

  /** The expression a text spells, when it spells one. */
  function Read(s: string): Option<Cnd> {
    var r := SOr(Lex(s));
    if r.Some? && r.value.1 == [] then Some(r.value.0) else None
  }

  /** Truth of an expression when `lit(n)` says whether matcher number n holds. */
  ghost predicate Holds(c: Cnd, lit: nat -> bool) {
    match c
    case CId(n, neg) => lit(n) != neg
    case CNot(a) => !Holds(a, lit)
    case CAnd(a, b) => Holds(a, lit) && Holds(b, lit)
    case COr(a, b) => Holds(a, lit) || Holds(b, lit)
  }
}
