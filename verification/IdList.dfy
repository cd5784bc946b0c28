/** A condition's text as the panel's row of ids: what the scan reads out of it, what the row
    writes back, and when nothing is lost on the way. */
module IdList {
  import opened TargetC
  import opened DraftModel
  import opened ExprSource
  import opened ExprTokens

  datatype Lit = Lit(n: nat, neg: bool)

  const ULONG_MAX: nat := 0xFFFF_FFFF_FFFF_FFFF

  /** strtoul stops at the largest unsigned long. */
  function Saturate(n: nat): nat { if n > ULONG_MAX then ULONG_MAX else n }

  /** Every id of a text with its sign, in order. */
  function Ids(s: string): seq<Lit>
    decreases |s|
  {
    if s == "" then []
    else if s[0] == '!' then
      var q := SkipSpaces(s[1..]);
      if q != "" && IsDigit(q[0]) then [Lit(Saturate(Decimal(Digits(q))), true)] + Ids(AfterDigits(q))
      else Ids(s[1..])
    else if IsDigit(s[0]) then [Lit(Saturate(Decimal(Digits(s))), false)] + Ids(AfterDigits(s))
    else Ids(s[1..])
  }

  /** The first literal naming matcher g, if one does. */
  function FirstLit(lits: seq<Lit>, n: nat): Option<Lit> {
    if lits == [] then None else if lits[0].n == n then Some(lits[0]) else FirstLit(lits[1..], n)
  }

  predicate Uses(text: string, g: nat) { FirstLit(Ids(text), g + 1).Some? }

  predicate Negated(text: string, g: nat) {
    FirstLit(Ids(text), g + 1).Some? && FirstLit(Ids(text), g + 1).value.neg
  }

  // ---- what the row writes ----------------------------------------------------------------

  function Dec(n: nat): (r: string)
    ensures r != "" && forall i :: 0 <= i < |r| ==> IsDigit(r[i])
  {
    (if n < 10 then "" else Dec(n / 10)) + [('0' as int + n % 10) as char]
  }

  function Item(l: Lit): string { (if l.neg then "!" else "") + Dec(l.n) }

  function Sep(op: bool): string { if op then "|" else "&" }

  function Print(lits: seq<Lit>, op: bool): string {
    if lits == [] then ""
    else Print(lits[..|lits| - 1], op) + (if |lits| == 1 then "" else Sep(op)) + Item(lits[|lits| - 1])
  }

  const ID_ROOM: nat := 22
  const CANON_ROOM: nat := 8

  /** How many literals fit, an id being refused once `room` columns may not be left for it. */
  function Kept(lits: seq<Lit>, op: bool, room: nat, k: nat): (r: nat)
    requires k <= |lits|
    ensures k <= r <= |lits|
    decreases |lits| - k
  {
    if k == |lits| || |Print(lits[..k], op)| + room >= EXPR_ROOM then k else Kept(lits, op, room, k + 1)
  }

  function Fit(lits: seq<Lit>, op: bool, room: nat): string { Print(lits[..Kept(lits, op, room, 0)], op) }

  datatype Verb = Drop | Negate | Swap

  function Change(verb: Verb, g: nat, to: nat, l: Lit): seq<Lit> {
    if l.n != g + 1 then [l]
    else match verb
      case Drop => []
      case Negate => [Lit(l.n, !l.neg)]
      case Swap => [Lit(to + 1, l.neg)]
  }

  function Changed(verb: Verb, g: nat, to: nat, lits: seq<Lit>): seq<Lit> {
    if lits == [] then [] else Change(verb, g, to, lits[0]) + Changed(verb, g, to, lits[1..])
  }

  /** The matchers a text uses from number i on, by number, each with the sign it has first. */
  function InOrder(text: string, nGrp: nat, i: nat): seq<Lit>
    decreases nGrp - i
  {
    if i >= nGrp then []
    else (if Uses(text, i) then [Lit(i + 1, Negated(text, i))] else []) + InOrder(text, nGrp, i + 1)
  }

  function Canon(text: string, op: bool, nGrp: nat): string {
    Fit(InOrder(text, nGrp, 0), op, CANON_ROOM)
  }

  // ---- the scan and the emitter read the same ids -----------------------------------------

  function Named(s: seq<STok>): seq<Lit> {
    if s == [] then []
    else (if s[0].SId? then [Lit(Saturate(s[0].n), s[0].neg)] else []) + Named(s[1..])
  }

  lemma NamedNone()
    ensures Named([]) == []
  {
  }

  lemma LexNone()
    ensures Lex("") == []
  {
  }

  lemma NamedCons(t: STok, s: seq<STok>)
    ensures Named([t] + s) == (if t.SId? then [Lit(Saturate(t.n), t.neg)] else []) + Named(s)
  {
    assert ([t] + s)[1..] == s;
  }

  lemma {:induction false} IdsSkip(s: string)
    ensures Ids(SkipSpaces(s)) == Ids(s)
    decreases |s|
  {
    if s != "" && s[0] == ' ' { IdsSkip(s[1..]); }
  }

  /** The panel's list of ids is the emitter's, but for how each holds a number. */
  lemma {:induction false} IdsAreNamed(s: string)
    ensures Ids(s) == Named(Lex(s))
    decreases |s|
  {
    hide Named, Decimal, Digits;
    if s == "" {
      NamedNone();
    } else if s[0] == '!' {
      var q := SkipSpaces(s[1..]);
      if q != "" && IsDigit(q[0]) {
        IdsAreNamed(AfterDigits(q));
        NamedCons(SId(Decimal(Digits(q)), true), Lex(AfterDigits(q)));
      } else if q != "" && q[0] == '(' {
        IdsAreNamed(q);
        IdsSkip(s[1..]);
        NamedCons(SBang, Lex(q));
      } else {
        IdsAreNamed(s[1..]);
      }
    } else if IsDigit(s[0]) {
      IdsAreNamed(AfterDigits(s));
      NamedCons(SId(Decimal(Digits(s)), false), Lex(AfterDigits(s)));
    } else {
      IdsAreNamed(s[1..]);
      NamedCons(if s[0] == '&' then SAnd else if s[0] == '|' then SOrT else if s[0] == '(' then SLp else SRp,
                Lex(s[1..]));
    }
  }

  /** Both readings name the same matchers, with the same signs, exactly when no id only comes
      down to a matcher by being cut to 32 bits. */
  function PanelNames(s: seq<STok>, nGrp: nat): seq<Lit> {
    if s == [] then []
    else (if s[0].SId? && 1 <= Saturate(s[0].n) <= nGrp then [Lit(Saturate(s[0].n), s[0].neg)] else [])
         + PanelNames(s[1..], nGrp)
  }

  function EmitterNames(s: seq<STok>, nGrp: nat): seq<Lit> {
    if s == [] then []
    else (if s[0].SId? && 1 <= s[0].n % ID_WRAP <= nGrp then [Lit(s[0].n % ID_WRAP, s[0].neg)] else [])
         + EmitterNames(s[1..], nGrp)
  }

  predicate Cut(t: STok, nGrp: nat) { t.SId? && t.n >= ID_WRAP && 1 <= t.n % ID_WRAP <= nGrp }

  lemma {:induction false} PanelInEmitter(s: seq<STok>, nGrp: nat)
    requires nGrp <= MAX_GROUP
    ensures |PanelNames(s, nGrp)| <= |EmitterNames(s, nGrp)|
    ensures PanelNames(s, nGrp) == EmitterNames(s, nGrp) <==> forall i :: 0 <= i < |s| ==> !Cut(s[i], nGrp)
    decreases |s|
  {
    if s != [] {
      var t := s[1..];
      PanelInEmitter(t, nGrp);
      assert forall i :: 0 <= i < |t| ==> t[i] == s[i + 1];
      assert (forall i :: 0 <= i < |s| ==> !Cut(s[i], nGrp))
        <==> !Cut(s[0], nGrp) && forall i :: 0 <= i < |t| ==> !Cut(t[i], nGrp) by {
        if forall i :: 0 <= i < |t| ==> !Cut(t[i], nGrp) {
          forall i | 1 <= i < |s| ensures !Cut(s[i], nGrp) { assert s[i] == t[i - 1]; }
        }
      }
      if Cut(s[0], nGrp) {
        assert |EmitterNames(s, nGrp)| == 1 + |EmitterNames(t, nGrp)|;
        assert PanelNames(s, nGrp) == [] + PanelNames(t, nGrp);
      } else if s[0].SId? && 1 <= s[0].n <= nGrp {
        var l := Lit(s[0].n, s[0].neg);
        assert PanelNames(s, nGrp) == [l] + PanelNames(t, nGrp);
        assert EmitterNames(s, nGrp) == [l] + EmitterNames(t, nGrp);
        HeadSame(l, PanelNames(t, nGrp), EmitterNames(t, nGrp));
      } else {
        assert PanelNames(s, nGrp) == [] + PanelNames(t, nGrp) == PanelNames(t, nGrp);
        assert EmitterNames(s, nGrp) == [] + EmitterNames(t, nGrp) == EmitterNames(t, nGrp);
      }
    }
  }

  lemma HeadSame(l: Lit, a: seq<Lit>, b: seq<Lit>)
    ensures [l] + a == [l] + b <==> a == b
  {
    if [l] + a == [l] + b {
      assert a == ([l] + a)[1..];
      assert b == ([l] + b)[1..];
    }
  }

  // ---- a written list is read back --------------------------------------------------------

  lemma {:induction false} DigitsThen(ds: string, k: string)
    requires forall i :: 0 <= i < |ds| ==> IsDigit(ds[i])
    requires k == "" || !IsDigit(k[0])
    ensures Digits(ds + k) == ds && AfterDigits(ds + k) == k
    decreases |ds|
  {
    if ds == "" {
      assert ds + k == k;
    } else {
      DigitsThen(ds[1..], k);
      assert (ds + k)[1..] == ds[1..] + k;
      assert (ds + k)[|ds|..] == k;
    }
  }

  lemma {:induction false} DecimalDec(n: nat)
    ensures Decimal(Dec(n)) == n
    decreases n
  {
    var d := Dec(n);
    if n >= 10 {
      DecimalDec(n / 10);
      assert d[..|d| - 1] == Dec(n / 10);
    } else {
      assert d[..|d| - 1] == "";
    }
  }

  lemma LexNumber(t: string)
    requires t != "" && IsDigit(t[0])
    ensures Lex(t) == [SId(Decimal(Digits(t)), false)] + Lex(AfterDigits(t))
    ensures Lex("!" + t) == [SId(Decimal(Digits(t)), true)] + Lex(AfterDigits(t))
  {
    hide Decimal, Digits, AfterDigits;
    assert ("!" + t)[1..] == t;
    assert SkipSpaces(t) == t;
  }

  lemma LexItem(l: Lit, k: string)
    requires k == "" || !IsDigit(k[0])
    ensures Lex(Item(l) + k) == [SId(l.n, l.neg)] + Lex(k)
  {
    hide Lex, Digits, AfterDigits, Decimal, Dec;
    var d := Dec(l.n);
    var t := d + k;
    DigitsThen(d, k);
    DecimalDec(l.n);
    assert IsDigit(t[0]);
    LexNumber(t);
    assert Item(l) + k == if l.neg then "!" + t else t;
  }

  function SepTok(op: bool): STok { if op then SOrT else SAnd }

  /** A list after its first literal, as tokens. */
  function Tail(lits: seq<Lit>, op: bool): seq<STok> {
    if lits == [] then [] else [SepTok(op), SId(lits[0].n, lits[0].neg)] + Tail(lits[1..], op)
  }

  function ListToks(lits: seq<Lit>, op: bool): seq<STok> {
    if lits == [] then [] else [SId(lits[0].n, lits[0].neg)] + Tail(lits[1..], op)
  }

  lemma {:induction false} TailSnoc(lits: seq<Lit>, l: Lit, op: bool)
    ensures Tail(lits + [l], op) == Tail(lits, op) + [SepTok(op), SId(l.n, l.neg)]
    decreases |lits|
  {
    if lits == [] {
      assert lits + [l] == [l] && [l][1..] == [];
    } else {
      TailSnoc(lits[1..], l, op);
      assert (lits + [l])[1..] == lits[1..] + [l];
    }
  }

  lemma ListSnoc(lits: seq<Lit>, l: Lit, op: bool)
    ensures ListToks(lits + [l], op)
         == ListToks(lits, op) + (if lits == [] then [] else [SepTok(op)]) + [SId(l.n, l.neg)]
  {
    if lits == [] {
      assert lits + [l] == [l] && [l][1..] == [];
    } else {
      TailSnoc(lits[1..], l, op);
      assert (lits + [l])[1..] == lits[1..] + [l];
    }
  }

  lemma LexSep(op: bool, k: string)
    ensures Lex(Sep(op) + k) == [SepTok(op)] + Lex(k)
  {
    assert (Sep(op) + k)[1..] == k;
  }

  lemma PrintStep(lits: seq<Lit>, op: bool, k: string)
    requires lits != []
    ensures var init := lits[..|lits| - 1]; var item := Item(lits[|lits| - 1]) + k;
      Print(lits, op) + k == if init == [] then item else Print(init, op) + (Sep(op) + item)
  {
    hide Item, Sep;
    if |lits| == 1 { assert lits[..0] == [] && Print([], op) == ""; }
  }

  lemma NoneWritten(op: bool)
    ensures Print([], op) == "" && ListToks([], op) == []
  {
  }

  lemma {:induction false} LexPrint(lits: seq<Lit>, op: bool, k: string)
    requires k == "" || !IsDigit(k[0])
    ensures Lex(Print(lits, op) + k) == ListToks(lits, op) + Lex(k)
    decreases |lits|
  {
    hide Lex, Item, ListToks, IsDigit, Print;
    if lits == [] {
      NoneWritten(op);
      assert "" + k == k && [] + Lex(k) == Lex(k);
    } else {
      var init, l := lits[..|lits| - 1], lits[|lits| - 1];
      var item := Item(l) + k;
      LexItem(l, k);
      PrintStep(lits, op, k);
      ListSnocOf(lits, op, Lex(k));
      if init != [] {
        SepNoDigit(op, item);
        LexPrint(init, op, Sep(op) + item);
        LexSep(op, item);
      }
    }
  }

  lemma ListSnocOf(lits: seq<Lit>, op: bool, k: seq<STok>)
    requires lits != []
    ensures var init := lits[..|lits| - 1]; var item := [SId(lits[|lits| - 1].n, lits[|lits| - 1].neg)] + k;
      ListToks(lits, op) + k == if init == [] then item else ListToks(init, op) + ([SepTok(op)] + item)
  {
    var init, l := lits[..|lits| - 1], lits[|lits| - 1];
    assert init + [l] == lits;
    ListSnoc(init, l, op);
    hide Tail;
  }

  lemma SepNoDigit(op: bool, k: string)
    ensures !IsDigit((Sep(op) + k)[0])
  {
  }

  ghost predicate Held(lits: seq<Lit>) { forall i :: 0 <= i < |lits| ==> lits[i].n <= ULONG_MAX }

  lemma {:induction false} NamedTail(lits: seq<Lit>, op: bool)
    requires Held(lits)
    ensures Named(Tail(lits, op)) == lits
    decreases |lits|
  {
    if lits != [] {
      var t, id := Tail(lits[1..], op), SId(lits[0].n, lits[0].neg);
      NamedTail(lits[1..], op);
      assert Tail(lits, op) == [SepTok(op)] + ([id] + t);
      NamedCons(SepTok(op), [id] + t);
      NamedCons(id, t);
    }
  }

  /** What the row writes, the scan reads. */
  lemma IdsPrint(lits: seq<Lit>, op: bool)
    requires Held(lits)
    ensures Ids(Print(lits, op)) == lits
  {
    hide Ids, Lex, Print;
    LexPrint(lits, op, "");
    assert Print(lits, op) + "" == Print(lits, op);
    LexNone();
    IdsAreNamed(Print(lits, op));
    assert ListToks(lits, op) + [] == ListToks(lits, op);
    if lits != [] {
      NamedTail(lits[1..], op);
      NamedCons(SId(lits[0].n, lits[0].neg), Tail(lits[1..], op));
    }
  }

  lemma {:induction false} IdsHeld(s: string)
    ensures Held(Ids(s))
    decreases |s|
  {
    if s != "" {
      var q := if s[0] == '!' then SkipSpaces(s[1..]) else s;
      if q != "" && IsDigit(q[0]) { IdsHeld(AfterDigits(q)); } else { IdsHeld(s[1..]); }
    }
  }

  lemma OneId(n: nat)
    requires n <= ULONG_MAX
    ensures Ids(Dec(n)) == [Lit(n, false)] && Lex(Dec(n)) == [SId(n, false)]
  {
    hide Ids, Lex, Dec;
    var l := Lit(n, false);
    assert Item(l) == Dec(n);
    PrintOne(l);
    IdsPrint([l], false);
    LexItem(l, "");
    assert Dec(n) + "" == Dec(n);
    LexNone();
    assert [SId(n, false)] + [] == [SId(n, false)];
  }

  lemma PrintOne(l: Lit)
    ensures Print([l], false) == Item(l)
  {
    hide Item;
    assert [l][..0] == [];
    assert "" + "" + Item(l) == Item(l);
  }

  lemma OneName(n: nat, k: nat, nGrp: nat)
    ensures FirstLit([Lit(n, false)], k).Some? <==> n == k
    ensures 1 <= n % ID_WRAP <= nGrp ==> EmitterNames([SId(n, false)], nGrp) == [Lit(n % ID_WRAP, false)]
  {
    assert [Lit(n, false)][1..] == [] && [SId(n, false)][1..] == [];
  }

  /** An id past 32 bits, as "4294967297" is for matcher 1: none to the panel, one to the
      emitter. */
  lemma WrappedId(k: nat, nGrp: nat)
    requires 1 <= k <= nGrp <= MAX_GROUP
    ensures !Uses(Dec(ID_WRAP + k), k - 1)
    ensures EmitterNames(Lex(Dec(ID_WRAP + k)), nGrp) == [Lit(k, false)]
  {
    hide Ids, Lex, Dec, FirstLit, EmitterNames;
    OneId(ID_WRAP + k);
    OneName(ID_WRAP + k, k, nGrp);
  }

  // ---- what a list means ------------------------------------------------------------------

  ghost predicate ListHolds(op: bool, lits: seq<Lit>, lit: nat -> bool) {
    if op then exists i :: 0 <= i < |lits| && lit(lits[i].n) != lits[i].neg
    else forall i :: 0 <= i < |lits| ==> lit(lits[i].n) != lits[i].neg
  }

  lemma ListHoldsCons(op: bool, lits: seq<Lit>, lit: nat -> bool)
    requires lits != []
    ensures var h := lit(lits[0].n) != lits[0].neg;
      var t := ListHolds(op, lits[1..], lit);
      ListHolds(op, lits, lit) <==> if op then h || t else h && t
  {
    var t := lits[1..];
    assert forall i :: 1 <= i < |lits| ==> lits[i] == t[i - 1];
    if op {
      if i :| 0 <= i < |t| && lit(t[i].n) != t[i].neg { assert lits[i + 1] == t[i]; }
    }
  }

  lemma JoinStep(a: Cnd, l: Lit, lits: seq<Lit>, lit: nat -> bool)
    requires lits != [] && l == lits[0]
    ensures Holds(CAnd(a, CId(l.n, l.neg)), lit) && ListHolds(false, lits[1..], lit)
       <==> Holds(a, lit) && ListHolds(false, lits, lit)
    ensures Holds(COr(a, CId(l.n, l.neg)), lit) || ListHolds(true, lits[1..], lit)
       <==> Holds(a, lit) || ListHolds(true, lits, lit)
  {
    ListHoldsCons(false, lits, lit);
    ListHoldsCons(true, lits, lit);
  }

  lemma {:induction false} AndTail(a: Cnd, lits: seq<Lit>) returns (c: Cnd)
    ensures SAndTail(a, Tail(lits, false)) == Some((c, []))
    ensures forall lit: nat -> bool :: Holds(c, lit) <==> Holds(a, lit) && ListHolds(false, lits, lit)
    decreases |lits|
  {
    if lits == [] {
      c := a;
    } else {
      hide ListHolds, Holds;
      var s := Tail(lits, false);
      assert s[1..] == [SId(lits[0].n, lits[0].neg)] + Tail(lits[1..], false);
      assert s[1..][1..] == Tail(lits[1..], false);
      c := AndTail(CAnd(a, CId(lits[0].n, lits[0].neg)), lits[1..]);
      forall lit: nat -> bool
        ensures Holds(c, lit) <==> Holds(a, lit) && ListHolds(false, lits, lit)
      {
        JoinStep(a, lits[0], lits, lit);
      }
    }
  }

  lemma {:induction false} OrTail(a: Cnd, lits: seq<Lit>) returns (c: Cnd)
    ensures SOrTail(a, Tail(lits, true)) == Some((c, []))
    ensures forall lit: nat -> bool :: Holds(c, lit) <==> Holds(a, lit) || ListHolds(true, lits, lit)
    decreases |lits|
  {
    if lits == [] {
      c := a;
    } else {
      hide ListHolds, Holds;
      var s, id := Tail(lits, true), CId(lits[0].n, lits[0].neg);
      assert s[1..] == [SId(lits[0].n, lits[0].neg)] + Tail(lits[1..], true);
      assert s[1..][1..] == Tail(lits[1..], true);
      assert SConj(s[1..]) == Some((id, Tail(lits[1..], true)));
      c := OrTail(COr(a, id), lits[1..]);
      forall lit: nat -> bool
        ensures Holds(c, lit) <==> Holds(a, lit) || ListHolds(true, lits, lit)
      {
        JoinStep(a, lits[0], lits, lit);
      }
    }
  }

  /** A written list reads as the conjunction, or the disjunction, of its literals. */
  lemma ListReads(lits: seq<Lit>, op: bool) returns (c: Cnd)
    requires lits != []
    ensures Read(Print(lits, op)) == Some(c)
    ensures forall lit: nat -> bool :: Holds(c, lit) <==> ListHolds(op, lits, lit)
  {
    hide Print, Lex, ListHolds;
    LexPrint(lits, op, "");
    assert Print(lits, op) + "" == Print(lits, op);
    LexNone();
    var s, id := ListToks(lits, op), CId(lits[0].n, lits[0].neg);
    assert s + [] == s;
    assert Lex(Print(lits, op)) == s;
    assert s[1..] == Tail(lits[1..], op);
    assert SUnary(s) == Some((id, Tail(lits[1..], op)));
    if op {
      c := OrTail(id, lits[1..]);
      assert SConj(s) == Some((id, Tail(lits[1..], op)));
      assert SOr(s) == Some((c, []));
    } else {
      c := AndTail(id, lits[1..]);
      assert SConj(s) == Some((c, []));
      assert SOr(s) == Some((c, []));
    }
    forall lit: nat -> bool
      ensures Holds(c, lit) <==> ListHolds(op, lits, lit)
    {
      ListHoldsCons(op, lits, lit);
    }
  }
}
