/** The statements a draft is generated into, and why running them gives its meaning. */
module BranchTokens {
  import opened TargetC
  import opened DraftModel
  import opened ExprSource
  import opened Matchers
  import opened ExprTokens
  import opened ExprMeaning
  import opened Conditions

  // ---- what is written -----------------------------------------------------------------

  function VerdictToks(c: Cond): seq<Tok> {
    if c.level == NoVerdict then [KReturn, Semi, Newline]
    else [Scan(c.level, VariantOf(c)), Semi, Newline]
  }

  /** After the closing bracket of a test that has no branches inside it. */
  function LeafToks(c: Cond): seq<Tok> {
    if c.level == NoVerdict then [LBrace, Newline] + VerdictToks(c) + [RBrace, Newline]
    else [Newline] + VerdictToks(c)
  }

  /** The brackets keep a disjunction together among the conjuncts of a run. */
  function TermToks(m: Model, i: nat): seq<Tok>
    requires |m.grp| <= 32 && i < |m.cnd|
  {
    var t := TextToks(m, m.cnd[i].expr);
    if '|' in m.cnd[i].expr then [LPar] + t + [RPar] else t
  }

  function TermsToks(m: Model, u: Unit): seq<Tok>
    requires |m.grp| <= 32 && UnitIn(m.cnd, u, 0)
    decreases |u|
  {
    TermToks(m, u[0]) + if |u| == 1 then [] else [AndAnd] + TermsToks(m, u[1..])
  }

  function RunToks(m: Model, u: Unit): seq<Tok>
    requires |m.grp| <= 32 && UnitIn(m.cnd, u, 0)
  {
    [KIf, LPar] + TermsToks(m, u) + [RPar] + LeafToks(m.cnd[u[|u| - 1]])
  }

  /** A gate is an if with a block, a grouping a block alone. */
  function GateHead(m: Model, c: Cond): seq<Tok>
    requires |m.grp| <= 32
  {
    (if c.expr == "" then [] else [KIf, LPar] + TextToks(m, c.expr) + [RPar]) + [LBrace, Newline]
  }

  function GateTail(c: Cond): seq<Tok> {
    (if c.level == NoVerdict then [] else VerdictToks(c)) + [RBrace, Newline]
  }

  function CondToks(m: Model, i: nat): seq<Tok>
    requires |m.grp| <= 32 && Forest(m.cnd) && i < |m.cnd|
    decreases |m.cnd| - i, 0, 0
  {
    var c := m.cnd[i];
    if HasKids(m.cnd, i) then
      KidsAbove(m.cnd, i);
      GateHead(m, c) + UnitsToks(m, Heads(m.cnd, i, 0), i + 1) + GateTail(c)
    else [KIf, LPar] + TextToks(m, c.expr) + [RPar] + LeafToks(c)
  }

  function UnitToks(m: Model, h: nat): seq<Tok>
    requires |m.grp| <= 32 && Forest(m.cnd) && h < |m.cnd|
    decreases |m.cnd| - h, 1, 0
  {
    var u := Members(m.cnd, h);
    if |u| == 1 then CondToks(m, h) else RunToks(m, u)
  }

  function UnitsToks(m: Model, heads: seq<nat>, lo: nat): seq<Tok>
    requires |m.grp| <= 32 && Forest(m.cnd) && lo <= |m.cnd| && HeadsIn(m.cnd, heads, lo)
    decreases |m.cnd| - lo, 2, |heads|
  {
    if heads == [] then [] else UnitToks(m, heads[0]) + UnitsToks(m, heads[1..], lo)
  }

  // ---- a conjoined run as one expression ------------------------------------------------

  ghost predicate TextsOk(m: Model) {
    forall k :: 0 <= k < |m.cnd| ==> TextOk(m, m.cnd[k].expr)
  }

  /** The run's test in the panel's own grammar. */
  function TermSrc(text: string): seq<STok> {
    if '|' in text then [SLp] + Lex(text) + [SRp] else Lex(text)
  }

  function RunSrc(m: Model, u: Unit): seq<STok>
    requires UnitIn(m.cnd, u, 0)
    decreases |u|
  {
    TermSrc(m.cnd[u[0]].expr) + if |u| == 1 then [] else [SAnd] + RunSrc(m, u[1..])
  }

  lemma {:induction false} ExprToksAppend(m: Model, s: seq<STok>, t: seq<STok>)
    requires |m.grp| <= 32
    ensures ExprToks(m, s + t) == ExprToks(m, s) + ExprToks(m, t)
    decreases |s|
  {
    if s == [] {
      assert s + t == t;
    } else {
      assert (s + t)[1..] == s[1..] + t;
      ExprToksAppend(m, s[1..], t);
    }
  }

  lemma OneTok(m: Model, s: STok)
    requires |m.grp| <= 32
    ensures ExprToks(m, [s]) == ToksOf(m, s)
  {
    assert [s][1..] == [];
  }

  lemma TermSrcToks(m: Model, i: nat)
    requires |m.grp| <= 32 && i < |m.cnd| && m.cnd[i].expr != ""
    ensures ExprToks(m, TermSrc(m.cnd[i].expr)) == TermToks(m, i)
  {
    var s := Lex(m.cnd[i].expr);
    if '|' in m.cnd[i].expr {
      ExprToksAppend(m, [SLp] + s, [SRp]);
      ExprToksAppend(m, [SLp], s);
      OneTok(m, SLp);
      OneTok(m, SRp);
    }
  }

  lemma {:induction false} RunSrcToks(m: Model, u: Unit)
    requires |m.grp| <= 32 && UnitIn(m.cnd, u, 0)
    requires forall x :: 0 <= x < |u| ==> m.cnd[u[x]].expr != ""
    ensures ExprToks(m, RunSrc(m, u)) == TermsToks(m, u)
    decreases |u|
  {
    TermSrcToks(m, u[0]);
    if |u| == 1 {
      assert RunSrc(m, u) == TermSrc(m.cnd[u[0]].expr);
      assert TermsToks(m, u) == TermToks(m, u[0]);
    } else {
      RunSrcToks(m, u[1..]);
      ExprToksAppend(m, TermSrc(m.cnd[u[0]].expr), [SAnd] + RunSrc(m, u[1..]));
      ExprToksAppend(m, [SAnd], RunSrc(m, u[1..]));
      OneTok(m, SAnd);
    }
  }

  // ---- what follows a complete expression does not change how it reads -------------------

  predicate Stops(s: seq<STok>) { s == [] || s[0] == SRp }

  lemma {:induction false} AppUnary(s: seq<STok>, x: seq<STok>)
    requires SUnary(s).Some?
    ensures SUnary(s + x) == Some((SUnary(s).value.0, SUnary(s).value.1 + x))
    decreases |s|, 0
  {
    assert (s + x)[1..] == s[1..] + x;
    if s[0] == SLp {
      AppOr(s[1..], x);
      var r := SOr(s[1..]).value;
      assert (r.1 + x)[1..] == r.1[1..] + x;
    } else if s[0] == SBang {
      AppUnary(s[1..], x);
    }
  }

  lemma {:induction false} AppAndTail(a: Cnd, s: seq<STok>, x: seq<STok>)
    requires SAndTail(a, s).Some?
    requires SAndTail(a, s).value.1 != [] || x == [] || x[0] != SAnd
    ensures SAndTail(a, s + x) == Some((SAndTail(a, s).value.0, SAndTail(a, s).value.1 + x))
    decreases |s|, 1
  {
    if SFirst(s) == Some(SAnd) {
      assert (s + x)[1..] == s[1..] + x;
      AppUnary(s[1..], x);
      var r := SUnary(s[1..]).value;
      AppAndTail(CAnd(a, r.0), r.1, x);
    } else if s == [] {
      assert s + x == x;
    }
  }

  lemma {:induction false} AppConj(s: seq<STok>, x: seq<STok>)
    requires SConj(s).Some?
    requires SConj(s).value.1 != [] || x == [] || x[0] != SAnd
    ensures SConj(s + x) == Some((SConj(s).value.0, SConj(s).value.1 + x))
    decreases |s|, 2
  {
    AppUnary(s, x);
    var r := SUnary(s).value;
    AppAndTail(r.0, r.1, x);
  }

  lemma {:induction false} AppOrTail(a: Cnd, s: seq<STok>, x: seq<STok>)
    requires SOrTail(a, s).Some?
    requires SOrTail(a, s).value.1 != [] || Stops(x)
    ensures SOrTail(a, s + x) == Some((SOrTail(a, s).value.0, SOrTail(a, s).value.1 + x))
    decreases |s|, 3
  {
    if SFirst(s) == Some(SOrT) {
      assert (s + x)[1..] == s[1..] + x;
      AppConj(s[1..], x);
      var r := SConj(s[1..]).value;
      AppOrTail(COr(a, r.0), r.1, x);
    } else if s == [] {
      assert s + x == x;
    }
  }

  lemma {:induction false} AppOr(s: seq<STok>, x: seq<STok>)
    requires SOr(s).Some?
    requires SOr(s).value.1 != [] || Stops(x)
    ensures SOr(s + x) == Some((SOr(s).value.0, SOr(s).value.1 + x))
    decreases |s|, 4
  {
    AppConj(s, x);
    var r := SConj(s).value;
    AppOrTail(r.0, r.1, x);
  }

  // ---- a run's test is the conjunction of its members' ----------------------------------

  ghost predicate Both(c: Cnd, a: Cnd, b: Cnd) {
    && (forall lit :: Holds(c, lit) <==> Holds(a, lit) && Holds(b, lit))
    && (forall m :: NoWrap(m, c) <==> NoWrap(m, a) && NoWrap(m, b))
  }

  lemma {:induction false} TailThen(b0: Cnd, s: seq<STok>, b: Cnd, x: seq<STok>)
    requires SAndTail(b0, s) == Some((b, []))
    ensures SAndTail(b0, s + x) == SAndTail(b, x)
    decreases |s|
  {
    if s == [] {
      assert s + x == x;
    } else {
      assert (s + x)[1..] == s[1..] + x;
      AppUnary(s[1..], x);
      var r := SUnary(s[1..]).value;
      TailThen(CAnd(b0, r.0), r.1, b, x);
    }
  }

  /** The same list of factors read after `a`. */
  lemma {:induction false} Shift(a: Cnd, ab: Cnd, b0: Cnd, s: seq<STok>, b: Cnd, x: seq<STok>) returns (c: Cnd)
    requires SAndTail(b0, s) == Some((b, [])) && Both(ab, a, b0)
    ensures SAndTail(ab, s + x) == SAndTail(c, x) && Both(c, a, b)
    decreases |s|
  {
    if s == [] {
      assert s + x == x;
      c := ab;
    } else {
      assert (s + x)[1..] == s[1..] + x;
      AppUnary(s[1..], x);
      var r := SUnary(s[1..]).value;
      c := Shift(a, CAnd(ab, r.0), CAnd(b0, r.0), r.1, b, x);
    }
  }

  lemma {:induction false} NoBar(text: string)
    requires '|' !in text
    ensures SOrT !in Lex(text)
    decreases |text|
  {
    if text != "" {
      if text[0] == '!' {
        var q := SkipSpaces(text[1..]);
        SkipKeeps(text[1..]);
        assert '|' !in q;
        if q != [] && IsDigit(q[0]) { assert q == Digits(q) + AfterDigits(q); NoBar(AfterDigits(q)); }
        else if q != [] && q[0] == '(' { NoBar(q); }
        else { NoBar(text[1..]); }
      } else if IsDigit(text[0]) { NoBar(AfterDigits(text)); }
      else { NoBar(text[1..]); }
    }
  }

  lemma {:induction false} SkipKeeps(s: string)
    ensures forall x :: x in SkipSpaces(s) ==> x in s
    decreases |s|
  {
    if s != [] && s[0] == ' ' { SkipKeeps(s[1..]); }
  }

  lemma PlainConj(text: string)
    requires '|' !in text && Read(text).Some?
    ensures SConj(Lex(text)) == Some((Read(text).value, []))
  {
    NoBar(text);
    var r := SConj(Lex(text)).value;
    ConjRest(Lex(text));
    assert SOrTail(r.0, r.1) == Some(r);
  }

  lemma ConjRest(s: seq<STok>)
    requires SOrT !in s && SConj(s).Some?
    ensures SFirst(SConj(s).value.1) != Some(SOrT)
  {
    var rest := SConj(s).value.1;
    if rest != [] { assert rest[0] in rest; }
  }

  lemma BracketUnary(text: string, x: seq<STok>)
    requires Read(text).Some?
    ensures SUnary([SLp] + Lex(text) + [SRp] + x) == Some((Read(text).value, x))
  {
    var inner := Lex(text) + ([SRp] + x);
    assert [SLp] + Lex(text) + [SRp] + x == [SLp] + inner;
    assert ([SLp] + inner)[1..] == inner;
    AppOr(Lex(text), [SRp] + x);
    assert [] + ([SRp] + x) == [SRp] + x;
    assert ([SRp] + x)[1..] == x;
  }

  lemma FirstTerm(text: string, x: seq<STok>)
    requires Read(text).Some?
    ensures SConj(TermSrc(text) + x) == SAndTail(Read(text).value, x)
  {
    if '|' in text {
      BracketUnary(text, x);
    } else {
      PlainConj(text);
      var s := Lex(text);
      AppUnary(s, x);
      TailThen(SUnary(s).value.0, SUnary(s).value.1, Read(text).value, x);
    }
  }

  lemma NextTerm(a: Cnd, text: string, x: seq<STok>) returns (c: Cnd)
    requires Read(text).Some?
    ensures SAndTail(a, [SAnd] + (TermSrc(text) + x)) == SAndTail(c, x)
    ensures Both(c, a, Read(text).value)
  {
    var t := TermSrc(text) + x;
    assert ([SAnd] + t)[1..] == t;
    if '|' in text {
      BracketUnary(text, x);
      c := CAnd(a, Read(text).value);
    } else {
      PlainConj(text);
      var s := Lex(text);
      AppUnary(s, x);
      var r := SUnary(s).value;
      c := Shift(a, CAnd(a, r.0), r.0, r.1, Read(text).value, x);
    }
  }

  ghost predicate RunOk(m: Model, u: Unit) {
    && UnitIn(m.cnd, u, 0)
    && forall x :: 0 <= x < |u| ==> m.cnd[u[x]].expr != "" && TextOk(m, m.cnd[u[x]].expr)
  }

  lemma RunHoldsCons(m: Model, u: Unit, o: Obj)
    requires |m.grp| <= 32 && UnitIn(m.cnd, u, 0) && |u| > 1
    ensures RunHolds(m, u, o) <==> TextHolds(m, m.cnd[u[0]].expr, o) && RunHolds(m, u[1..], o)
  {
    var v := u[1..];
    if RunHolds(m, v, o) {
      assert forall x :: 1 <= x < |u| ==> u[x] == v[x - 1];
    }
  }

  lemma {:induction false} RunTail(m: Model, a: Cnd, u: Unit) returns (c: Cnd)
    requires |m.grp| <= 32 && RunOk(m, u) && NoWrap(m, a)
    ensures SAndTail(a, [SAnd] + RunSrc(m, u)) == Some((c, [])) && NoWrap(m, c)
    ensures forall o :: Holds(c, Lits(m, o)) <==> Holds(a, Lits(m, o)) && RunHolds(m, u, o)
    decreases |u|
  {
    var text := m.cnd[u[0]].expr;
    if |u| == 1 {
      assert RunSrc(m, u) == TermSrc(text) + [];
      c := NextTerm(a, text, []);
    } else {
      var c0 := NextTerm(a, text, [SAnd] + RunSrc(m, u[1..]));
      c := RunTail(m, c0, u[1..]);
      forall o
        ensures Holds(c, Lits(m, o)) <==> Holds(a, Lits(m, o)) && RunHolds(m, u, o)
      {
        RunHoldsCons(m, u, o);
        assert Holds(c0, Lits(m, o)) <==> Holds(a, Lits(m, o)) && TextHolds(m, text, o);
      }
    }
  }

  lemma RunReads(m: Model, u: Unit) returns (c: Cnd)
    requires |m.grp| <= 32 && RunOk(m, u) && |u| > 1
    ensures SOr(RunSrc(m, u)) == Some((c, [])) && NoWrap(m, c)
    ensures forall o :: Holds(c, Lits(m, o)) <==> RunHolds(m, u, o)
  {
    var text, rest := m.cnd[u[0]].expr, [SAnd] + RunSrc(m, u[1..]);
    FirstTerm(text, rest);
    c := RunTail(m, Read(text).value, u[1..]);
    assert SConj(RunSrc(m, u)) == Some((c, []));
    forall o
      ensures Holds(c, Lits(m, o)) <==> RunHolds(m, u, o)
    {
      RunHoldsCons(m, u, o);
    }
  }

  lemma TermBangOk(text: string)
    ensures BangOk(TermSrc(text))
  {
    hide Lex;
    LexBangOk(text);
    var s := Lex(text);
    var t := [SLp] + s + [SRp];
    forall i | 0 <= i < |t| && t[i] == SBang
      ensures i + 1 < |t| && t[i + 1] == SLp
    {
      assert s[i - 1] == SBang;
    }
  }

  lemma {:induction false} RunBangOk(m: Model, u: Unit)
    requires UnitIn(m.cnd, u, 0)
    ensures BangOk(RunSrc(m, u))
    decreases |u|
  {
    hide TermSrc;
    TermBangOk(m.cnd[u[0]].expr);
    if |u| > 1 { RunBangOk(m, u[1..]); }
  }

  function RunExpr(m: Model, u: Unit): Expr
    requires |m.grp| <= 32 && UnitIn(m.cnd, u, 0)
  {
    var r := SOr(RunSrc(m, u));
    if r.Some? then ToC(m, r.value.0) else ENum(0)
  }

  /** The one test of a conjoined run, under C's precedence ... */
  lemma RunTestReads(m: Model, u: Unit, k: seq<Tok>)
    requires |m.grp| <= 32 && RunOk(m, u) && |u| > 1 && End(k)
    ensures POr(TermsToks(m, u) + k) == Some((RunExpr(m, u), k))
  {
    var c := RunReads(m, u);
    RunBangOk(m, u);
    RunSrcToks(m, u);
    LockOr(m, RunSrc(m, u), k);
    assert ExprToks(m, []) + k == k;
  }

  /** ... is the conjunction of its members' tests, each as written. */
  lemma RunTestMeans(m: Model, u: Unit, o: Obj, vars: Vars)
    requires Bounded(m) && RunOk(m, u) && |u| > 1 && CountersSet(m, o, vars)
    ensures Eval(RunExpr(m, u), o, vars) != 0 <==> RunHolds(m, u, o)
  {
    var c := RunReads(m, u);
    ToCEval(m, c, o, vars);
  }
}
