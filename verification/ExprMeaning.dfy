/** Emitted conditions mean what was written, under C's own precedence. */
module ExprMeaning {
  import opened TargetC
  import opened DraftModel
  import opened ExprSource
  import opened Matchers
  import opened ExprTokens

  /** Every "!" kept as a token of its own stands before a bracket. */
  predicate BangOk(s: seq<STok>) {
    forall i :: 0 <= i < |s| && s[i] == SBang ==> i + 1 < |s| && s[i + 1] == SLp
  }

  lemma {:induction false} LexBangOk(s: string)
    ensures BangOk(Lex(s))
    ensures s != [] && s[0] == '(' ==> Lex(s) != [] && Lex(s)[0] == SLp
    decreases |s|
  {
    if s != [] {
      if s[0] == '!' {
        var q := SkipSpaces(s[1..]);
        if q != [] && IsDigit(q[0]) { LexBangOk(AfterDigits(q)); }
        else if q != [] && q[0] == '(' { LexBangOk(q); }
        else { LexBangOk(s[1..]); }
      } else if IsDigit(s[0]) { LexBangOk(AfterDigits(s)); }
      else { LexBangOk(s[1..]); }
    }
  }

  // ---- the two parsers run in lockstep --------------------------------------------------

  /** What may follow an emitted expression: nothing, or the bracket that closes its test. */
  predicate End(k: seq<Tok>) { k == [] || k[0] == RPar }

  /** The C parser reads what the panel's grammar reads, leaves what it leaves, and - with
      nothing after it - fails where it fails. */
  predicate Agrees(m: Model, sp: SParsed, cp: Parsed<Expr>, k: seq<Tok>)
    requires |m.grp| <= 32
  {
    && (sp.Some? ==>
          && BangOk(sp.value.1)
          && cp == Some((ToC(m, sp.value.0), ExprToks(m, sp.value.1) + k)))
    && (k == [] && sp.None? ==> cp.None?)
  }

  lemma FirstTok(m: Model, s: seq<STok>, k: seq<Tok>)
    requires |m.grp| <= 32 && End(k)
    ensures NotRel(ExprToks(m, s) + k)
    ensures First(ExprToks(m, s) + k) == AndAnd <==> SFirst(s) == Some(SAnd)
    ensures First(ExprToks(m, s) + k) == OrOr <==> SFirst(s) == Some(SOrT)
    ensures SFirst(s) == Some(SRp) ==> First(ExprToks(m, s) + k) == RPar
    ensures k == [] && First(ExprToks(m, s) + k) == RPar ==> SFirst(s) == Some(SRp)
  {
    hide IdToks, ToksOf;
    if s != [] {
      var t := ToksOf(m, s[0]);
      FirstOfTok(m, s[0]);
      assert ExprToks(m, s) + k == t + (ExprToks(m, s[1..]) + k);
      assert First(ExprToks(m, s) + k) == t[0];
    }
  }

  lemma FirstOfTok(m: Model, x: STok)
    requires |m.grp| <= 32
    ensures var t := ToksOf(m, x);
      && t != [] && t[0] != Ge && t[0] != Gt
      && (t[0] == AndAnd <==> x == SAnd) && (t[0] == OrOr <==> x == SOrT) && (t[0] == RPar <==> x == SRp)
  {
    hide IdToks;
    if x.SId? { IdFirst(m, x.n); }
  }

  lemma IdFirst(m: Model, n: nat)
    requires |m.grp| <= 32
    ensures var t := IdToks(m, n); t != [] && (Leaf(t[0]) || t[0] == LPar)
  {
  }

  lemma Split(m: Model, s: seq<STok>, k: seq<Tok>)
    requires |m.grp| <= 32 && s != []
    ensures ExprToks(m, s) + k == ToksOf(m, s[0]) + (ExprToks(m, s[1..]) + k)
  {
  }

  lemma SplitOne(m: Model, s: seq<STok>, k: seq<Tok>)
    requires |m.grp| <= 32 && s != [] && !s[0].SId?
    ensures (ExprToks(m, s) + k)[1..] == ExprToks(m, s[1..]) + k
    ensures First(ExprToks(m, s) + k) == ToksOf(m, s[0])[0]
  {
    var rest := ExprToks(m, s[1..]) + k;
    Split(m, s, k);
    assert |ToksOf(m, s[0])| == 1;
    assert (ToksOf(m, s[0]) + rest)[1..] == rest;
  }

  lemma {:induction false} LockBracket(m: Model, s: seq<STok>, k: seq<Tok>)
    requires |m.grp| <= 32 && End(k) && BangOk(s)
    requires s != [] && (s[0] == SLp || s[0] == SBang)
    ensures Agrees(m, SUnary(s), PUnary(ExprToks(m, s) + k), k)
    decreases |s|, 0
  {
    hide POr, SOr, IdToks, IdExpr;
    SplitOne(m, s, k);
    if s[0] == SLp {
      LockOr(m, s[1..], k);
      var r := SOr(s[1..]);
      if r.Some? { LockClose(m, r.value.1, k); }
    } else {
      assert s[1] == SLp;
      LockBracket(m, s[1..], k);
    }
  }

  /** Both grammars see the closing bracket, or neither does. */
  lemma LockClose(m: Model, s: seq<STok>, k: seq<Tok>)
    requires |m.grp| <= 32 && End(k) && BangOk(s)
    ensures SFirst(s) == Some(SRp) ==>
      && BangOk(s[1..])
      && First(ExprToks(m, s) + k) == RPar && (ExprToks(m, s) + k)[1..] == ExprToks(m, s[1..]) + k
    ensures k == [] && SFirst(s) != Some(SRp) ==> First(ExprToks(m, s) + k) != RPar
  {
    FirstTok(m, s, k);
    if SFirst(s) == Some(SRp) { SplitOne(m, s, k); }
  }

  lemma RelOfUnary(t: seq<Tok>)
    ensures PUnary(t).None? ==> PRel(t).None?
    ensures PUnary(t).Some? && NotRel(PUnary(t).value.1) ==> PRel(t) == PUnary(t)
  {
  }

  lemma {:induction false} LockUnary(m: Model, s: seq<STok>, k: seq<Tok>)
    requires |m.grp| <= 32 && End(k) && BangOk(s)
    ensures Agrees(m, SUnary(s), PRel(ExprToks(m, s) + k), k)
    decreases |s|, 1
  {
    hide PRel, POr, IdToks, IdExpr;
    var t := ExprToks(m, s) + k;
    RelOfUnary(t);
    if s == [] {
      assert t == k;
    } else if s[0] == SLp || s[0] == SBang {
      LockBracket(m, s, k);
      if SUnary(s).Some? { FirstTok(m, SUnary(s).value.1, k); }
    } else if s[0].SId? {
      LockId(m, s, k);
    } else {
      SplitOne(m, s, k);
      assert First(t) == AndAnd || First(t) == OrOr || First(t) == RPar;
    }
  }

  lemma LockId(m: Model, s: seq<STok>, k: seq<Tok>)
    requires |m.grp| <= 32 && End(k) && BangOk(s) && s != [] && s[0].SId?
    ensures Agrees(m, SUnary(s), PRel(ExprToks(m, s) + k), k)
  {
    hide PRel, IdToks, IdExpr;
    Split(m, s, k);
    FirstTok(m, s[1..], k);
    var rest := ExprToks(m, s[1..]) + k;
    if s[0].neg { NegatedRead(m, s[0].n, rest); } else { IdRead(m, s[0].n, rest); }
  }

  /** The brackets are the point: "!m1 >= 3" would read "(!m1) >= 3". */
  lemma NegatedRead(m: Model, n: nat, k: seq<Tok>)
    requires |m.grp| <= 32 && NotRel(k)
    ensures PRel([Bang, LPar] + IdToks(m, n) + [RPar] + k) == Some((ENot(IdExpr(m, n)), k))
  {
    hide IdToks, IdExpr, PRel, PUnary, POr;
    var close := [RPar] + k;
    IdRead(m, n, close);
    RelIsOr(IdToks(m, n) + close, IdExpr(m, n), close);
    BracketRead(IdToks(m, n), IdExpr(m, n), k);
    var t := [LPar] + IdToks(m, n) + [RPar] + k;
    assert [Bang, LPar] + IdToks(m, n) + [RPar] + k == [Bang] + t;
    BangRead(t, IdExpr(m, n), k);
  }

  lemma BangRead(t: seq<Tok>, e: Expr, k: seq<Tok>)
    requires PUnary(t) == Some((e, k)) && NotRel(k)
    ensures PRel([Bang] + t) == Some((ENot(e), k))
  {
    assert ([Bang] + t)[1..] == t;
    RelOfUnary([Bang] + t);
  }

  lemma {:induction false} LockAndTail(m: Model, a: Cnd, s: seq<STok>, k: seq<Tok>)
    requires |m.grp| <= 32 && End(k) && BangOk(s)
    ensures Agrees(m, SAndTail(a, s), PAndTail(ToC(m, a), ExprToks(m, s) + k), k)
    decreases |s|, 2
  {
    FirstTok(m, s, k);
    if SFirst(s) == Some(SAnd) {
      SplitOne(m, s, k);
      LockUnary(m, s[1..], k);
      var r := SUnary(s[1..]);
      if r.Some? { LockAndTail(m, CAnd(a, r.value.0), r.value.1, k); }
    }
  }

  lemma {:induction false} LockConj(m: Model, s: seq<STok>, k: seq<Tok>)
    requires |m.grp| <= 32 && End(k) && BangOk(s)
    ensures Agrees(m, SConj(s), PAnd(ExprToks(m, s) + k), k)
    decreases |s|, 3
  {
    LockUnary(m, s, k);
    var r := SUnary(s);
    if r.Some? { LockAndTail(m, r.value.0, r.value.1, k); }
  }

  lemma {:induction false} LockOrTail(m: Model, a: Cnd, s: seq<STok>, k: seq<Tok>)
    requires |m.grp| <= 32 && End(k) && BangOk(s)
    ensures Agrees(m, SOrTail(a, s), POrTail(ToC(m, a), ExprToks(m, s) + k), k)
    decreases |s|, 4
  {
    FirstTok(m, s, k);
    if SFirst(s) == Some(SOrT) {
      SplitOne(m, s, k);
      LockConj(m, s[1..], k);
      var r := SConj(s[1..]);
      if r.Some? { LockOrTail(m, COr(a, r.value.0), r.value.1, k); }
    }
  }

  lemma {:induction false} LockOr(m: Model, s: seq<STok>, k: seq<Tok>)
    requires |m.grp| <= 32 && End(k) && BangOk(s)
    ensures Agrees(m, SOr(s), POr(ExprToks(m, s) + k), k)
    decreases |s|, 5
  {
    LockConj(m, s, k);
    var r := SConj(s);
    if r.Some? { LockOrTail(m, r.value.0, r.value.1, k); }
  }

  // ---- what it evaluates to -------------------------------------------------------------

  /** Matcher number n (counted from 1) as the panel reads it. */
  ghost predicate IdHolds(m: Model, n: nat, o: Obj)
    requires |m.grp| <= 32
  {
    1 <= n <= |m.grp| && MatcherHolds(m, n - 1, o)
  }

  ghost function Lits(m: Model, o: Obj): nat -> bool
    requires |m.grp| <= 32
  {
    (n: nat) => IdHolds(m, n, o)
  }

  /** The truth of a condition's text on an object. */
  ghost predicate TextHolds(m: Model, text: string, o: Obj)
    requires |m.grp| <= 32
  {
    text == "" || (Read(text).Some? && Holds(Read(text).value, Lits(m, o)))
  }

  /** No id of the expression is mistaken for another once it is read into 32 bits. */
  predicate NoWrap(m: Model, c: Cnd) {
    match c
    case CId(n, _) => n < ID_WRAP || !(1 <= n % ID_WRAP <= |m.grp|)
    case CNot(a) => NoWrap(m, a)
    case CAnd(a, b) => NoWrap(m, a) && NoWrap(m, b)
    case COr(a, b) => NoWrap(m, a) && NoWrap(m, b)
  }

  lemma {:induction false} ScoreChainHolds(acc: Expr, u: seq<bv32>, pct: nat, o: Obj, vars: Vars)
    ensures Eval(ScoreChain(acc, u, pct), o, vars) != 0
       <==> Eval(acc, o, vars) != 0 && forall b :: b in u ==> o.score(b) >= pct
    decreases |u|
  {
    if u != [] {
      var next := EAnd(acc, ScoreExpr(u[0], pct));
      ScoreChainHolds(next, u[1..], pct, o, vars);
      assert Eval(ScoreExpr(u[0], pct), o, vars) == B(o.score(u[0]) >= pct);
      assert Eval(next, o, vars) != 0 <==> Eval(acc, o, vars) != 0 && o.score(u[0]) >= pct;
      assert forall b :: b in u <==> b == u[0] || b in u[1..];
    }
  }

  lemma CallEval(m: Model, g: nat, o: Obj, vars: Vars)
    requires g < |m.grp| <= 32 && m.grp[g].kind == Str
    ensures m.grp[g].rule != 2 ==> (Eval(CallExpr(m, g), o, vars) != 0 <==> MatcherHolds(m, g, o))
    ensures m.grp[g].rule == 2 ==> (Eval(CallExpr(m, g), o, vars) >= m.grp[g].thresh <==> MatcherHolds(m, g, o))
  {
  }

  lemma SimEval(m: Model, g: nat, o: Obj, vars: Vars)
    requires g < |m.grp| <= 32 && m.grp[g].kind == Sim
    ensures Eval(MatcherExpr(m, g), o, vars) != 0 <==> MatcherHolds(m, g, o)
  {
    var q := m.grp[g];
    var u := Usable(m, q.sim);
    if u != [] {
      ScoreChainHolds(ScoreExpr(u[0], q.pct), u[1..], q.pct, o, vars);
      assert Eval(ScoreExpr(u[0], q.pct), o, vars) == B(o.score(u[0]) >= q.pct);
      assert forall b :: b in u <==> b == u[0] || b in u[1..];
    }
  }

  lemma MatcherEval(m: Model, g: nat, o: Obj, vars: Vars)
    requires Bounded(m) && g < |m.grp| && CountersSet(m, o, vars)
    ensures Eval(MatcherExpr(m, g), o, vars) != 0 <==> MatcherHolds(m, g, o)
  {
    var q := m.grp[g];
    if q.kind == Sim {
      SimEval(m, g, o, vars);
    } else if Shared(m, g) {
      SharingSound(m, g, o, vars);
      var c := EVar(Lead(m, g));
      assert Eval(EGe(c, ENum(Threshold(m, g))), o, vars) == B(vars[Lead(m, g)] >= Threshold(m, g));
    } else {
      CallEval(m, g, o, vars);
      var c := CallExpr(m, g);
      assert Eval(EGe(c, ENum(q.thresh)), o, vars) == B(Eval(c, o, vars) >= q.thresh);
    }
  }

  lemma {:induction false} ToCEval(m: Model, c: Cnd, o: Obj, vars: Vars)
    requires Bounded(m) && CountersSet(m, o, vars) && NoWrap(m, c)
    ensures Eval(ToC(m, c), o, vars) != 0 <==> Holds(c, Lits(m, o))
    decreases c
  {
    hide IdExpr, IdHolds, CountersSet;
    match c
    case CId(n, neg) => IdEval(m, n, o, vars);
    case CNot(a) => ToCEval(m, a, o, vars);
    case CAnd(a, b) => ToCEval(m, a, o, vars); ToCEval(m, b, o, vars);
    case COr(a, b) => ToCEval(m, a, o, vars); ToCEval(m, b, o, vars);
  }

  lemma IdEval(m: Model, n: nat, o: Obj, vars: Vars)
    requires Bounded(m) && CountersSet(m, o, vars)
    requires n < ID_WRAP || !(1 <= n % ID_WRAP <= |m.grp|)
    ensures Eval(IdExpr(m, n), o, vars) != 0 <==> IdHolds(m, n, o)
  {
    hide MatcherExpr, MatcherHolds, CountersSet;
    var id := n % ID_WRAP;
    if 1 <= id <= |m.grp| { MatcherEval(m, id - 1, o, vars); }
  }

  /** The C expression a text becomes. */
  function TextExpr(m: Model, text: string): Expr
    requires |m.grp| <= 32
  {
    if text == "" then ENum(1) else if Read(text).Some? then ToC(m, Read(text).value) else ENum(0)
  }

  /** A text the panel's grammar reads and whose ids are read into 32 bits unchanged. */
  predicate TextOk(m: Model, text: string) {
    text == "" || (Read(text).Some? && NoWrap(m, Read(text).value))
  }

  /** Every text the panel's grammar reads is written as C that reads back, up to the bracket
      closing its test, ... */
  lemma EmittedReads(m: Model, text: string, k: seq<Tok>)
    requires |m.grp| <= 32 && End(k)
    requires text == "" || Read(text).Some?
    ensures POr(TextToks(m, text) + k) == Some((TextExpr(m, text), k))
  {
    if text == "" {
      LeafRead(Num(1), k);
      RelIsOr([Num(1)] + k, ENum(1), k);
    } else {
      LexBangOk(text);
      LockOr(m, Lex(text), k);
      assert ExprToks(m, []) + k == k;
    }
  }

  /** ... as an expression with the same truth on every object. */
  lemma EmittedMeansWritten(m: Model, text: string, o: Obj, vars: Vars)
    requires Bounded(m) && TextOk(m, text) && CountersSet(m, o, vars)
    ensures Eval(TextExpr(m, text), o, vars) != 0 <==> TextHolds(m, text, o)
  {
    if text != "" { ToCEval(m, Read(text).value, o, vars); }
  }

  /** And nothing else compiles: the C is an expression exactly when the text is one. */
  lemma CompilesIffReads(m: Model, text: string)
    requires |m.grp| <= 32 && text != ""
    ensures (exists e :: POr(TextToks(m, text)) == Some((e, []))) <==> Read(text).Some?
  {
    LexBangOk(text);
    LockOr(m, Lex(text), []);
    assert ExprToks(m, Lex(text)) + [] == ExprToks(m, Lex(text));
    var r := SOr(Lex(text));
    if r.Some? {
      assert ExprToks(m, r.value.1) + [] == ExprToks(m, r.value.1);
      if r.value.1 != [] {
        if r.value.1[0].SId? { IdFirst(m, r.value.1[0].n); }
        assert ExprToks(m, r.value.1) != [];
      }
    }
  }
}
