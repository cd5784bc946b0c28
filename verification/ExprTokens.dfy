/** Writing a condition's expression out as C, and why the C means what was written. */
module ExprTokens {
  import opened TargetC
  import opened DraftModel
  import opened ExprSource
  import opened Matchers

  // ---- what is written -----------------------------------------------------------------

  function RuleWord(rule: nat): FindKind {
    if rule == 1 then FindAny else if rule == 2 then FindMulti else FindAll
  }

  function CallTok(m: Model, g: nat, forceMulti: bool): (t: Tok)
    requires g < |m.grp| <= 32
    ensures Leaf(t)
  {
    var q, strs := m.grp[g], Strs(m, g);
    if IsAt(q) then FindAt(q.place, if strs == [] then [] else [strs[0]])
    else Find(if forceMulti then FindMulti else RuleWord(q.rule), Mask(m, g), strs)
  }

  function ScoreTerms(u: seq<bv32>, pct: nat): seq<Tok> {
    if u == [] then []
    else [Score(u[0]), Ge, Num(pct)] + if |u| == 1 then [] else [AndAnd] + ScoreTerms(u[1..], pct)
  }

  function SimToks(m: Model, q: Group): seq<Tok> {
    var u := Usable(m, q.sim);
    var body := if u == [] then [Num(0)] else ScoreTerms(u, q.pct);
    if |q.sim| > 1 then [LPar] + body + [RPar] else body
  }

  function MatcherToks(m: Model, g: nat): seq<Tok>
    requires g < |m.grp| <= 32
  {
    var q := m.grp[g];
    if q.kind == Sim then SimToks(m, q)
    else if Shared(m, g) then [Var(Lead(m, g)), Ge, Num(Threshold(m, g))]
    else [CallTok(m, g, false)] + if q.rule == 2 then [Ge, Num(q.thresh)] else []
  }

  const ID_WRAP: nat := 0x1_0000_0000

  /** An id is read into 32 bits, and one no matcher has is written as 0. */
  function IdToks(m: Model, n: nat): seq<Tok>
    requires |m.grp| <= 32
  {
    var id := n % ID_WRAP;
    if 1 <= id <= |m.grp| then MatcherToks(m, id - 1) else [Num(0)]
  }

  function ToksOf(m: Model, s: STok): seq<Tok>
    requires |m.grp| <= 32
  {
    match s
    case SId(n, neg) => if neg then [Bang, LPar] + IdToks(m, n) + [RPar] else IdToks(m, n)
    case SBang => [Bang]
    case SAnd => [AndAnd]
    case SOrT => [OrOr]
    case SLp => [LPar]
    case SRp => [RPar]
  }

  function ExprToks(m: Model, s: seq<STok>): seq<Tok>
    requires |m.grp| <= 32
  {
    if s == [] then [] else ToksOf(m, s[0]) + ExprToks(m, s[1..])
  }

  /** What `emit_expr` writes for a condition's text. */
  function TextToks(m: Model, text: string): seq<Tok>
    requires |m.grp| <= 32
  {
    if text == "" then [Num(1)] else ExprToks(m, Lex(text))
  }

  // ---- the C expression each text should become ----------------------------------------

  function ScoreExpr(b: bv32, pct: nat): Expr { EGe(EScore(b), ENum(pct)) }

  function ScoreChain(acc: Expr, u: seq<bv32>, pct: nat): Expr
    decreases |u|
  {
    if u == [] then acc else ScoreChain(EAnd(acc, ScoreExpr(u[0], pct)), u[1..], pct)
  }

  function CallExpr(m: Model, g: nat): Expr
    requires g < |m.grp| <= 32
  {
    LeafExpr(CallTok(m, g, false))
  }

  function MatcherExpr(m: Model, g: nat): Expr
    requires g < |m.grp| <= 32
  {
    var q := m.grp[g];
    if q.kind == Sim then
      var u := Usable(m, q.sim);
      if u == [] then ENum(0) else ScoreChain(ScoreExpr(u[0], q.pct), u[1..], q.pct)
    else if Shared(m, g) then EGe(EVar(Lead(m, g)), ENum(Threshold(m, g)))
    else if q.rule == 2 then EGe(CallExpr(m, g), ENum(q.thresh)) else CallExpr(m, g)
  }

  function IdExpr(m: Model, n: nat): Expr
    requires |m.grp| <= 32
  {
    var id := n % ID_WRAP;
    if 1 <= id <= |m.grp| then MatcherExpr(m, id - 1) else ENum(0)
  }

  function ToC(m: Model, c: Cnd): Expr
    requires |m.grp| <= 32
  {
    match c
    case CId(n, neg) => if neg then ENot(IdExpr(m, n)) else IdExpr(m, n)
    case CNot(a) => ENot(ToC(m, a))
    case CAnd(a, b) => EAnd(ToC(m, a), ToC(m, b))
    case COr(a, b) => EOr(ToC(m, a), ToC(m, b))
  }

  // ---- reading one matcher back ---------------------------------------------------------

  predicate NotRel(t: seq<Tok>) { First(t) != Ge && First(t) != Gt }

  lemma {:induction false} ScoreTermsRead(acc: Expr, u: seq<bv32>, pct: nat, k: seq<Tok>)
    requires u != [] && NotRel(k) && First(k) != AndAnd
    ensures PAndTail(acc, [AndAnd] + (ScoreTerms(u, pct) + k)) == Some((ScoreChain(acc, u, pct), k))
    decreases |u|
  {
    var t := ScoreTerms(u, pct) + k;
    assert ([AndAnd] + t)[1..] == t;
    ScoreTermRead(u, pct, k);
    if |u| > 1 {
      assert [AndAnd] + ScoreTerms(u[1..], pct) + k == [AndAnd] + (ScoreTerms(u[1..], pct) + k);
      ScoreTermsRead(EAnd(acc, ScoreExpr(u[0], pct)), u[1..], pct, k);
    } else {
      assert [] + k == k;
    }
  }

  lemma ScoreTermRead(u: seq<bv32>, pct: nat, k: seq<Tok>)
    requires u != [] && NotRel(k)
    ensures PRel(ScoreTerms(u, pct) + k)
         == Some((ScoreExpr(u[0], pct), (if |u| == 1 then [] else [AndAnd] + ScoreTerms(u[1..], pct)) + k))
  {
    var rest := (if |u| == 1 then [] else [AndAnd] + ScoreTerms(u[1..], pct)) + k;
    GeRead(Score(u[0]), pct, rest);
    assert ScoreTerms(u, pct) + k == [Score(u[0]), Ge, Num(pct)] + rest;
  }

  lemma LeafRead(p: Tok, k: seq<Tok>)
    requires Leaf(p) && NotRel(k)
    ensures PRel([p] + k) == Some((LeafExpr(p), k))
  {
    assert ([p] + k)[1..] == k;
    assert PUnary([p] + k) == Some((LeafExpr(p), k));
  }

  /** One call or counter compared against a number. */
  lemma GeRead(p: Tok, n: nat, k: seq<Tok>)
    requires Leaf(p) && NotRel(k)
    ensures PRel([p, Ge, Num(n)] + k) == Some((EGe(LeafExpr(p), ENum(n)), k))
  {
    var t, t1, t2 := [p, Ge, Num(n)] + k, [Ge, Num(n)] + k, [Num(n)] + k;
    assert t[1..] == t1 && t1[1..] == t2 && t2[1..] == k;
    assert PUnary(t) == Some((LeafExpr(p), t1));
    assert PUnary(t2) == Some((ENum(n), k));
    assert PRelTail(EGe(LeafExpr(p), ENum(n)), k) == Some((EGe(LeafExpr(p), ENum(n)), k));
  }

  lemma RelIsOr(t: seq<Tok>, e: Expr, k: seq<Tok>)
    requires PRel(t) == Some((e, k)) && First(k) != AndAnd && First(k) != OrOr
    ensures POr(t) == Some((e, k))
  {
    assert PAnd(t) == Some((e, k));
  }

  /** The conjunction of scores, with no bracket round it. */
  lemma ScoresRead(u: seq<bv32>, pct: nat, k: seq<Tok>)
    requires u != [] && NotRel(k) && First(k) != AndAnd && First(k) != OrOr
    ensures POr(ScoreTerms(u, pct) + k) == Some((ScoreChain(ScoreExpr(u[0], pct), u[1..], pct), k))
  {
    hide PRel, PRelTail, PUnary;
    ScoreTermRead(u, pct, k);
    if |u| > 1 {
      assert [AndAnd] + ScoreTerms(u[1..], pct) + k == [AndAnd] + (ScoreTerms(u[1..], pct) + k);
      ScoreTermsRead(ScoreExpr(u[0], pct), u[1..], pct, k);
      assert PAnd(ScoreTerms(u, pct) + k) == Some((ScoreChain(ScoreExpr(u[0], pct), u[1..], pct), k));
    } else {
      assert [] + k == k;
      RelIsOr(ScoreTerms(u, pct) + k, ScoreExpr(u[0], pct), k);
    }
  }

  lemma BracketRead(t: seq<Tok>, e: Expr, k: seq<Tok>)
    requires POr(t + ([RPar] + k)) == Some((e, [RPar] + k))
    ensures PUnary([LPar] + t + [RPar] + k) == Some((e, k))
  {
    var inner := t + ([RPar] + k);
    assert [LPar] + t + [RPar] + k == [LPar] + inner;
    assert ([LPar] + inner)[1..] == inner;
    assert ([RPar] + k)[1..] == k;
  }

  lemma SimRead(m: Model, q: Group, k: seq<Tok>)
    requires NotRel(k)
    ensures var u := Usable(m, q.sim);
      PRel(SimToks(m, q) + k)
      == Some((if u == [] then ENum(0) else ScoreChain(ScoreExpr(u[0], q.pct), u[1..], q.pct), k))
  {
    var u := Usable(m, q.sim);
    var close := [RPar] + k;
    if |q.sim| > 1 {
      if u == [] {
        LeafRead(Num(0), close);
        RelIsOr([Num(0)] + close, ENum(0), close);
        BracketRead([Num(0)], ENum(0), k);
      } else {
        ScoresRead(u, q.pct, close);
        BracketRead(ScoreTerms(u, q.pct), ScoreChain(ScoreExpr(u[0], q.pct), u[1..], q.pct), k);
      }
    } else {
      UsableBound(m, q.sim);
      if u == [] { LeafRead(Num(0), k); } else { ScoreTermRead(u, q.pct, k); assert [] + k == k; }
    }
  }

  lemma UsableBound(m: Model, items: seq<SimItem>)
    ensures |Usable(m, items)| <= |items|
  {
  }

  lemma MatcherRead(m: Model, g: nat, k: seq<Tok>)
    requires g < |m.grp| <= 32 && NotRel(k)
    ensures PRel(MatcherToks(m, g) + k) == Some((MatcherExpr(m, g), k))
  {
    var q := m.grp[g];
    if q.kind == Sim {
      SimRead(m, q, k);
    } else if Shared(m, g) {
      GeRead(Var(Lead(m, g)), Threshold(m, g), k);
    } else {
      var c := CallTok(m, g, false);
      if q.rule == 2 {
        GeRead(c, q.thresh, k);
        assert MatcherToks(m, g) == [c, Ge, Num(q.thresh)];
      } else {
        LeafRead(c, k);
        assert MatcherToks(m, g) == [c];
      }
    }
  }

  lemma IdRead(m: Model, n: nat, k: seq<Tok>)
    requires |m.grp| <= 32 && NotRel(k)
    ensures PRel(IdToks(m, n) + k) == Some((IdExpr(m, n), k))
  {
    var id := n % ID_WRAP;
    if 1 <= id <= |m.grp| { MatcherRead(m, id - 1, k); } else { LeafRead(Num(0), k); }
  }
}
