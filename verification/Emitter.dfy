/** The emission loops of the editor, each appending to the file exactly what the specification
    functions say it writes. */
module Emitter {
  import opened TargetC
  import opened DraftModel
  import opened ExprSource
  import opened Matchers
  import opened ExprTokens
  import opened ExprMeaning
  import opened Conditions
  import opened BranchTokens
  import opened Order
  import opened Visits
  import opened Generate
  import opened Queries

  lemma StrsStep(m: Model, g: nat, i: nat, seen: seq<nat>)
    requires g < 32 && i < |m.decl|
    ensures seen + StrsFrom(m, g, i) == seen + (if InGrp(m.decl[i], g) then [i] else []) + StrsFrom(m, g, i + 1)
  {
    hide InGrp;
  }

  lemma StrsEnd(m: Model, g: nat)
    requires g < 32
    ensures StrsFrom(m, g, |m.decl|) == []
  {
  }

  /** Matcher g's markers, in order. */
  method GrpStrs(e: Draft, g: nat) returns (strs: seq<nat>)
    requires e.Valid() && g < 32
    ensures strs == Strs(e.Snap(), g)
  {
    hide InGrp, StrsFrom;
    ghost var m := e.Snap();
    strs := [];
    for i := 0 to |e.decl|
      invariant strs + StrsFrom(m, g, i) == StrsFrom(m, g, 0)
    {
      StrsStep(m, g, i, strs);
      if InGrp(e.decl[i], g) { strs := strs + [i]; }
    }
    StrsEnd(m, g);
  }

  /** The first of them, when there is one. */
  method GrpFirst(e: Draft, g: nat) returns (strs: seq<nat>)
    requires e.Valid() && g < 32
    ensures strs == if Strs(e.Snap(), g) == [] then [] else [Strs(e.Snap(), g)[0]]
  {
    ghost var m := e.Snap();
    for i := 0 to |e.decl|
      invariant StrsFrom(m, g, i) == Strs(m, g)
    {
      if InGrp(e.decl[i], g) { return [i]; }
    }
    return [];
  }

  method EmitCallAs(f: Sink, e: Draft, g: nat, forceMulti: bool)
    requires e.Valid() && g < |e.grp| <= 32
    modifies f
    ensures f.toks == old(f.toks) + [CallTok(e.Snap(), g, forceMulti)]
  {
    hide InGrp, StrsFrom;
    if IsAt(e.grp[g]) {
      var one := GrpFirst(e, g);
      f.Put([FindAt(e.grp[g].place, one)]);
      return;
    }
    var strs := GrpStrs(e, g);
    var range := GrpMask(e, g);
    f.Put([Find(if forceMulti then FindMulti else RuleWord(e.grp[g].rule), range, strs)]);
  }

  lemma {:induction false} ScoreTermsSnoc(u: seq<bv32>, b: bv32, pct: nat)
    ensures ScoreTerms(u + [b], pct)
         == ScoreTerms(u, pct) + (if u == [] then [] else [AndAnd]) + [Score(b), Ge, Num(pct)]
    decreases |u|
  {
    if u != [] {
      assert (u + [b])[1..] == u[1..] + [b];
      ScoreTermsSnoc(u[1..], b, pct);
      if |u| == 1 { assert ScoreTerms(u[1..], pct) == []; }
    } else {
      assert u + [b] == [b];
    }
  }

  function ItemIds(m: Model, it: SimItem): seq<bv32> {
    if it.what == SIM_IT_BLOCK && it.blk < |m.blk| then [m.blk[it.blk].id] else []
  }

  lemma {:induction false} UsableSnoc(m: Model, items: seq<SimItem>, i: nat)
    requires i < |items|
    ensures Usable(m, items[..i + 1]) == Usable(m, items[..i]) + ItemIds(m, items[i])
    decreases i
  {
    if i == 0 {
      assert items[..1][1..] == [];
    } else {
      assert items[..i + 1][1..] == items[1..][..i] && items[..i][1..] == items[1..][..i - 1];
      UsableSnoc(m, items[1..], i - 1);
    }
  }

  method EmitSim(f: Sink, e: Draft, g: nat)
    requires e.Valid() && g < |e.grp|
    modifies f
    ensures f.toks == old(f.toks) + SimToks(e.Snap(), e.grp[g])
  {
    hide Usable, ScoreTerms;
    ghost var m := e.Snap();
    var q := e.grp[g];
    if q.sim == [] {
      assert Usable(m, q.sim) == [] by { UsableNone(m); }
      f.Put([Num(0)]);
      return;
    }
    var wrote := 0;
    if |q.sim| > 1 { f.Put([LPar]); }
    ghost var base := f.toks;
    assert q.sim[..0] == [];
    UsableNone(m);
    ScoreNone(q.pct);
    for i := 0 to |q.sim|
      invariant f.toks == base + ScoreTerms(Usable(m, q.sim[..i]), q.pct)
      invariant wrote == |Usable(m, q.sim[..i])|
    {
      var it := q.sim[i];
      UsableSnoc(m, q.sim, i);
      assert ItemIds(m, it) == [] ==> Usable(m, q.sim[..i + 1]) == Usable(m, q.sim[..i]);
      if it.what == SIM_IT_BLOCK && it.blk >= |e.blk| { continue; }
      if it.what != SIM_IT_BLOCK { continue; }
      ScoreTermsSnoc(Usable(m, q.sim[..i]), e.blk[it.blk].id, q.pct);
      if wrote != 0 { f.Put([AndAnd]); }
      f.Put([Score(e.blk[it.blk].id), Ge, Num(q.pct)]);
      wrote := wrote + 1;
    }
    assert q.sim[..|q.sim|] == q.sim;
    if wrote == 0 {
      assert f.toks == base;
      f.Put([Num(0)]);
    }
    if |q.sim| > 1 { f.Put([RPar]); }
  }

  lemma UsableNone(m: Model)
    ensures Usable(m, []) == []
  {
  }

  lemma ScoreNone(pct: nat)
    ensures ScoreTerms([], pct) == []
  {
  }

  method EmitMatcher(f: Sink, e: Draft, g: nat)
    requires e.Valid() && g < |e.grp| <= 32
    modifies f
    ensures f.toks == old(f.toks) + MatcherToks(e.Snap(), g)
  {
    if e.grp[g].kind == Sim {
      EmitSim(f, e, g);
      return;
    }
    var shared := GrpShared(e, g);
    if shared {
      var lead := GrpLead(e, g);
      var n := GrpThreshEff(e, g);
      f.Put([Var(lead), Ge, Num(n)]);
      return;
    }
    EmitCallAs(f, e, g, false);
    if e.grp[g].rule == 2 { f.Put([Ge, Num(e.grp[g].thresh)]); }
  }

  // ---- expressions ------------------------------------------------------------------------

  lemma DecimalSnoc(ds: string, c: char)
    requires (forall i :: 0 <= i < |ds| ==> IsDigit(ds[i])) && IsDigit(c)
    ensures forall i :: 0 <= i < |ds + [c]| ==> IsDigit((ds + [c])[i])
    ensures Decimal(ds + [c]) == Decimal(ds) * 10 + (c as int - '0' as int)
  {
    assert (ds + [c])[..|ds|] == ds;
  }

  lemma WrapStep(id: nat, n: nat, d: nat)
    requires id == n % ID_WRAP
    ensures (id * 10 + d) % ID_WRAP == (n * 10 + d) % ID_WRAP
  {
    var q := n / ID_WRAP;
    assert n == q * ID_WRAP + id;
    assert n * 10 + d == (id * 10 + d) + (q * 10) * ID_WRAP;
    ModAdd(id * 10 + d, q * 10);
  }

  lemma {:induction false} ModAdd(x: nat, k: nat)
    ensures (x + k * ID_WRAP) % ID_WRAP == x % ID_WRAP
    decreases k
  {
    if k > 0 { ModAdd(x, k - 1); }
  }

  lemma DigitsTail(s: string, p: nat)
    requires p < |s| && IsDigit(s[p])
    ensures Digits(s[p..]) == [s[p]] + Digits(s[p + 1..])
  {
    assert s[p..][1..] == s[p + 1..];
  }

  lemma ReadStep(text: string, p: nat, q: nat, id: nat)
    requires p <= q < |text| && IsDigit(text[q]) && forall i :: p <= i < q ==> IsDigit(text[i])
    requires Digits(text[p..]) == text[p..q] + Digits(text[q..])
    requires id == Decimal(text[p..q]) % ID_WRAP
    ensures forall i :: p <= i < q + 1 ==> IsDigit(text[i])
    ensures Digits(text[p..]) == text[p..q + 1] + Digits(text[q + 1..])
    ensures (id * 10 + (text[q] as int - '0' as int)) % ID_WRAP == Decimal(text[p..q + 1]) % ID_WRAP
  {
    hide Decimal, Digits;
    DigitsTail(text, q);
    assert text[p..q + 1] == text[p..q] + [text[q]];
    DecimalSnoc(text[p..q], text[q]);
    WrapStep(id, Decimal(text[p..q]), text[q] as int - '0' as int);
  }

  lemma ReadStarts(text: string, p: nat)
    requires p <= |text|
    ensures Decimal(text[p..p]) % ID_WRAP == 0
    ensures Digits(text[p..]) == text[p..p] + Digits(text[p..])
  {
    assert text[p..p] == "";
  }

  lemma ReadEnds(text: string, p: nat, q: nat)
    requires p <= q <= |text| && (q == |text| || !IsDigit(text[q]))
    requires Digits(text[p..]) == text[p..q] + Digits(text[q..])
    ensures Digits(text[p..]) == text[p..q] && AfterDigits(text[p..]) == text[q..]
  {
    assert Digits(text[q..]) == [];
  }

  /** The number at p, read into 32 bits, and where it ends. */
  method ReadId(text: string, p: nat) returns (id: nat, q: nat)
    requires p < |text| && IsDigit(text[p])
    ensures id == Decimal(Digits(text[p..])) % ID_WRAP
    ensures p < q <= |text| && text[q..] == AfterDigits(text[p..])
  {
    hide Digits, AfterDigits, Decimal;
    id, q := 0, p;
    ReadStarts(text, p);
    while q < |text| && IsDigit(text[q])
      invariant p <= q <= |text| && (q == p ==> IsDigit(text[p]))
      invariant forall i :: p <= i < q ==> IsDigit(text[i])
      invariant Digits(text[p..]) == text[p..q] + Digits(text[q..])
      invariant id == Decimal(text[p..q]) % ID_WRAP
      decreases |text| - q
    {
      ReadStep(text, p, q, id);
      id := (id * 10 + (text[q] as int - '0' as int)) % ID_WRAP;
      q := q + 1;
    }
    ReadEnds(text, p, q);
  }

  lemma IdWrapped(m: Model, n: nat)
    requires |m.grp| <= 32
    ensures var id := n % ID_WRAP;
      IdToks(m, n) == if 1 <= id <= |m.grp| then MatcherToks(m, id - 1) else [Num(0)]
  {
  }

  /** Matcher number n's text, given n read into 32 bits. */
  method EmitId(f: Sink, e: Draft, id: nat, ghost n: nat)
    requires e.Valid() && |e.grp| <= 32 && id == n % ID_WRAP
    modifies f
    ensures f.toks == old(f.toks) + IdToks(e.Snap(), n)
  {
    hide IdToks, MatcherToks;
    IdWrapped(e.Snap(), n);
    if 1 <= id <= |e.grp| { EmitMatcher(f, e, id - 1); } else { f.Put([Num(0)]); }
  }

  lemma LexBang(text: string, p: nat, q: nat)
    requires p < q <= |text| && text[p] == '!'
    requires SkipSpaces(text[p + 1..]) == SkipSpaces(text[q..])
    requires q == |text| || text[q] != ' '
    ensures var s := text[q..];
      Lex(text[p..]) ==
        if q < |text| && IsDigit(text[q]) then [SId(Decimal(Digits(s)), true)] + Lex(AfterDigits(s))
        else if q < |text| && text[q] == '(' then [SBang] + Lex(s)
        else Lex(text[p + 1..])
  {
    assert text[p..][1..] == text[p + 1..];
    assert SkipSpaces(text[q..]) == text[q..];
  }

  lemma LexPlain(text: string, p: nat)
    requires p < |text| && text[p] != '!'
    ensures var c, rest := text[p], Lex(text[p + 1..]);
      Lex(text[p..]) ==
        if IsDigit(c) then [SId(Decimal(Digits(text[p..])), false)] + Lex(AfterDigits(text[p..]))
        else if c == '&' then [SAnd] + rest
        else if c == '|' then [SOrT] + rest
        else if c == '(' then [SLp] + rest
        else if c == ')' then [SRp] + rest
        else rest
  {
    assert text[p..][1..] == text[p + 1..];
  }

  lemma Step(m: Model, s: STok, rest: seq<STok>)
    requires |m.grp| <= 32
    ensures ExprToks(m, [s] + rest) == ToksOf(m, s) + ExprToks(m, rest)
  {
    assert ([s] + rest)[1..] == rest;
  }

  /** What a "!" at p is written as, and where reading goes on. */
  method EmitBang(f: Sink, e: Draft, text: string, p: nat) returns (next: nat)
    requires e.Valid() && |e.grp| <= 32 && p < |text| && text[p] == '!'
    modifies f
    ensures p < next <= |text|
    ensures f.toks + ExprToks(e.Snap(), Lex(text[next..])) == old(f.toks) + ExprToks(e.Snap(), Lex(text[p..]))
  {
    hide Lex, IdToks, ExprToks, Digits, AfterDigits, Decimal;
    ghost var m := e.Snap();
    var q := p + 1;
    while q < |text| && text[q] == ' '
      invariant p + 1 <= q <= |text|
      invariant SkipSpaces(text[p + 1..]) == SkipSpaces(text[q..])
      decreases |text| - q
    {
      assert text[q..][1..] == text[q + 1..];
      q := q + 1;
    }
    LexBang(text, p, q);
    if q < |text| && IsDigit(text[q]) {
      var id;
      id, next := ReadId(text, q);
      ghost var n := Decimal(Digits(text[q..]));
      f.Put([Bang, LPar]);
      EmitId(f, e, id, n);
      f.Put([RPar]);
      Step(m, SId(n, true), Lex(text[next..]));
    } else if q < |text| && text[q] == '(' {
      f.Put([Bang]);
      Step(m, SBang, Lex(text[q..]));
      next := q;
    } else {
      next := p + 1;
    }
  }

  /** What any other character at p is written as. */
  method EmitPlain(f: Sink, e: Draft, text: string, p: nat) returns (next: nat)
    requires e.Valid() && |e.grp| <= 32 && p < |text| && text[p] != '!'
    modifies f
    ensures p < next <= |text|
    ensures f.toks + ExprToks(e.Snap(), Lex(text[next..])) == old(f.toks) + ExprToks(e.Snap(), Lex(text[p..]))
  {
    hide Lex, IdToks, ExprToks, Digits, AfterDigits, Decimal;
    ghost var m := e.Snap();
    var c := text[p];
    LexPlain(text, p);
    if IsDigit(c) {
      var id;
      id, next := ReadId(text, p);
      ghost var n := Decimal(Digits(text[p..]));
      EmitId(f, e, id, n);
      Step(m, SId(n, false), Lex(text[next..]));
      return;
    }
    next := p + 1;
    if c == '&' { f.Put([AndAnd]); Step(m, SAnd, Lex(text[next..])); }
    else if c == '|' { f.Put([OrOr]); Step(m, SOrT, Lex(text[next..])); }
    else if c == '(' { f.Put([LPar]); Step(m, SLp, Lex(text[next..])); }
    else if c == ')' { f.Put([RPar]); Step(m, SRp, Lex(text[next..])); }
  }

  method EmitExpr(f: Sink, e: Draft, text: string)
    requires e.Valid() && |e.grp| <= 32
    modifies f
    ensures f.toks == old(f.toks) + TextToks(e.Snap(), text)
  {
    hide ExprToks, Lex;
    ghost var m := e.Snap();
    if text == "" {
      f.Put([Num(1)]);
      return;
    }
    var p := 0;
    assert text[0..] == text;
    while p < |text|
      invariant 0 <= p <= |text|
      invariant f.toks + ExprToks(m, Lex(text[p..])) == old(f.toks) + ExprToks(m, Lex(text))
      decreases |text| - p
    {
      if text[p] == '!' { p := EmitBang(f, e, text, p); } else { p := EmitPlain(f, e, text, p); }
    }
    NothingLeft(m);
    assert text[p..] == "";
  }

  lemma NothingLeft(m: Model)
    requires |m.grp| <= 32
    ensures ExprToks(m, Lex("")) == []
  {
  }

  // ---- branches ---------------------------------------------------------------------------

  method EmitVerdict(f: Sink, c: Cond)
    modifies f
    ensures f.toks == old(f.toks) + VerdictToks(c)
  {
    if c.level == NoVerdict {
      f.Put([KReturn, Semi, Newline]);
      return;
    }
    var variant := if c.varKind == 2 then Custom(c.variant) else if c.varKind == 1 then Generic else Auto;
    f.Put([Scan(if c.level == Suspect then Suspect else Infect, variant), Semi, Newline]);
  }

  method EmitLeafEnd(f: Sink, c: Cond)
    modifies f
    ensures f.toks == old(f.toks) + LeafToks(c)
  {
    if c.level == NoVerdict {
      f.Put([LBrace, Newline]);
      EmitVerdict(f, c);
      f.Put([RBrace, Newline]);
      return;
    }
    f.Put([Newline]);
    EmitVerdict(f, c);
  }

  method EmitTerm(f: Sink, e: Draft, k: nat)
    requires e.Valid() && |e.grp| <= 32 && k < |e.cnd|
    modifies f
    ensures f.toks == old(f.toks) + TermToks(e.Snap(), k)
  {
    hide TextToks;
    if '|' in e.cnd[k].expr {
      f.Put([LPar]);
      EmitExpr(f, e, e.cnd[k].expr);
      f.Put([RPar]);
    } else {
      EmitExpr(f, e, e.cnd[k].expr);
    }
  }

  /** Members of the run from number x on, with the "&&" that joins them to those before. */
  function TermsFrom(m: Model, u: Unit, x: nat): seq<Tok>
    requires |m.grp| <= 32 && UnitIn(m.cnd, u, 0) && x <= |u|
  {
    if x == |u| then [] else (if x == 0 then [] else [AndAnd]) + TermsToks(m, u[x..])
  }

  lemma TermsStep(m: Model, u: Unit, x: nat)
    requires |m.grp| <= 32 && UnitIn(m.cnd, u, 0) && x < |u|
    ensures TermsFrom(m, u, x)
         == (if x == 0 then [] else [AndAnd]) + TermToks(m, u[x]) + TermsFrom(m, u, x + 1)
  {
    hide TermToks;
    assert u[x..][0] == u[x];
    if x + 1 < |u| { assert u[x..][1..] == u[x + 1..]; }
  }

  lemma TermsAll(m: Model, u: Unit)
    requires |m.grp| <= 32 && UnitIn(m.cnd, u, 0)
    ensures TermsFrom(m, u, 0) == TermsToks(m, u)
  {
    assert u[0..] == u;
  }

  lemma RunFacts(cnd: seq<Cond>, i: nat)
    requires i < |cnd|
    ensures var u := Members(cnd, i);
      && u[0] == i && u[|u| - 1] == RunEnd(cnd, i)
      && (forall x, y :: 0 <= x < y < |u| ==> u[x] < u[y])
      && UnitIn(cnd, u, 0)
  {
    MembersIncrease(cnd, i);
  }

  /** Where a value sits in an increasing list, from what stands on either side of x. */
  lemma SitsAt(u: seq<nat>, x: nat, k: nat)
    requires forall a, b :: 0 <= a < b < |u| ==> u[a] < u[b]
    requires x <= |u| && (x < |u| ==> k <= u[x]) && (x > 0 ==> u[x - 1] < k)
    ensures k in u <==> x < |u| && u[x] == k
    ensures k in u && x + 1 < |u| ==> k < u[x + 1]
  {
  }

  /** The next member of a run, as the loop over indices meets it. */
  lemma NextMember(cnd: seq<Cond>, i: nat, k: nat, x: nat)
    requires i < |cnd| && i <= k <= RunEnd(cnd, i) && x <= |Members(cnd, i)|
    requires x < |Members(cnd, i)| ==> k <= Members(cnd, i)[x]
    requires x > 0 ==> Members(cnd, i)[x - 1] < k
    ensures cnd[k].parent == cnd[i].parent ==> x < |Members(cnd, i)| && Members(cnd, i)[x] == k
    ensures cnd[k].parent == cnd[i].parent && x + 1 < |Members(cnd, i)| ==> k < Members(cnd, i)[x + 1]
    ensures cnd[k].parent != cnd[i].parent && x < |Members(cnd, i)| ==> k < Members(cnd, i)[x]
  {
    hide Members, RunEnd;
    MembersIncrease(cnd, i);
    SitsAt(Members(cnd, i), x, k);
    InRun(cnd, i, k);
  }

  lemma MembersStart(cnd: seq<Cond>, i: nat)
    requires i < |cnd|
    ensures Members(cnd, i)[0] == i && UnitIn(cnd, Members(cnd, i), 0)
  {
  }

  lemma AllMet(cnd: seq<Cond>, i: nat, x: nat)
    requires i < |cnd| && x <= |Members(cnd, i)|
    requires x < |Members(cnd, i)| ==> RunEnd(cnd, i) < Members(cnd, i)[x]
    ensures x == |Members(cnd, i)|
  {
  }

  lemma Assoc(a: seq<Tok>, b: seq<Tok>, c: seq<Tok>)
    ensures (a + b) + c == a + (b + c)
  {
  }

  method EmitJoined(f: Sink, e: Draft, k: nat, first: bool)
    requires e.Valid() && |e.grp| <= 32 && k < |e.cnd|
    modifies f
    ensures f.toks == old(f.toks) + ((if first then [] else [AndAnd]) + TermToks(e.Snap(), k))
  {
    hide TermToks;
    if !first { f.Put([AndAnd]); }
    EmitTerm(f, e, k);
  }

  /** The members' tests, joined. */
  method EmitTerms(f: Sink, e: Draft, i: nat, last: nat)
    requires e.Valid() && |e.grp| <= 32 && i < |e.cnd| && last == RunEnd(e.cnd, i)
    modifies f
    ensures f.toks == old(f.toks) + TermsToks(e.Snap(), Members(e.cnd, i))
  {
    hide Members, TermsToks, TermsFrom, TermToks, RunEnd;
    ghost var m := e.Snap();
    ghost var u: Unit := Members(e.cnd, i);
    ghost var x := 0;
    MembersStart(e.cnd, i);
    var first := true;
    TermsAll(m, u);
    for k := i to last + 1
      invariant 0 <= x <= |u| && first == (x == 0)
      invariant x < |u| ==> k <= u[x]
      invariant x > 0 ==> u[x - 1] < k
      invariant f.toks + TermsFrom(m, u, x) == old(f.toks) + TermsToks(m, u)
    {
      NextMember(e.cnd, i, k, x);
      if e.cnd[k].parent != e.cnd[i].parent { continue; }
      TermsStep(m, u, x);
      Assoc(f.toks, (if first then [] else [AndAnd]) + TermToks(m, k), TermsFrom(m, u, x + 1));
      EmitJoined(f, e, k, first);
      first := false;
      x := x + 1;
    }
    AllMet(e.cnd, i, x);
    TermsEnd(m, u);
  }

  method EmitAndRun(f: Sink, e: Draft, i: nat, last: nat)
    requires e.Valid() && |e.grp| <= 32 && i < |e.cnd| && last == RunEnd(e.cnd, i)
    modifies f
    ensures f.toks == old(f.toks) + RunToks(e.Snap(), Members(e.cnd, i))
  {
    hide Members, TermsToks, LeafToks;
    RunFacts(e.cnd, i);
    f.Put([KIf, LPar]);
    EmitTerms(f, e, i, last);
    f.Put([RPar]);
    EmitLeafEnd(f, e.cnd[last]);
  }

  lemma TermsEnd(m: Model, u: Unit)
    requires |m.grp| <= 32 && UnitIn(m.cnd, u, 0)
    ensures TermsFrom(m, u, |u|) == []
  {
  }

  /** One branch and everything inside it; answers the last condition it consumed, and - for
      the proof - which conditions it wrote. */
  method EmitCond(f: Sink, e: Draft, i: nat) returns (last: nat, ghost visited: seq<nat>)
    requires e.Valid() && |e.grp| <= 32 && Forest(e.cnd) && i < |e.cnd|
    modifies f
    ensures f.toks == old(f.toks) + UnitToks(e.Snap(), i)
    ensures last == RunEnd(e.cnd, i) && visited == UnitVisit(e.cnd, i)
    decreases |e.cnd| - i, 1
  {
    hide Members, RunToks, CondToks, LeafToks, TextToks, HasKids, Heads, UnitsToks, UnitsVisit;
    last := CndAndRun(e, i);
    RunFacts(e.cnd, i);
    visited := Members(e.cnd, i);
    if last != i {
      EmitAndRun(f, e, i, last);
      return;
    }
    var kids := CndChildren(e, i);
    if kids != 0 {
      visited := EmitGate(f, e, i);
    } else {
      f.Put([KIf, LPar]);
      EmitExpr(f, e, e.cnd[i].expr);
      f.Put([RPar]);
      EmitLeafEnd(f, e.cnd[i]);
      LeafWritten(e.Snap(), i);
    }
  }

  lemma LeafWritten(m: Model, i: nat)
    requires |m.grp| <= 32 && Forest(m.cnd) && i < |m.cnd| && !HasKids(m.cnd, i)
    ensures CondToks(m, i) == [KIf, LPar] + TextToks(m, m.cnd[i].expr) + [RPar] + LeafToks(m.cnd[i])
    ensures HeadsIn(m.cnd, Heads(m.cnd, i, 0), i + 1) && UnitsVisit(m.cnd, Heads(m.cnd, i, 0), i + 1) == []
  {
    NoHeads(m.cnd, i, 0);
  }

  lemma GateWritten(m: Model, i: nat)
    requires |m.grp| <= 32 && Forest(m.cnd) && i < |m.cnd| && HasKids(m.cnd, i)
    ensures HeadsIn(m.cnd, Heads(m.cnd, i, 0), i + 1)
    ensures CondToks(m, i) == GateHead(m, m.cnd[i]) + UnitsToks(m, Heads(m.cnd, i, 0), i + 1) + GateTail(m.cnd[i])
  {
    KidsAbove(m.cnd, i);
  }

  method EmitGate(f: Sink, e: Draft, i: nat) returns (ghost visited: seq<nat>)
    requires e.Valid() && |e.grp| <= 32 && Forest(e.cnd) && i < |e.cnd| && HasKids(e.cnd, i)
    modifies f
    ensures f.toks == old(f.toks) + CondToks(e.Snap(), i)
    ensures HeadsIn(e.cnd, Heads(e.cnd, i, 0), i + 1)
    ensures visited == [i] + UnitsVisit(e.cnd, Heads(e.cnd, i, 0), i + 1)
    decreases |e.cnd| - i, 0, 1
  {
    hide UnitsToks, UnitsVisit, HasKids, Heads, TextToks, CondToks;
    ghost var m := e.Snap();
    var c := e.cnd[i];
    GateWritten(m, i);
    if c.expr != "" {
      f.Put([KIf, LPar]);
      EmitExpr(f, e, c.expr);
      f.Put([RPar]);
    }
    f.Put([LBrace, Newline]);
    assert f.toks == old(f.toks) + GateHead(m, c);
    visited := EmitKids(f, e, i);
    visited := [i] + visited;
    if c.level != NoVerdict { EmitVerdict(f, c); }
    f.Put([RBrace, Newline]);
    assert f.toks == old(f.toks) + (GateHead(m, c) + UnitsToks(m, Heads(e.cnd, i, 0), i + 1) + GateTail(c));
  }

  /** Writing the next branch of a list, after whatever stands before it. */
  lemma NextUnit(m: Model, heads: seq<nat>, lo: nat, was: seq<Tok>, seen: seq<nat>)
    requires |m.grp| <= 32 && Forest(m.cnd) && lo <= |m.cnd| && HeadsIn(m.cnd, heads, lo) && heads != []
    ensures was + UnitToks(m, heads[0]) + UnitsToks(m, heads[1..], lo) == was + UnitsToks(m, heads, lo)
    ensures seen + UnitVisit(m.cnd, heads[0]) + UnitsVisit(m.cnd, heads[1..], lo) == seen + UnitsVisit(m.cnd, heads, lo)
  {
    hide UnitToks, UnitVisit;
  }

  lemma NoUnits(m: Model, lo: nat)
    requires |m.grp| <= 32 && Forest(m.cnd) && lo <= |m.cnd|
    ensures UnitsToks(m, [], lo) == [] && UnitsVisit(m.cnd, [], lo) == []
  {
  }

  /** The branches inside a gate; k jumps over the members of a run. */
  method EmitKids(f: Sink, e: Draft, i: nat) returns (ghost seen: seq<nat>)
    requires e.Valid() && |e.grp| <= 32 && Forest(e.cnd) && i < |e.cnd|
    requires HeadsIn(e.cnd, Heads(e.cnd, i, 0), i + 1)
    modifies f
    ensures f.toks == old(f.toks) + UnitsToks(e.Snap(), Heads(e.cnd, i, 0), i + 1)
    ensures seen == UnitsVisit(e.cnd, Heads(e.cnd, i, 0), i + 1)
    decreases |e.cnd| - i, 0, 0
  {
    hide UnitToks, UnitVisit, Heads, RunEnd, UnitsToks, UnitsVisit;
    ghost var m := e.Snap();
    ghost var rest := Heads(e.cnd, i, 0);
    var k := 0;
    seen := [];
    while k < |e.cnd|
      invariant 0 <= k <= |e.cnd| && rest == Heads(e.cnd, i, k) && HeadsIn(e.cnd, rest, i + 1)
      invariant f.toks + UnitsToks(m, rest, i + 1) == old(f.toks) + UnitsToks(m, Heads(e.cnd, i, 0), i + 1)
      invariant seen + UnitsVisit(e.cnd, rest, i + 1) == UnitsVisit(e.cnd, Heads(e.cnd, i, 0), i + 1)
      decreases |e.cnd| - k
    {
      HeadsStep(e.cnd, i, k);
      if e.cnd[k].parent != i {
        k := k + 1;
        continue;
      }
      ghost var done;
      NextUnit(m, rest, i + 1, f.toks, seen);
      assert rest[0] == k;
      k, done := EmitCond(f, e, k);
      assert rest[1..] == Heads(e.cnd, i, k + 1);
      rest := rest[1..];
      seen := seen + done;
      k := k + 1;
    }
    HeadsDone(e.cnd, i);
    NoUnits(m, i + 1);
  }

  lemma HeadsDone(cnd: seq<Cond>, p: int)
    ensures Heads(cnd, p, |cnd|) == []
  {
  }

  // ---- the whole body -----------------------------------------------------------------------

  /** One pass of the level loop over the top-level conditions. */
  method LevelPass(f: Sink, e: Draft, lvl: Level, done: array<bool>, ghost marked: set<nat>)
    returns (ghost after: set<nat>, ghost seen: seq<nat>)
    requires e.Valid() && |e.grp| <= 32 && Forest(e.cnd) && done.Length >= |e.cnd|
    requires forall k: nat :: k < |e.cnd| ==> (done[k] <==> k in marked)
    modifies f, done
    ensures after == Pass(e.cnd, lvl, 0, marked).1
    ensures forall k: nat :: k < |e.cnd| ==> (done[k] <==> k in after)
    ensures f.toks == old(f.toks) + UnitsToks(e.Snap(), Pass(e.cnd, lvl, 0, marked).0, 0)
    ensures seen == UnitsVisit(e.cnd, Pass(e.cnd, lvl, 0, marked).0, 0)
  {
    hide UnitToks, UnitVisit, RunEnd, Pass, UnitsToks, UnitsVisit;
    ghost var m := e.Snap();
    ghost var all := Pass(e.cnd, lvl, 0, marked);
    ghost var rest := all.0;
    after, seen := marked, [];
    var k := 0;
    while k < |e.cnd|
      invariant 0 <= k <= |e.cnd| && Pass(e.cnd, lvl, k, after) == (rest, all.1) && HeadsIn(e.cnd, rest, 0)
      invariant forall j: nat :: j < |e.cnd| ==> (done[j] <==> j in after)
      invariant f.toks + UnitsToks(m, rest, 0) == old(f.toks) + UnitsToks(m, all.0, 0)
      invariant seen + UnitsVisit(e.cnd, rest, 0) == UnitsVisit(e.cnd, all.0, 0)
      decreases |e.cnd| - k
    {
      PassStep(e.cnd, lvl, k, after);
      if e.cnd[k].parent >= 0 || done[k] || e.cnd[k].level != lvl {
        k := k + 1;
        continue;
      }
      ghost var part;
      var last;
      NextUnit(m, rest, 0, f.toks, seen);
      assert rest[0] == k;
      last, part := EmitCond(f, e, k);
      ghost var head, was := k, after;
      while k <= last && k < |e.cnd|
        modifies done
        invariant head <= k <= last + 1
        invariant forall j: nat :: j < |e.cnd| ==> (done[j] <==> j in was || head <= j < k)
        decreases last + 1 - k
      {
        done[k] := true;
        k := k + 1;
      }
      after := was + Span(head, last);
      rest := rest[1..];
      seen := seen + part;
    }
    PassEnd(e.cnd, lvl, after);
    NoUnits(m, 0);
  }

  /** The shared call of g's class, when g leads it. */
  method EmitDecl(f: Sink, e: Draft, g: nat) returns (wrote: bool)
    requires e.Valid() && g < |e.grp| <= 32
    modifies f
    ensures wrote == Declared(e.Snap(), g)
    ensures f.toks == old(f.toks) + if wrote then DeclToks(e.Snap(), g) else []
  {
    hide CallTok, Shared, Lead;
    var shared := GrpShared(e, g);
    if !shared { return false; }
    var lead := GrpLead(e, g);
    if lead != g { return false; }
    f.Put([KUint8, Var(g), Assign]);
    EmitCallAs(f, e, g, true);
    f.Put([Semi, Newline]);
    return true;
  }

  lemma DeclsStep(m: Model, g: nat)
    requires g < |m.grp| <= 32
    ensures DeclsToks(m, g) == (if Declared(m, g) then DeclToks(m, g) else []) + DeclsToks(m, g + 1)
    ensures DeclToks(m, g) != []
  {
    hide Declared;
  }

  method EmitDecls(f: Sink, e: Draft)
    requires e.Valid() && |e.grp| <= 32
    modifies f
    ensures f.toks == old(f.toks) + DeclsToks(e.Snap(), 0) + (if DeclsToks(e.Snap(), 0) == [] then [] else [Newline])
  {
    hide DeclToks, Declared, DeclsToks;
    ghost var m := e.Snap();
    var wrote := 0;
    for g := 0 to |e.grp|
      invariant f.toks + DeclsToks(m, g) == old(f.toks) + DeclsToks(m, 0)
      invariant |f.toks| >= |old(f.toks)| && (wrote > 0 <==> |f.toks| > |old(f.toks)|)
    {
      DeclsStep(m, g);
      Assoc(f.toks, if Declared(m, g) then DeclToks(m, g) else [], DeclsToks(m, g + 1));
      var w := EmitDecl(f, e, g);
      if w { wrote := wrote + 1; }
    }
    DeclsEnd(m);
    assert f.toks == old(f.toks) + DeclsToks(m, 0);
    if wrote > 0 { f.Put([Newline]); }
  }

  lemma DeclsEnd(m: Model)
    requires |m.grp| <= 32
    ensures DeclsToks(m, |m.grp|) == []
  {
  }

  lemma {:induction false} UnitsToksAppend(m: Model, a: seq<nat>, b: seq<nat>)
    requires |m.grp| <= 32 && Forest(m.cnd) && HeadsIn(m.cnd, a, 0) && HeadsIn(m.cnd, b, 0)
    ensures HeadsIn(m.cnd, a + b, 0)
    ensures UnitsToks(m, a + b, 0) == UnitsToks(m, a, 0) + UnitsToks(m, b, 0)
    decreases |a|
  {
    hide UnitToks;
    if a == [] {
      assert a + b == b;
    } else {
      assert (a + b)[1..] == a[1..] + b;
      UnitsToksAppend(m, a[1..], b);
    }
  }

  /** The passes' branches are the ones written, in the order they are written. */
  lemma PassesWrite(m: Model)
    requires |m.grp| <= 32 && Forest(m.cnd)
    ensures var p0 := Pass(m.cnd, Infect, 0, {});
      var p1 := Pass(m.cnd, Suspect, 0, p0.1);
      var p2 := Pass(m.cnd, NoVerdict, 0, p1.1);
      && UnitsToks(m, Written(m.cnd), 0) == UnitsToks(m, p0.0, 0) + UnitsToks(m, p1.0, 0) + UnitsToks(m, p2.0, 0)
      && UnitsVisit(m.cnd, Written(m.cnd), 0)
         == UnitsVisit(m.cnd, p0.0, 0) + UnitsVisit(m.cnd, p1.0, 0) + UnitsVisit(m.cnd, p2.0, 0)
  {
    hide UnitsToks, UnitsVisit, Pass;
    var p0 := Pass(m.cnd, Infect, 0, {});
    var p1 := Pass(m.cnd, Suspect, 0, p0.1);
    var p2 := Pass(m.cnd, NoVerdict, 0, p1.1);
    UnitsToksAppend(m, p0.0, p1.0);
    UnitsToksAppend(m, p0.0 + p1.0, p2.0);
    VisitAppend(m.cnd, p0.0, p1.0);
    VisitAppend(m.cnd, p0.0 + p1.0, p2.0);
  }

  /** The branches, strongest first. */
  method EmitLevels(f: Sink, e: Draft) returns (ghost visited: seq<nat>)
    requires e.Valid() && |e.grp| <= 32 && Forest(e.cnd)
    modifies f
    ensures f.toks == old(f.toks) + UnitsToks(e.Snap(), Written(e.cnd), 0)
    ensures visited == UnitsVisit(e.cnd, Written(e.cnd), 0)
  {
    hide UnitsToks, UnitsVisit, Pass, Written;
    var done := new bool[|e.cnd|](_ => false);
    ghost var a0, v0 := LevelPass(f, e, Infect, done, {});
    ghost var a1, v1 := LevelPass(f, e, Suspect, done, a0);
    ghost var a2, v2 := LevelPass(f, e, NoVerdict, done, a1);
    visited := v0 + v1 + v2;
    PassesWrite(e.Snap());
  }

  /** The body of kof_scan, from its opening brace on. */
  method GenerateBody(f: Sink, e: Draft) returns (ghost visited: seq<nat>)
    requires e.Valid() && |e.grp| <= 32 && Forest(e.cnd)
    modifies f
    ensures f.toks == old(f.toks) + BodyToks(e.Snap())
    ensures visited == UnitsVisit(e.cnd, Written(e.cnd), 0)
  {
    hide UnitsToks, UnitsVisit, DeclsToks, Written;
    ghost var m := e.Snap();
    if e.opt[OPT_SIZE_MAX].on {
      f.Put([KIf, LPar, ObjSize, Gt, Num(e.opt[OPT_SIZE_MAX].val), RPar, Newline, KReturn, Semi, Newline, Newline]);
    }
    assert f.toks == old(f.toks) + SizeToks(m);
    EmitDecls(f, e);
    visited := EmitLevels(f, e);
    f.Put([RBrace, Newline]);
  }
}
