/** Compilation preserves meaning: the emitted statements read as C and run to the verdict the
    forest of conditions stands for. */
module BranchMeaning {
  import opened TargetC
  import opened DraftModel
  import opened ExprSource
  import opened Matchers
  import opened ExprTokens
  import opened ExprMeaning
  import opened Conditions
  import opened BranchTokens

  predicate NoDecl(ss: seq<Stmt>) { forall i :: 0 <= i < |ss| ==> !ss[i].SDecl? }

  lemma {:induction false} ExecAppend(ss: seq<Stmt>, tail: seq<Stmt>, o: Obj, vars: Vars)
    requires NoDecl(ss)
    ensures Exec(ss + tail, o, vars) == var r := Exec(ss, o, vars); if r.Fell? then Exec(tail, o, vars) else r
    decreases |ss|
  {
    if ss == [] {
      assert ss + tail == tail;
    } else {
      assert (ss + tail)[1..] == ss[1..] + tail;
      ExecAppend(ss[1..], tail, o, vars);
    }
  }

  // ---- the statements the tokens are ----------------------------------------------------

  function VerdictStmt(c: Cond): Stmt {
    if c.level == NoVerdict then SReturn else SScan(c.level, VariantOf(c))
  }

  function LeafStmt(c: Cond): Stmt {
    if c.level == NoVerdict then SBlock([SReturn]) else VerdictStmt(c)
  }

  function OwnStmts(c: Cond): seq<Stmt> {
    if c.level == NoVerdict then [] else [VerdictStmt(c)]
  }

  function GateStmt(m: Model, c: Cond, body: seq<Stmt>): Stmt
    requires |m.grp| <= 32
  {
    if c.expr == "" then SBlock(body) else SIf(TextExpr(m, c.expr), SBlock(body))
  }

  function CondStmt(m: Model, i: nat): Stmt
    requires |m.grp| <= 32 && Forest(m.cnd) && i < |m.cnd|
    decreases |m.cnd| - i, 0, 0
  {
    var c := m.cnd[i];
    if HasKids(m.cnd, i) then
      KidsAbove(m.cnd, i);
      GateStmt(m, c, UnitsStmts(m, Heads(m.cnd, i, 0), i + 1) + OwnStmts(c))
    else SIf(TextExpr(m, c.expr), LeafStmt(c))
  }

  function UnitStmt(m: Model, h: nat): (r: Stmt)
    requires |m.grp| <= 32 && Forest(m.cnd) && h < |m.cnd|
    ensures !r.SDecl?
    decreases |m.cnd| - h, 1, 0
  {
    var u := Members(m.cnd, h);
    if |u| == 1 then CondStmt(m, h) else SIf(RunExpr(m, u), LeafStmt(m.cnd[RunEnd(m.cnd, h)]))
  }

  function UnitsStmts(m: Model, heads: seq<nat>, lo: nat): (r: seq<Stmt>)
    requires |m.grp| <= 32 && Forest(m.cnd) && lo <= |m.cnd| && HeadsIn(m.cnd, heads, lo)
    ensures NoDecl(r)
    decreases |m.cnd| - lo, 2, |heads|
  {
    if heads == [] then [] else [UnitStmt(m, heads[0])] + UnitsStmts(m, heads[1..], lo)
  }

  // ---- the tokens read as those statements ----------------------------------------------

  predicate Opens(t: seq<Tok>) { First(t) != RBrace && First(t) != Newline }

  /** One statement at the head of a block. */
  lemma StmtsCons(t: seq<Tok>, s: Stmt, k: seq<Tok>)
    requires Opens(t) && PStmt(t) == Some((s, [Newline] + k)) && PStmts(k).Some?
    ensures PStmts(t) == Some(([s] + PStmts(k).value.0, PStmts(k).value.1))
  {
    assert ([Newline] + k)[1..] == k;
  }

  lemma VerdictRead(c: Cond, k: seq<Tok>)
    ensures PStmt(VerdictToks(c) + k) == Some((VerdictStmt(c), [Newline] + k))
  {
    var t := VerdictToks(c) + k;
    assert t[1..] == [Semi, Newline] + k && t[2..] == [Newline] + k;
  }

  /** A verdict alone in front of a closing brace. */
  lemma VerdictBlock(c: Cond, close: seq<Tok>)
    requires First(close) == RBrace
    ensures PStmts(VerdictToks(c) + close) == Some(([VerdictStmt(c)], close))
  {
    VerdictRead(c, close);
    assert PStmts(close) == Some(([], close));
    StmtsCons(VerdictToks(c) + close, VerdictStmt(c), close);
    assert [VerdictStmt(c)] + [] == [VerdictStmt(c)];
  }

  lemma LeafStmtRead(c: Cond, k: seq<Tok>)
    ensures PStmt(LeafToks(c) + k) == Some((LeafStmt(c), [Newline] + k))
  {
    var t := LeafToks(c) + k;
    if c.level == NoVerdict {
      var close := [RBrace, Newline] + k;
      var body := [Newline] + (VerdictToks(c) + close);
      assert t == [LBrace] + body;
      assert t[1..] == body && body[1..] == VerdictToks(c) + close;
      VerdictBlock(c, close);
      assert close[1..] == [Newline] + k;
    } else {
      assert t == [Newline] + (VerdictToks(c) + k);
      assert t[1..] == VerdictToks(c) + k;
      VerdictRead(c, k);
    }
  }

  /** "if (test) arm" for a test that reads as an expression. */
  lemma IfRead(test: seq<Tok>, e: Expr, arm: seq<Tok>, s: Stmt, k: seq<Tok>)
    requires POr(test + ([RPar] + arm)) == Some((e, [RPar] + arm))
    requires PStmt(arm) == Some((s, k)) && !s.SDecl?
    ensures PStmt([KIf, LPar] + test + [RPar] + arm) == Some((SIf(e, s), k))
  {
    var t := [KIf, LPar] + test + [RPar] + arm;
    var inner := test + ([RPar] + arm);
    assert t == [KIf, LPar] + inner;
    assert t[1..] == [LPar] + inner && t[2..] == inner;
    assert ([RPar] + arm)[1..] == arm;
  }

  lemma RunRead(m: Model, u: Unit, k: seq<Tok>)
    requires |m.grp| <= 32 && RunOk(m, u) && |u| > 1
    ensures Opens(RunToks(m, u) + k)
    ensures PStmt(RunToks(m, u) + k) == Some((SIf(RunExpr(m, u), LeafStmt(m.cnd[u[|u| - 1]])), [Newline] + k))
  {
    var c := m.cnd[u[|u| - 1]];
    var arm := LeafToks(c) + k;
    RunTestReads(m, u, [RPar] + arm);
    LeafStmtRead(c, k);
    IfRead(TermsToks(m, u), RunExpr(m, u), arm, LeafStmt(c), [Newline] + k);
    assert RunToks(m, u) + k == [KIf, LPar] + TermsToks(m, u) + [RPar] + arm;
  }

  /** A test, and the statement it guards. */
  lemma TestRead(m: Model, text: string, arm: seq<Tok>, s: Stmt, k: seq<Tok>)
    requires |m.grp| <= 32 && (text == "" || Read(text).Some?)
    requires PStmt(arm) == Some((s, k)) && !s.SDecl?
    ensures PStmt([KIf, LPar] + TextToks(m, text) + [RPar] + arm) == Some((SIf(TextExpr(m, text), s), k))
  {
    EmittedReads(m, text, [RPar] + arm);
    IfRead(TextToks(m, text), TextExpr(m, text), arm, s, k);
  }

  ghost predicate Compiles(m: Model) { |m.grp| <= 32 && Forest(m.cnd) && TextsOk(m) }

  lemma MembersOk(m: Model, h: nat)
    requires TextsOk(m) && h < |m.cnd| && |Members(m.cnd, h)| > 1
    ensures RunOk(m, Members(m.cnd, h))
  {
    var u := Members(m.cnd, h);
    forall x | 0 <= x < |u|
      ensures m.cnd[u[x]].expr != ""
    {
      assert Linkable(m.cnd, u[x]);
    }
  }

  lemma BlockRead(inner: seq<Tok>, body: seq<Stmt>, k: seq<Tok>)
    requires PStmts(inner) == Some((body, [RBrace, Newline] + k))
    ensures PStmt([LBrace, Newline] + inner) == Some((SBlock(body), [Newline] + k))
  {
    var block := [LBrace, Newline] + inner;
    assert block[1..] == [Newline] + inner && block[1..][1..] == inner;
    assert ([RBrace, Newline] + k)[1..] == [Newline] + k;
    assert PStmts(block[1..]) == PStmts(inner);
  }

  lemma GateRead(m: Model, c: Cond, inner: seq<Tok>, body: seq<Stmt>, k: seq<Tok>)
    requires |m.grp| <= 32 && TextOk(m, c.expr)
    requires PStmts(inner) == Some((body, [RBrace, Newline] + k))
    ensures PStmt(GateHead(m, c) + inner) == Some((GateStmt(m, c, body), [Newline] + k))
    ensures Opens(GateHead(m, c) + inner)
  {
    hide PStmt, PStmts;
    var block := [LBrace, Newline] + inner;
    BlockRead(inner, body, k);
    if c.expr == "" {
      assert GateHead(m, c) + inner == block;
    } else {
      TestRead(m, c.expr, block, SBlock(body), [Newline] + k);
      assert GateHead(m, c) + inner == [KIf, LPar] + TextToks(m, c.expr) + [RPar] + block;
    }
  }

  /** What stands between a gate's branches and its closing brace. */
  lemma OwnRead(c: Cond, k: seq<Tok>)
    ensures PStmts(GateTail(c) + k) == Some((OwnStmts(c), [RBrace, Newline] + k))
  {
    var close := [RBrace, Newline] + k;
    if c.level == NoVerdict {
      assert GateTail(c) + k == close;
    } else {
      VerdictBlock(c, close);
      assert GateTail(c) + k == VerdictToks(c) + close;
    }
  }

  lemma LeafCondRead(m: Model, c: Cond, k: seq<Tok>)
    requires |m.grp| <= 32 && TextOk(m, c.expr)
    ensures var t := [KIf, LPar] + TextToks(m, c.expr) + [RPar] + LeafToks(c) + k;
      && Opens(t)
      && PStmt(t) == Some((SIf(TextExpr(m, c.expr), LeafStmt(c)), [Newline] + k))
  {
    hide PStmt, PStmts;
    var arm := LeafToks(c) + k;
    LeafStmtRead(c, k);
    TestRead(m, c.expr, arm, LeafStmt(c), [Newline] + k);
    assert [KIf, LPar] + TextToks(m, c.expr) + [RPar] + LeafToks(c) + k
        == [KIf, LPar] + TextToks(m, c.expr) + [RPar] + arm;
  }

  lemma {:induction false} CondRead(m: Model, i: nat, k: seq<Tok>)
    requires Compiles(m) && i < |m.cnd|
    ensures Opens(CondToks(m, i) + k)
    ensures PStmt(CondToks(m, i) + k) == Some((CondStmt(m, i), [Newline] + k))
    decreases |m.cnd| - i, 0, 1
  {
    hide PStmt, PStmts;
    if HasKids(m.cnd, i) {
      GateCondRead(m, i, k);
    } else {
      LeafCondRead(m, m.cnd[i], k);
    }
  }

  lemma {:induction false} GateCondRead(m: Model, i: nat, k: seq<Tok>)
    requires Compiles(m) && i < |m.cnd| && HasKids(m.cnd, i)
    ensures Opens(CondToks(m, i) + k)
    ensures PStmt(CondToks(m, i) + k) == Some((CondStmt(m, i), [Newline] + k))
    decreases |m.cnd| - i, 0, 0
  {
    hide PStmt, PStmts, HasKids, Heads, GateHead, GateTail, GateStmt, OwnStmts, UnitsToks, UnitsStmts;
    var c, heads := m.cnd[i], Heads(m.cnd, i, 0);
    KidsAbove(m.cnd, i);
    var tail := GateTail(c) + k;
    var inner := UnitsToks(m, heads, i + 1) + tail;
    OwnRead(c, k);
    UnitsRead(m, heads, i + 1, tail, OwnStmts(c), [RBrace, Newline] + k);
    GateRead(m, c, inner, UnitsStmts(m, heads, i + 1) + OwnStmts(c), k);
    assert CondToks(m, i) + k == GateHead(m, c) + inner;
  }

  lemma {:induction false} UnitRead(m: Model, h: nat, k: seq<Tok>)
    requires Compiles(m) && h < |m.cnd|
    ensures Opens(UnitToks(m, h) + k)
    ensures PStmt(UnitToks(m, h) + k) == Some((UnitStmt(m, h), [Newline] + k))
    decreases |m.cnd| - h, 1, 0
  {
    hide PStmt, PStmts, Members, CondToks, CondStmt, RunToks, RunExpr, LeafStmt;
    if |Members(m.cnd, h)| == 1 {
      CondRead(m, h, k);
    } else {
      MembersOk(m, h);
      RunRead(m, Members(m.cnd, h), k);
    }
  }

  /** Branches read as statements, in front of whatever else the block holds. */
  lemma {:induction false} UnitsRead(m: Model, heads: seq<nat>, lo: nat, k: seq<Tok>, tail: seq<Stmt>, end: seq<Tok>)
    requires Compiles(m) && lo <= |m.cnd| && HeadsIn(m.cnd, heads, lo)
    requires PStmts(k) == Some((tail, end))
    ensures PStmts(UnitsToks(m, heads, lo) + k) == Some((UnitsStmts(m, heads, lo) + tail, end))
    decreases |m.cnd| - lo, 2, |heads|
  {
    hide PStmt, PStmts, UnitToks, UnitStmt;
    if heads == [] {
      assert UnitsToks(m, heads, lo) + k == k && UnitsStmts(m, heads, lo) + tail == tail;
    } else {
      UnitsRead(m, heads[1..], lo, k, tail, end);
      var k' := UnitsToks(m, heads[1..], lo) + k;
      var s := UnitStmt(m, heads[0]);
      UnitRead(m, heads[0], k');
      assert UnitsToks(m, heads, lo) + k == UnitToks(m, heads[0]) + k';
      StmtsCons(UnitToks(m, heads[0]) + k', s, k');
      assert [s] + (UnitsStmts(m, heads[1..], lo) + tail) == UnitsStmts(m, heads, lo) + tail;
    }
  }

  // ---- those statements run to the forest's meaning -------------------------------------

  lemma LeafRuns(c: Cond, o: Obj, vars: Vars)
    ensures Exec1(LeafStmt(c), o, vars) == Conclude(c)
  {
    assert [SReturn][1..] == [];
    assert Exec([SReturn], o, vars) == Silent;
  }

  lemma OwnRuns(c: Cond, o: Obj, vars: Vars)
    ensures Exec(OwnStmts(c), o, vars) == GateVerdict(c)
  {
    if c.level != NoVerdict {
      assert OwnStmts(c)[1..] == [];
      assert Exec1(VerdictStmt(c), o, vars) == GateVerdict(c);
    }
  }

  lemma {:induction false} CondRuns(m: Model, i: nat, o: Obj, vars: Vars)
    requires Bounded(m) && Compiles(m) && i < |m.cnd| && CountersSet(m, o, vars)
    ensures Exec1(CondStmt(m, i), o, vars) == CondMeaning(m, i, o)
    decreases |m.cnd| - i, 0, 0
  {
    hide HasKids, Heads, UnitsStmts, FirstOf, TextExpr, CountersSet;
    var c := m.cnd[i];
    EmittedMeansWritten(m, c.expr, o, vars);
    if HasKids(m.cnd, i) {
      KidsAbove(m.cnd, i);
      var body := UnitsStmts(m, Heads(m.cnd, i, 0), i + 1);
      UnitsRun(m, Heads(m.cnd, i, 0), i + 1, o, vars);
      OwnRuns(c, o, vars);
      ExecAppend(body, OwnStmts(c), o, vars);
    } else {
      LeafRuns(c, o, vars);
    }
  }

  lemma {:induction false} UnitRuns(m: Model, h: nat, o: Obj, vars: Vars)
    requires Bounded(m) && Compiles(m) && h < |m.cnd| && CountersSet(m, o, vars)
    ensures Exec1(UnitStmt(m, h), o, vars) == UnitMeaning(m, h, o)
    decreases |m.cnd| - h, 1, 0
  {
    hide Members, CondStmt, CondMeaning, RunExpr, LeafStmt, RunHolds, CountersSet;
    if |Members(m.cnd, h)| == 1 {
      CondRuns(m, h, o, vars);
    } else {
      MembersOk(m, h);
      RunTestMeans(m, Members(m.cnd, h), o, vars);
      LeafRuns(m.cnd[RunEnd(m.cnd, h)], o, vars);
    }
  }

  lemma {:induction false} UnitsRun(m: Model, heads: seq<nat>, lo: nat, o: Obj, vars: Vars)
    requires Bounded(m) && Compiles(m) && lo <= |m.cnd| && HeadsIn(m.cnd, heads, lo)
    requires CountersSet(m, o, vars)
    ensures Exec(UnitsStmts(m, heads, lo), o, vars) == FirstOf(m, heads, lo, o)
    decreases |m.cnd| - lo, 2, |heads|
  {
    hide UnitStmt, UnitMeaning, CountersSet;
    if heads == [] {
      assert UnitsStmts(m, heads, lo) == [];
    } else {
      UnitRuns(m, heads[0], o, vars);
      UnitsRun(m, heads[1..], lo, o, vars);
      var ss := UnitsStmts(m, heads, lo);
      assert ss[0] == UnitStmt(m, heads[0]) && ss[1..] == UnitsStmts(m, heads[1..], lo);
      assert !ss[0].SDecl?;
    }
  }
}
