/** The whole body of kof_scan: size guard, shared calls, then the branches. */
module Generate {
  import opened TargetC
  import opened DraftModel
  import opened ExprSource
  import opened Matchers
  import opened ExprTokens
  import opened ExprMeaning
  import opened Conditions
  import opened BranchTokens
  import opened BranchMeaning
  import opened Order

  // ---- what is written -----------------------------------------------------------------

  function SizeToks(m: Model): seq<Tok> {
    if m.sizeMax.None? then []
    else [KIf, LPar, ObjSize, Gt, Num(m.sizeMax.value), RPar, Newline, KReturn, Semi, Newline, Newline]
  }

  predicate Declared(m: Model, g: nat)
    requires g < |m.grp| <= 32
  {
    Shared(m, g) && Lead(m, g) == g
  }

  function DeclToks(m: Model, g: nat): seq<Tok>
    requires g < |m.grp| <= 32
  {
    [KUint8, Var(g), Assign, CallTok(m, g, true), Semi, Newline]
  }

  function DeclsToks(m: Model, g: nat): seq<Tok>
    requires |m.grp| <= 32
    decreases |m.grp| - g
  {
    if g >= |m.grp| then []
    else (if Declared(m, g) then DeclToks(m, g) else []) + DeclsToks(m, g + 1)
  }

  /** The text of kof_scan after its opening brace. */
  function BodyToks(m: Model): seq<Tok>
    requires |m.grp| <= 32 && Forest(m.cnd)
  {
    SizeToks(m) + DeclsToks(m, 0) + (if DeclsToks(m, 0) == [] then [] else [Newline])
      + UnitsToks(m, Written(m.cnd), 0) + [RBrace, Newline]
  }

  // ---- the statements it is --------------------------------------------------------------

  function SizeStmts(m: Model): seq<Stmt> {
    if m.sizeMax.None? then [] else [SIf(EGt(EObjSize, ENum(m.sizeMax.value)), SReturn)]
  }

  function DeclsStmts(m: Model, g: nat): seq<Stmt>
    requires |m.grp| <= 32
    decreases |m.grp| - g
  {
    if g >= |m.grp| then []
    else (if Declared(m, g) then [SDecl(g, LeafExpr(CallTok(m, g, true)))] else []) + DeclsStmts(m, g + 1)
  }

  function BodyStmts(m: Model): seq<Stmt>
    requires |m.grp| <= 32 && Forest(m.cnd)
  {
    SizeStmts(m) + (DeclsStmts(m, 0) + UnitsStmts(m, Written(m.cnd), 0))
  }

  lemma SkipNewline(t: seq<Tok>)
    ensures PStmts([Newline] + t) == PStmts(t)
  {
    assert ([Newline] + t)[1..] == t;
  }

  lemma DeclStmtRead(g: nat, c: Tok, k: seq<Tok>)
    requires Leaf(c)
    ensures PStmt([KUint8, Var(g), Assign, c, Semi] + k) == Some((SDecl(g, LeafExpr(c)), k))
  {
    var t, after := [KUint8, Var(g), Assign, c, Semi] + k, [Semi] + k;
    LeafRead(c, after);
    RelIsOr([c] + after, LeafExpr(c), after);
    hide POr, PRel;
    assert t[3..] == [c] + after;
    assert after[1..] == k;
  }

  lemma DeclRead(m: Model, g: nat, k: seq<Tok>)
    requires g < |m.grp| <= 32 && PStmts(k).Some?
    ensures PStmts(DeclToks(m, g) + k)
         == Some(([SDecl(g, LeafExpr(CallTok(m, g, true)))] + PStmts(k).value.0, PStmts(k).value.1))
  {
    hide PStmt, PStmts, CallTok, LeafExpr;
    var c := CallTok(m, g, true);
    DeclStmtRead(g, c, [Newline] + k);
    assert DeclToks(m, g) + k == [KUint8, Var(g), Assign, c, Semi] + ([Newline] + k);
    StmtsCons(DeclToks(m, g) + k, SDecl(g, LeafExpr(c)), k);
  }

  lemma {:induction false} DeclsRead(m: Model, g: nat, k: seq<Tok>, tail: seq<Stmt>, end: seq<Tok>)
    requires |m.grp| <= 32 && PStmts(k) == Some((tail, end))
    ensures PStmts(DeclsToks(m, g) + k) == Some((DeclsStmts(m, g) + tail, end))
    decreases |m.grp| - g
  {
    hide PStmts, DeclToks, CallTok;
    if g >= |m.grp| {
      assert [] + k == k && [] + tail == tail;
    } else {
      DeclsRead(m, g + 1, k, tail, end);
      var k' := DeclsToks(m, g + 1) + k;
      if Declared(m, g) {
        DeclRead(m, g, k');
        assert DeclsToks(m, g) + k == DeclToks(m, g) + k';
        var d := SDecl(g, LeafExpr(CallTok(m, g, true)));
        assert DeclsStmts(m, g) + tail == [d] + (DeclsStmts(m, g + 1) + tail);
      } else {
        assert DeclsToks(m, g) + k == k';
        assert DeclsStmts(m, g) == DeclsStmts(m, g + 1);
      }
    }
  }

  lemma ReturnRead(k: seq<Tok>)
    ensures PStmt([Newline, KReturn, Semi] + k) == Some((SReturn, k))
  {
    var t, t1 := [Newline, KReturn, Semi] + k, [KReturn, Semi] + k;
    assert t[1..] == t1 && t1[1..] == [Semi] + k && t1[2..] == k;
  }

  lemma SizeRead(m: Model, k: seq<Tok>, tail: seq<Stmt>, end: seq<Tok>)
    requires PStmts(k) == Some((tail, end))
    ensures PStmts(SizeToks(m) + k) == Some((SizeStmts(m) + tail, end))
  {
    hide PStmt, PStmts, POr, PRel;
    if m.sizeMax.None? {
      assert [] + k == k && [] + tail == tail;
    } else {
      var n := m.sizeMax.value;
      var after := [Newline] + ([Newline] + k);
      var arm := [Newline, KReturn, Semi] + after;
      var test, e := [ObjSize, Gt, Num(n)], EGt(EObjSize, ENum(n));
      GtRead(n, [RPar] + arm);
      RelIsOr(test + ([RPar] + arm), e, [RPar] + arm);
      ReturnRead(after);
      IfRead(test, e, arm, SReturn, after);
      SkipNewline(k);
      assert SizeToks(m) + k == [KIf, LPar] + test + [RPar] + arm;
      StmtsCons(SizeToks(m) + k, SIf(e, SReturn), [Newline] + k);
    }
  }

  lemma GtRead(n: nat, k: seq<Tok>)
    requires NotRel(k)
    ensures PRel([ObjSize, Gt, Num(n)] + k) == Some((EGt(EObjSize, ENum(n)), k))
  {
    var t, t1, t2 := [ObjSize, Gt, Num(n)] + k, [Gt, Num(n)] + k, [Num(n)] + k;
    assert t[1..] == t1 && t1[1..] == t2 && t2[1..] == k;
    assert PUnary(t) == Some((EObjSize, t1));
    assert PUnary(t2) == Some((ENum(n), k));
    assert PRelTail(EGt(EObjSize, ENum(n)), k) == Some((EGt(EObjSize, ENum(n)), k));
  }

  /** The generated body compiles: it reads as C, up to the brace that closes it. */
  lemma BodyRead(m: Model)
    requires Compiles(m)
    ensures PStmts(BodyToks(m)) == Some((BodyStmts(m), [RBrace, Newline]))
  {
    hide PStmt, PStmts, SizeToks, DeclsToks, UnitsToks, Written;
    var close := [RBrace, Newline];
    CloseRead();
    var units := UnitsToks(m, Written(m.cnd), 0);
    UnitsRead(m, Written(m.cnd), 0, close, [], close);
    var ss := UnitsStmts(m, Written(m.cnd), 0);
    assert ss + [] == ss;
    var gap := if DeclsToks(m, 0) == [] then [] else [Newline];
    SkipNewline(units + close);
    assert PStmts(gap + (units + close)) == Some((ss, close)) by { assert [] + (units + close) == units + close; }
    DeclsRead(m, 0, gap + (units + close), ss, close);
    SizeRead(m, DeclsToks(m, 0) + (gap + (units + close)), DeclsStmts(m, 0) + ss, close);
    assert BodyToks(m) == SizeToks(m) + (DeclsToks(m, 0) + (gap + (units + close)));
  }

  lemma CloseRead()
    ensures PStmts([RBrace, Newline]) == Some(([], [RBrace, Newline]))
  {
  }

  // ---- what it runs to --------------------------------------------------------------------

  /** The counters the declarations from g on leave behind. */
  function Counted(m: Model, g: nat, o: Obj, vars: Vars): Vars
    requires |m.grp| <= 32
    decreases |m.grp| - g
  {
    if g >= |m.grp| then vars
    else Counted(m, g + 1, o,
                 if Declared(m, g) then vars[g := Hits(o, Mask(m, g), Strs(m, g)) % 0x100] else vars)
  }

  lemma DeclEval(m: Model, g: nat, o: Obj, vars: Vars)
    requires g < |m.grp| <= 32 && Shared(m, g)
    ensures Eval(LeafExpr(CallTok(m, g, true)), o, vars) == Hits(o, Mask(m, g), Strs(m, g))
  {
  }

  lemma {:induction false} DeclsRun(m: Model, g: nat, tail: seq<Stmt>, o: Obj, vars: Vars)
    requires |m.grp| <= 32
    ensures Exec(DeclsStmts(m, g) + tail, o, vars) == Exec(tail, o, Counted(m, g, o, vars))
    decreases |m.grp| - g
  {
    hide CallTok, Declared, Hits, Mask, Strs;
    if g >= |m.grp| {
      assert [] + tail == tail;
    } else if Declared(m, g) {
      var d := SDecl(g, LeafExpr(CallTok(m, g, true)));
      var rest := DeclsStmts(m, g + 1) + tail;
      assert DeclsStmts(m, g) + tail == [d] + rest;
      assert ([d] + rest)[1..] == rest;
      DeclaredShared(m, g);
      DeclEval(m, g, o, vars);
      DeclsRun(m, g + 1, tail, o, vars[g := Hits(o, Mask(m, g), Strs(m, g)) % 0x100]);
    } else {
      assert DeclsStmts(m, g) == DeclsStmts(m, g + 1);
      DeclsRun(m, g + 1, tail, o, vars);
    }
  }

  lemma DeclaredShared(m: Model, g: nat)
    requires g < |m.grp| <= 32
    ensures Declared(m, g) <==> Shared(m, g) && Lead(m, g) == g
  {
  }

  /** Every counter a test can compare has been set by the time the tests run. */
  lemma {:induction false} CountedKeeps(m: Model, g: nat, o: Obj, vars: Vars, x: nat)
    requires |m.grp| <= 32
    ensures x < g && x in vars ==> x in Counted(m, g, o, vars) && Counted(m, g, o, vars)[x] == vars[x]
    ensures g <= x < |m.grp| && Declared(m, x) ==>
      && x in Counted(m, g, o, vars)
      && Counted(m, g, o, vars)[x] == Hits(o, Mask(m, x), Strs(m, x)) % 0x100
    decreases |m.grp| - g
  {
    hide Declared, Hits, Mask, Strs;
    if g < |m.grp| {
      var v := if Declared(m, g) then vars[g := Hits(o, Mask(m, g), Strs(m, g)) % 0x100] else vars;
      CountedKeeps(m, g + 1, o, v, x);
    }
  }

  lemma CountersAreSet(m: Model, o: Obj, vars: Vars)
    requires |m.grp| <= 32
    ensures CountersSet(m, o, Counted(m, 0, o, vars))
  {
    hide Declared, Hits, Mask, Strs, Counted, Shared, Lead;
    forall g: nat | g < |m.grp| && Shared(m, g) && Lead(m, g) == g
      ensures var c := Counted(m, 0, o, vars);
        g in c && c[g] == Hits(o, Mask(m, g), Strs(m, g)) % 0x100
    {
      DeclaredShared(m, g);
      CountedKeeps(m, 0, o, vars, g);
    }
  }

  /** Whatever the draft, the body concludes what the branches it writes conclude, taken in
      the order they are written. */
  lemma BodyRuns(m: Model, o: Obj)
    requires Bounded(m) && Compiles(m)
    ensures Exec(BodyStmts(m), o, map[])
         == if m.sizeMax.Some? && o.size > m.sizeMax.value then Silent else FirstOf(m, Written(m.cnd), 0, o)
  {
    hide Written, UnitsStmts, FirstOf, Counted, CountersSet, DeclsStmts;
    var ss := UnitsStmts(m, Written(m.cnd), 0);
    var rest := DeclsStmts(m, 0) + ss;
    var vars := Counted(m, 0, o, map[]);
    DeclsRun(m, 0, ss, o, map[]);
    CountersAreSet(m, o, map[]);
    UnitsRun(m, Written(m.cnd), 0, o, vars);
    SizeRuns(m, rest, o);
  }

  lemma SizeRuns(m: Model, rest: seq<Stmt>, o: Obj)
    ensures Exec(SizeStmts(m) + rest, o, map[])
         == if m.sizeMax.Some? && o.size > m.sizeMax.value then Silent else Exec(rest, o, map[])
  {
    if m.sizeMax.None? {
      assert [] + rest == rest;
    } else {
      var e := EGt(EObjSize, ENum(m.sizeMax.value));
      var s := SIf(e, SReturn);
      assert SizeStmts(m) + rest == [s] + rest;
      assert ([s] + rest)[1..] == rest;
      assert Eval(e, o, map[]) == B(o.size > m.sizeMax.value);
      assert Exec1(s, o, map[]) == if o.size > m.sizeMax.value then Silent else Fell;
    }
  }

  /** Compilation preserves meaning: for every forest whose runs begin with their strongest
      verdict and every object, reading the emitted tokens as C and running them gives the
      verdict the forest stands for, its branches taken strongest first. */
  lemma CompilationPreservesMeaning(m: Model, o: Obj)
    requires Bounded(m) && Forest(m.cnd) && TextsOk(m) && HeadsStrongest(m.cnd)
    ensures PStmts(BodyToks(m)) == Some((BodyStmts(m), [RBrace, Newline]))
    ensures Exec(BodyStmts(m), o, map[]) == Meaning(m, o)
  {
    hide PStmts, BodyToks, BodyStmts, Written, Ordered, FirstOf;
    BodyRead(m);
    BodyRuns(m, o);
    WrittenSorted(m.cnd);
  }
}
