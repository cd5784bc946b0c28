/** The language a signature body is generated into: the part of C that `generate` writes.

    A generated body is modelled as the tokens of C11 (one token per search call, with its
    arguments), with `Newline` kept because the editor reads its own output back line by
    line. A call carries the mask of its range where the C has the range's name: ranges are taken
    to have names of their own. `POr`..`PUnary` read expressions under the precedence of sections
    6.5.3.3 (unary !), 6.5.8 (relational), 6.5.13 (&&) and 6.5.14 (||) of C11; `PStmt` and
    `PStmts` read statements; `Eval` and `Exec` run what was read. */
module TargetC {

  datatype Option<+T> = None | Some(value: T)

  datatype FindKind = FindAll | FindAny | FindMulti

  /** enum kof_anchor with a signed step from it. */
  datatype Place = Place(anchor: nat, step: int)

  datatype Level = Infect | Suspect | NoVerdict

  datatype Variant = Auto | Generic | Custom(name: string)

  datatype Tok =
    | KIf | KReturn | KUint8
    | LPar | RPar | LBrace | RBrace | Semi | Assign | Newline
    | Bang | AndAnd | OrOr | Ge | Gt
    | Num(n: nat)
    | Var(id: nat)                                        // m<id+1>
    | Find(kind: FindKind, range: bv32, strs: seq<nat>)   // kof_find_str_<kind>(range, s..)
    | FindAt(place: Place, strs: seq<nat>)                // kof_find_str_at(place, s)
    | Score(blk: bv32)                                    // kof_mutation_score(blk_..)
    | ObjSize                                             // ctx->obj_size
    | Scan(level: Level, variant: Variant)                // KOF_SCAN_<level>(variant)
    | Raw(text: string)                                   // part of a token a line was cut in

  datatype Expr =
    | ENum(n: nat) | EVar(id: nat) | EObjSize
    | EFind(kind: FindKind, range: bv32, strs: seq<nat>)
    | EFindAt(place: Place, strs: seq<nat>)
    | EScore(blk: bv32)
    | ENot(e: Expr)
    | EGe(a: Expr, b: Expr) | EGt(a: Expr, b: Expr)
    | EAnd(a: Expr, b: Expr) | EOr(a: Expr, b: Expr)

  datatype Stmt =
    | SIf(cond: Expr, arm: Stmt)
    | SBlock(body: seq<Stmt>)
    | SReturn
    | SScan(level: Level, variant: Variant)
    | SDecl(id: nat, init: Expr)                          // uint8_t m<id+1> = init;

  /** What one object answers: which declared strings its regions hold, which places hold
      which string, how much of each block it carries, and its size. */
  datatype Obj = Obj(found: (bv32, nat) -> bool, at: (Place, nat) -> bool,
                     score: bv32 -> nat, size: nat)

  /** The counter variables set so far. */
  type Vars = map<nat, nat>

  datatype Outcome = Fell | Silent | Report(level: Level, variant: Variant)

  function B(b: bool): nat { if b then 1 else 0 }

  /** How many of `strs` the range holds - what kof_find_str_multi adds up. */
  function Hits(o: Obj, range: bv32, strs: seq<nat>): (n: nat)
    ensures n <= |strs|
    ensures n == 0 <==> forall s :: s in strs ==> !o.found(range, s)
    ensures n == |strs| <==> forall s :: s in strs ==> o.found(range, s)
  {
    if strs == [] then 0 else
      assert strs == [strs[0]] + strs[1..];
      B(o.found(range, strs[0])) + Hits(o, range, strs[1..])
  }

  function Eval(e: Expr, o: Obj, vars: Vars): nat {
    match e
    case ENum(n) => n
    case EVar(id) => if id in vars then vars[id] else 0
    case EObjSize => o.size
    case EFind(kind, range, strs) =>
      (match kind
       case FindAll => B(forall s :: s in strs ==> o.found(range, s))
       case FindAny => B(exists s :: s in strs && o.found(range, s))
       case FindMulti => Hits(o, range, strs))
    case EFindAt(place, strs) => if strs == [] then 0 else B(o.at(place, strs[0]))
    case EScore(blk) => o.score(blk)
    case ENot(a) => B(Eval(a, o, vars) == 0)
    case EGe(a, b) => B(Eval(a, o, vars) >= Eval(b, o, vars))
    case EGt(a, b) => B(Eval(a, o, vars) > Eval(b, o, vars))
    case EAnd(a, b) => B(Eval(a, o, vars) != 0 && Eval(b, o, vars) != 0)
    case EOr(a, b) => B(Eval(a, o, vars) != 0 || Eval(b, o, vars) != 0)
  }

  /** Statements in order: the first verdict or return ends the body, and a declaration is
      an 8-bit variable the statements after it see. */
  function Exec(ss: seq<Stmt>, o: Obj, vars: Vars): Outcome
    decreases ss
  {
    if ss == [] then Fell
    else if ss[0].SDecl? then
      Exec(ss[1..], o, vars[ss[0].id := Eval(ss[0].init, o, vars) % 0x100])
    else
      var r := Exec1(ss[0], o, vars);
      if r.Fell? then Exec(ss[1..], o, vars) else r
  }

  function Exec1(s: Stmt, o: Obj, vars: Vars): Outcome
    decreases s
  {
    match s
    case SIf(c, t) => if Eval(c, o, vars) != 0 then Exec1(t, o, vars) else Fell
    case SBlock(b) => Exec(b, o, vars)
    case SReturn => Silent
    case SScan(level, variant) => Report(level, variant)
    case SDecl(_, _) => Fell
  }

  // ---- reading tokens back, by the grammar of C11 -------------------------------------

  type Parsed<T> = Option<(T, seq<Tok>)>

  function First(t: seq<Tok>): Tok { if t == [] then Newline else t[0] }

  predicate Leaf(t: Tok) { t.Num? || t.Var? || t.ObjSize? || t.Find? || t.FindAt? || t.Score? }

  function LeafExpr(t: Tok): Expr
    requires Leaf(t)
  {
    match t
    case Num(n) => ENum(n)
    case Var(id) => EVar(id)
    case ObjSize => EObjSize
    case Find(kind, range, strs) => EFind(kind, range, strs)
    case FindAt(place, strs) => EFindAt(place, strs)
    case Score(blk) => EScore(blk)
  }

  function PPrimary(t: seq<Tok>): (r: Parsed<Expr>)
    ensures r.Some? ==> |r.value.1| < |t|
    decreases |t|, 0
  {
    if t == [] then None
    else if Leaf(t[0]) then Some((LeafExpr(t[0]), t[1..]))
    else if t[0] == LPar then
      var r := POr(t[1..]);
      if r.Some? && First(r.value.1) == RPar then Some((r.value.0, r.value.1[1..])) else None
    else None
  }

  function PUnary(t: seq<Tok>): (r: Parsed<Expr>)
    ensures r.Some? ==> |r.value.1| < |t|
    decreases |t|, 1
  {
    if First(t) == Bang then
      var r := PUnary(t[1..]);
      if r.Some? then Some((ENot(r.value.0), r.value.1)) else None
    else PPrimary(t)
  }

  function PRelTail(a: Expr, t: seq<Tok>): (r: Parsed<Expr>)
    ensures r.Some? ==> |r.value.1| <= |t|
    decreases |t|, 2
  {
    if First(t) == Ge || First(t) == Gt then
      var r := PUnary(t[1..]);
      if r.None? then None
      else PRelTail(if t[0] == Ge then EGe(a, r.value.0) else EGt(a, r.value.0), r.value.1)
    else Some((a, t))
  }

  function PRel(t: seq<Tok>): (r: Parsed<Expr>)
    ensures r.Some? ==> |r.value.1| < |t|
    decreases |t|, 3
  {
    var r := PUnary(t);
    if r.None? then None else PRelTail(r.value.0, r.value.1)
  }

  function PAndTail(a: Expr, t: seq<Tok>): (r: Parsed<Expr>)
    ensures r.Some? ==> |r.value.1| <= |t|
    decreases |t|, 4
  {
    if First(t) == AndAnd then
      var r := PRel(t[1..]);
      if r.None? then None else PAndTail(EAnd(a, r.value.0), r.value.1)
    else Some((a, t))
  }

  function PAnd(t: seq<Tok>): (r: Parsed<Expr>)
    ensures r.Some? ==> |r.value.1| < |t|
    decreases |t|, 5
  {
    var r := PRel(t);
    if r.None? then None else PAndTail(r.value.0, r.value.1)
  }

  function POrTail(a: Expr, t: seq<Tok>): (r: Parsed<Expr>)
    ensures r.Some? ==> |r.value.1| <= |t|
    decreases |t|, 6
  {
    if First(t) == OrOr then
      var r := PAnd(t[1..]);
      if r.None? then None else POrTail(EOr(a, r.value.0), r.value.1)
    else Some((a, t))
  }

  function POr(t: seq<Tok>): (r: Parsed<Expr>)
    ensures r.Some? ==> |r.value.1| < |t|
    decreases |t|, 7
  {
    var r := PAnd(t);
    if r.None? then None else POrTail(r.value.0, r.value.1)
  }

  function PStmt(t: seq<Tok>): (r: Parsed<Stmt>)
    ensures r.Some? ==> |r.value.1| < |t|
    decreases |t|, 0
  {
    if t == [] then None else
    match t[0]
    case Newline => PStmt(t[1..])
    case KReturn => if First(t[1..]) == Semi then Some((SReturn, t[2..])) else None
    case Scan(level, variant) =>
      if First(t[1..]) == Semi then Some((SScan(level, variant), t[2..])) else None
    case LBrace =>
      var r := PStmts(t[1..]);
      if r.Some? && First(r.value.1) == RBrace then Some((SBlock(r.value.0), r.value.1[1..])) else None
    case KUint8 =>
      if |t| >= 3 && t[1].Var? && t[2] == Assign then
        var r := POr(t[3..]);
        if r.Some? && First(r.value.1) == Semi then Some((SDecl(t[1].id, r.value.0), r.value.1[1..])) else None
      else None
    case KIf =>
      if First(t[1..]) != LPar then None else
      var c := POr(t[2..]);
      if c.None? || First(c.value.1) != RPar then None else
      var s := PStmt(c.value.1[1..]);
      if s.None? || s.value.0.SDecl? then None else Some((SIf(c.value.0, s.value.0), s.value.1))
    case _ => None
  }

  /** Statements up to a closing brace or the end. */
  function PStmts(t: seq<Tok>): (r: Parsed<seq<Stmt>>)
    ensures r.Some? ==> |r.value.1| <= |t|
    decreases |t|, 1
  {
    if t == [] || t[0] == RBrace then Some(([], t))
    else if t[0] == Newline then PStmts(t[1..])
    else
      var s := PStmt(t);
      if s.None? then None else
      var r := PStmts(s.value.1);
      if r.None? then None else Some(([s.value.0] + r.value.0, r.value.1))
  }
}
