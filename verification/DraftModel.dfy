/** The draft: everything a signature being written consists of. */
module DraftModel {
  import opened TargetC

  const MAX_DECL: nat := 32
  const MAX_GROUP: nat := 8
  const EXPR_ROOM: nat := 64
  const SCAN_ALL: bv32 := 1

  /** A marker. `grp` has a bit for every matcher that uses it; `mask` is where it is looked
      for. The rest is what the change stamp mixes in. */
  datatype Decl = Decl(grp: bv32, mask: bv32, len: nat, hex: nat, fullword: nat, icase: nat,
                       hexs: seq<bv8>, bytes: seq<bv8>)

  datatype Kind = Str | Sim

  const SIM_IT_BLOCK: nat := 0

  datatype SimItem = SimItem(what: nat, blk: nat)

  /** A matcher. `rule`: 0 wants every marker, 1 one of them, 2 `thresh` of them, 3 one at a place. */
  datatype Group = Group(rule: nat, thresh: nat, place: Place, mask: bv32, kind: Kind,
                         sim: seq<SimItem>, pct: nat, note: seq<bv8>)

  datatype Join = JoinOr | JoinAnd

  /** A condition. `op` joins the ids inside `expr` (true is or), `join` says whether its next
      sibling is conjoined with it, `parent` is -1 at the top. */
  datatype Cond = Cond(expr: string, op: bool, join: Join, level: Level, varKind: nat,
                       variant: string, parent: int)

  /** A block of a similarity rule; `len` is 0 when this object does not hold it. */
  datatype Block = Block(id: bv32, norm: nat, anywhere: nat, picked: bool, off: nat, len: nat)

  /** An optional declaration; `auto` when its value is not the author's. */
  datatype Opt = Opt(on: bool, val: nat, auto: bool)

  const OPT_SIZE_MAX: nat := 1
  const OPT_COUNT: nat := 4

  /** One state of a draft, as the functions that only read it see it. */
  datatype Model = Model(decl: seq<Decl>, grp: seq<Group>, cnd: seq<Cond>, blk: seq<Block>,
                         sizeMax: Option<nat>)

  /** The bounds the panel never lets a draft past. */
  ghost predicate Bounded(m: Model) {
    && |m.decl| <= MAX_DECL
    && |m.grp| <= MAX_GROUP
    && |m.cnd| <= MAX_GROUP
    && forall k :: 0 <= k < |m.cnd| ==> |m.cnd[k].expr| < EXPR_ROOM
  }

  /** Every condition sits inside an earlier one, or inside none. */
  ghost predicate Forest(cnd: seq<Cond>) {
    forall k :: 0 <= k < |cnd| ==> -1 <= cnd[k].parent < k
  }

  /** The editor's own copy, updated in place. The arrays of the struct are held as the live
      prefix of each. */
  class Draft {
    var decl: seq<Decl>
    var grp: seq<Group>
    var cnd: seq<Cond>
    var blk: seq<Block>
    var opt: seq<Opt>
    var rngAdd: seq<bv32>
    var curGrp: nat
    var curCnd: nat

    constructor ()
      ensures Valid()
      ensures Snap() == Model([], [], [], [], None) && rngAdd == [] && curGrp == 0 && curCnd == 0
    {
      decl, grp, cnd, blk, rngAdd := [], [], [], [], [];
      opt := seq(OPT_COUNT, _ => Opt(false, 0, false));
      curGrp, curCnd := 0, 0;
    }

    ghost predicate Valid() reads this { |opt| == OPT_COUNT }

    function Snap(): Model
      reads this
      requires Valid()
    {
      Model(decl, grp, cnd, blk, if opt[OPT_SIZE_MAX].on then Some(opt[OPT_SIZE_MAX].val) else None)
    }
  }

  /** The file being written. */
  class Sink {
    var toks: seq<Tok>

    constructor ()
      ensures toks == []
    {
      toks := [];
    }

    method Put(t: seq<Tok>)
      modifies this
      ensures toks == old(toks) + t
    {
      toks := toks + t;
    }
  }
}
