/** Drafts made from the calls they are to write: for the inputs at which a promise fails. */
module Samples {
  import opened TargetC
  import opened DraftModel
  import opened ExprSource
  import opened Matchers
  import opened ExprTokens
  import opened Conditions
  import opened IdList
  import opened IdRoom
  import opened IdEdits
  import opened DraftEdits
  import opened Refusals
  import opened Closed
  import opened Lines
  import opened CallText
  import opened Reader
  import opened Rebuild
  import opened ReadMeaning
  import opened RoundTrip
  import opened Reopen

  // ---- one range, the whole file ----------------------------------------------------------

  const WHOLE_FILE: string := "scan_range_whole_file"

  lemma WholeFileName()
    ensures IsName(WHOLE_FILE)
  {
    forall i | 0 <= i < |WHOLE_FILE|
      ensures NameChar(WHOLE_FILE[i])
    {
      assert WHOLE_FILE[i] in WHOLE_FILE;
    }
  }

  function WholeFile(): Naming {
    WholeFileName();
    (r: bv32) => WHOLE_FILE
  }

  function OneRange(): Header { Header(WholeFile(), [SCAN_ALL]) }

  lemma WholeFound(r: bv32)
    ensures WholeFile()(r) == WHOLE_FILE && |WHOLE_FILE| == 21
    ensures MaskOf(OneRange(), Hold(WHOLE_FILE)) == SCAN_ALL
  {
    var h := OneRange();
    assert h.ranges == [SCAN_ALL] && h.name(SCAN_ALL) == WHOLE_FILE;
    assert LastNamed(h, Hold(WHOLE_FILE), 1) == h.ranges[0];
  }

  // ---- markers with the bits of the calls that list them ----------------------------------

  function Blank(n: nat): (r: seq<Decl>)
    ensures |r| == n && Unmarked(r)
  {
    seq(n, _ => Decl(0, 0, 0, 0, 0, 0, [], []))
  }

  function Bits(calls: seq<RLit>, n: nat): (r: seq<Decl>)
    requires |calls| <= MAX_GROUP
    ensures |r| == n
  {
    if calls == [] then Blank(n)
    else
      var k := |calls| - 1;
      Marked(Bits(calls[..k], n), IdsOf(StrsOf(calls[k].call)), k)
  }

  lemma {:induction false} BitsWired(calls: seq<RLit>, n: nat)
    requires |calls| <= MAX_GROUP
    ensures Wired(Bits(calls, n), calls)
    decreases |calls|
  {
    hide Wired, Marked, IdsOf, StrsOf;
    if calls == [] {
      BlankWired(n);
    } else {
      var k := |calls| - 1;
      BitsWired(calls[..k], n);
      MarkedWired(Bits(calls[..k], n), calls[..k], calls[k]);
      assert calls[..k] + [calls[k]] == calls;
    }
  }

  lemma BlankWired(n: nat)
    ensures Wired(Blank(n), [])
  {
    hide Bit;
    forall i: nat, j: nat | i < n && j < MAX_GROUP
      ensures Bit(Blank(n)[i].grp, j) <==> Names([], j, i)
    {
      NoBit(j);
    }
  }

  function DraftOf(calls: seq<RLit>, n: nat, cnd: seq<Cond>): (m: Model)
    requires |calls| <= MAX_GROUP
    ensures |m.grp| == |calls| && m.cnd == cnd && m.sizeMax == None && |m.decl| == n
  {
    Model(Bits(calls, n), Groups(calls, OneRange()), cnd, [], None)
  }

  // ---- calls a draft can be made of -------------------------------------------------------

  /** Searches of the whole file, for a few markers each. */
  predicate PlainCall(l: RLit, n: nat) {
    && l.call.Find? && l.call.range == SCAN_ALL && Rising(l.call.strs) && 0 < |l.call.strs| <= CALL_MAX
    && (forall i :: 0 <= i < |l.call.strs| ==> l.call.strs[i] < n)
    && l.thresh < 0x1_0000_0000 && (l.call.kind != FindMulti ==> l.thresh == 0)
  }

  ghost predicate Claimed(calls: seq<RLit>, i: nat) { exists j :: 0 <= j < |calls| && i in StrsOf(calls[j].call) }

  /** No two for the same markers, and no marker left out. */
  ghost predicate PlainCalls(calls: seq<RLit>, n: nat) {
    && |calls| <= MAX_GROUP && n <= MAX_DECL
    && (forall j :: 0 <= j < |calls| ==> PlainCall(calls[j], n))
    && (forall a, b :: 0 <= a < b < |calls| ==> StrsOf(calls[a].call) != StrsOf(calls[b].call))
    && forall i: nat :: i < n ==> Claimed(calls, i)
  }

  lemma SearchOk(calls: seq<RLit>, n: nat, j: nat)
    requires PlainCalls(calls, n) && j < |calls|
    ensures CallOk(calls[j].call, n, OneRange()) && LitOk(calls[j])
  {
    hide Hold, MaskOf;
    WholeFound(SCAN_ALL);
    var strs := calls[j].call.strs;
    assert PlainCall(calls[j], n);
    forall s | s in strs
      ensures s < n
    {
      var i :| 0 <= i < |strs| && strs[i] == s;
    }
  }

  /** Matcher j asks what call j says. */
  lemma SearchIs(calls: seq<RLit>, n: nat, cnd: seq<Cond>, j: nat)
    requires PlainCalls(calls, n) && j < |calls|
    ensures var m := DraftOf(calls, n, cnd); var call := calls[j].call;
      && |m.grp| <= 32 && Strs(m, j) == call.strs && Mask(m, j) == SCAN_ALL && CallTok(m, j, false) == call
      && m.grp[j].kind == Str && m.grp[j].thresh == calls[j].thresh && !IsAt(m.grp[j])
  {
    hide Strs, StrsFrom, Need, MaskOf, Hold, Bits, Rising, IdsOf;
    var m := DraftOf(calls, n, cnd);
    SearchOk(calls, n, j);
    BitsWired(calls, n);
    assert PlainCall(calls[j], n);
    StrsRead(m, calls, j);
    WholeFound(SCAN_ALL);
    assert m.grp[j] == Became(calls[j], OneRange());
  }

  lemma SearchesDiffer(calls: seq<RLit>, n: nat, cnd: seq<Cond>, a: nat, b: nat)
    requires PlainCalls(calls, n) && a < |calls| && b < |calls| && a != b
    ensures |calls| <= 32 && !SameSet(DraftOf(calls, n, cnd), a, b)
  {
    hide Strs, StrsFrom, Mask, Bits, Bit, IsAt, CallTok, Groups;
    var m := DraftOf(calls, n, cnd);
    SearchIs(calls, n, cnd, a);
    SearchIs(calls, n, cnd, b);
    assert PlainCall(calls[a], n) && PlainCall(calls[b], n);
    if SameSet(m, a, b) {
      RisingUnique(Strs(m, a), Strs(m, b));
      assert false;
    }
  }

  lemma MarkerUsed(calls: seq<RLit>, n: nat, cnd: seq<Cond>, i: nat)
    requires PlainCalls(calls, n) && i < n
    ensures DraftOf(calls, n, cnd).decl[i].grp != 0
  {
    hide Bit, Bits, StrsOf;
    BitsWired(calls, n);
    var m := DraftOf(calls, n, cnd);
    assert Claimed(calls, i);
    var j: nat :| j < |calls| && i in StrsOf(calls[j].call);
    assert Bit(m.decl[i].grp, j) <==> Names(calls, j, i);
    NoBit(j);
  }

  ghost predicate Consulted(cnd: seq<Cond>, g: nat) { exists k :: 0 <= k < |cnd| && Uses(cnd[k].expr, g) }

  /** Nothing is refused once every condition tests something and every matcher is tested. */
  lemma SampleReady(calls: seq<RLit>, n: nat, cnd: seq<Cond>)
    requires PlainCalls(calls, n) && cnd != [] && forall k :: 0 <= k < |cnd| ==> cnd[k].expr != ""
    requires forall g: nat :: g < |calls| ==> Consulted(cnd, g)
    ensures Ready(DraftOf(calls, n, cnd), [])
    ensures forall g :: 0 <= g < |calls| ==> !Shared(DraftOf(calls, n, cnd), g)
  {
    hide Strs, Mask, Uses, SameSet, Threshold, IsAt, DraftOf, CallTok, Rising;
    var m := DraftOf(calls, n, cnd);
    forall g: nat | g < |calls|
      ensures |m.grp| <= 32 && m.grp[g].kind == Str && !IsAt(m.grp[g]) && 0 < |Strs(m, g)| <= CALL_MAX
    {
      SearchIs(calls, n, cnd, g);
      assert PlainCall(calls[g], n);
    }
    forall a: nat, b: nat | a < |calls| && b < |calls| && a != b
      ensures !SameSet(m, a, b)
    {
      SearchesDiffer(calls, n, cnd, a, b);
    }
    forall i: nat | i < n
      ensures m.decl[i].grp != 0
    {
      MarkerUsed(calls, n, cnd, i);
    }
    forall r: Refusal
      ensures !Wrong(m, [], r)
    {
      NotWrong(m, r);
    }
  }

  lemma NotWrong(m: Model, r: Refusal)
    requires |m.grp| <= 32 && m.cnd != [] && forall k :: 0 <= k < |m.cnd| ==> m.cnd[k].expr != ""
    requires forall g: nat :: g < |m.grp| ==> m.grp[g].kind == Str && !IsAt(m.grp[g]) && 0 < |Strs(m, g)| <= CALL_MAX
    requires forall a: nat, b: nat :: a < |m.grp| && b < |m.grp| && a != b ==> !SameSet(m, a, b)
    requires forall i: nat :: i < |m.decl| ==> m.decl[i].grp != 0
    requires forall g: nat :: g < |m.grp| ==> Consulted(m.cnd, g)
    ensures !Wrong(m, [], r)
  {
    hide Strs, Mask, SameSet, Threshold, IsAt, Uses, HasKids;
    match r
    case MatcherUnused(g) => if g < |m.grp| { assert Consulted(m.cnd, g); }
    case _ =>
  }

  // ---- a condition over calls lo to hi ----------------------------------------------------

  lemma UsesEach(s: seq<RLit>, base: nat, op: bool, g: nat)
    requires base + |s| <= MAX_GROUP && base <= g < base + |s|
    ensures Uses(Print(Numbered(s, base), op), g)
  {
    hide Print, Ids;
    var lits := Numbered(s, base);
    NumberedSmall(s, base);
    SmallFits(lits, op);
    FirstLitSome(lits, g + 1);
    assert lits[g - base].n == g + 1;
  }

  lemma ListText(s: seq<RLit>, base: nat, op: bool, n: nat)
    requires s != [] && base + |s| <= n <= MAX_GROUP
    ensures var text := Print(Numbered(s, base), op);
      text != "" && |text| < EXPR_ROOM && RowList(text, op, n) && Ids(text) == Numbered(s, base)
  {
    hide Print, Ids;
    var lits := Numbered(s, base);
    NumberedSmall(s, base);
    SmallFits(lits, op);
    PrintNone(lits, op);
    RowListOf(lits, op, n);
  }
}
