/** What the reader makes of a body of plain branches: the lines of each, and the conditions and
    matchers they come back as. */
module Rebuild {
  import opened TargetC
  import opened DraftModel
  import opened ExprSource
  import opened IdList
  import opened IdRoom
  import opened Lines
  import opened CallText
  import opened Reader
  import opened Matchers
  import opened IdEdits

  // ---- plain branches ---------------------------------------------------------------------

  /** One call in a test, with what it is compared against and whether it must fail. */
  datatype RLit = RLit(call: Tok, thresh: nat, neg: bool)

  /** The calls of one test, joined by one word. */
  datatype RTest = RTest(op: bool, lits: seq<RLit>)

  datatype RLeaf = RLeaf(test: RTest, level: Level, variant: Variant)

  datatype RTop = TLeaf(leaf: RLeaf) | TGate(test: Option<RTest>, kids: seq<RLeaf>, level: Level, variant: Variant)

  predicate LitOk(l: RLit) {
    Whole(l.call) && l.thresh < 0x1_0000_0000
  }

  predicate TestOk(t: RTest) { t.lits != [] && forall i :: 0 <= i < |t.lits| ==> LitOk(t.lits[i]) }

  /** A variant the panel takes - letters, digits, "-" and "_" - and no word the reader looks for. */
  predicate NameOk(v: Variant) {
    v.Custom? ==>
      && (forall i :: 0 <= i < |v.name| ==> NameChar(v.name[i]) || v.name[i] == '-')
      && |v.name| < VARIANT_ROOM && !Word(v.name, "SUSPECT", 0) && !Word(v.name, "KOF_MALVAR_GENERIC", 0)
  }

  predicate LeafOk(x: RLeaf) { TestOk(x.test) && NameOk(x.variant) }

  // ---- their lines ------------------------------------------------------------------------

  function CmpToks(l: RLit): seq<Tok> { [l.call] + if RuleOf(l.call) == 2 then [Ge, Num(l.thresh)] else [] }

  function LitToks(l: RLit): seq<Tok> { if l.neg then [Bang, LPar] + CmpToks(l) + [RPar] else CmpToks(l) }

  function JoinTok(op: bool): Tok { if op then OrOr else AndAnd }

  function TailToks(op: bool, lits: seq<RLit>): seq<Tok> {
    if lits == [] then [] else [JoinTok(op)] + LitToks(lits[0]) + TailToks(op, lits[1..])
  }

  function TestToks(t: RTest): seq<Tok> {
    if t.lits == [] then [] else LitToks(t.lits[0]) + TailToks(t.op, t.lits[1..])
  }

  function IfLine(t: RTest): seq<Tok> { [KIf, LPar] + TestToks(t) + [RPar] }

  function ScanLine(level: Level, variant: Variant): seq<Tok> { [Scan(level, variant), Semi] }

  function LeafLines(x: RLeaf): seq<seq<Tok>> {
    if x.level == NoVerdict then [IfLine(x.test) + [LBrace], [KReturn, Semi], [RBrace]]
    else [IfLine(x.test), ScanLine(x.level, x.variant)]
  }

  function KidsLines(s: seq<RLeaf>): seq<seq<Tok>> { if s == [] then [] else LeafLines(s[0]) + KidsLines(s[1..]) }

  function HeadLine(test: Option<RTest>): seq<Tok> { (if test.Some? then IfLine(test.value) else []) + [LBrace] }

  function TopLines(x: RTop): seq<seq<Tok>> {
    match x
    case TLeaf(leaf) => LeafLines(leaf)
    case TGate(test, kids, level, variant) =>
      [HeadLine(test)] + KidsLines(kids) + (if level == NoVerdict then [] else [ScanLine(level, variant)]) + [[RBrace]]
  }

  function TopsLines(s: seq<RTop>): seq<seq<Tok>> { if s == [] then [] else TopLines(s[0]) + TopsLines(s[1..]) }

  /** Lines as the tokens between newlines. */
  function Text(s: seq<seq<Tok>>): seq<Tok> { if s == [] then [] else s[0] + [Newline] + Text(s[1..]) }

  function ReadLines(st: RState, s: seq<seq<Tok>>, h: Header): RState
    decreases |s|
  {
    if s == [] then st else ReadLines(ReadLine(st, s[0], h), s[1..], h)
  }

  lemma {:induction false} LineLenIs(a: seq<Tok>, b: seq<Tok>)
    requires Newline !in a
    ensures LineLen(a + [Newline] + b) == |a|
    decreases |a|
  {
    var t := a + [Newline] + b;
    if a == [] {
      assert t[0] == Newline;
    } else {
      assert t[1..] == a[1..] + [Newline] + b;
      LineLenIs(a[1..], b);
    }
  }

  lemma {:induction false} ReadText(st: RState, s: seq<seq<Tok>>, rest: seq<Tok>, h: Header)
    requires forall i :: 0 <= i < |s| ==> Newline !in s[i]
    ensures ReadWhole(st, Text(s) + rest, h) == ReadWhole(ReadLines(st, s, h), rest, h)
    decreases |s|
  {
    hide ReadLine;
    if s == [] {
      assert Text(s) + rest == rest;
    } else {
      var more := Text(s[1..]) + rest;
      assert Text(s) + rest == s[0] + [Newline] + more;
      LineLenIs(s[0], more);
      var t := s[0] + [Newline] + more;
      assert t[..|s[0]|] == s[0] && t[|s[0]| + 1..] == more;
      ReadText(ReadLine(st, s[0], h), s[1..], rest, h);
    }
  }

  lemma {:induction false} ReadLinesAppend(st: RState, a: seq<seq<Tok>>, b: seq<seq<Tok>>, h: Header)
    ensures ReadLines(st, a + b, h) == ReadLines(ReadLines(st, a, h), b, h)
    decreases |a|
  {
    hide ReadLine;
    if a == [] {
      assert a + b == b;
    } else {
      assert (a + b)[1..] == a[1..] + b;
      ReadLinesAppend(ReadLine(st, a[0], h), a[1..], b, h);
    }
  }

  // ---- the calls of a test ----------------------------------------------------------------

  function AddLit(st: RState, l: RLit, h: Header): RState {
    Call(st, Some(AskedOf(l.call, h)), l.neg, l.thresh)
  }

  function AddLits(st: RState, s: seq<RLit>, h: Header): RState
    decreases |s|
  {
    if s == [] then st else AddLits(AddLit(st, s[0], h), s[1..], h)
  }

  /** Nothing in front of token i negates it. */
  predicate Fresh(line: seq<Tok>, i: nat)
    requires i <= |line|
  {
    !NegatedAt(line, i)
  }

  lemma CallsSkip(st: RState, line: seq<Tok>, i: nat, h: Header)
    requires i < |line| && !IsCall(line[i])
    ensures Calls(st, line, i, h) == Calls(st, line, i + 1, h)
  {
    hide Call;
  }

  /** Only a counting call reads the number it is compared against. */
  lemma ThreshUnused(st: RState, a: Asked, neg: bool, x: nat, y: nat)
    requires a.rule != 2 || x == y
    ensures Call(st, Some(a), neg, x) == Call(st, Some(a), neg, y)
  {
    assert GroupOf(a, x) == GroupOf(a, y);
  }

  lemma CallsOne(st: RState, line: seq<Tok>, i: nat, l: RLit, h: Header)
    requires i < |line| && line[i] == l.call && LitOk(l) && NegatedAt(line, i) == l.neg
    requires RuleOf(l.call) == 2 ==> i + 2 < |line| && line[i + 1] == Ge && line[i + 2] == Num(l.thresh)
    ensures Calls(st, line, i, h) == Calls(AddLit(st, l, h), line, i + 1, h)
  {
    hide Call, Asks, AskedOf, Word;
    WholeRead(l.call, h);
    RuleAsked(l.call, h);
    if RuleOf(l.call) == 2 {
      assert !IsGe(line[i]);
      assert ThreshAt(line, i) == ThreshAt(line, i + 1) == l.thresh;
    }
    ThreshUnused(st, AskedOf(l.call, h), l.neg, ThreshAt(line, i), l.thresh);
  }

  lemma RuleAsked(t: Tok, h: Header)
    ensures AskedOf(t, h).rule == RuleOf(t) && AskedOf(t, h).ids == IdsOf(StrsOf(t))
  {
  }

  lemma CmpRead(st: RState, line: seq<Tok>, i: nat, l: RLit, h: Header)
    requires LitOk(l) && i + |CmpToks(l)| <= |line| && line[i..i + |CmpToks(l)|] == CmpToks(l)
    requires NegatedAt(line, i) == l.neg
    ensures Calls(st, line, i, h) == Calls(AddLit(st, l, h), line, i + |CmpToks(l)|, h)
  {
    hide Call, Calls, NegatedAt;
    var w := line[i..i + |CmpToks(l)|];
    assert line[i] == w[0] == l.call;
    if RuleOf(l.call) == 2 { assert line[i + 1] == w[1] && line[i + 2] == w[2]; }
    CallsOne(st, line, i, l, h);
    if RuleOf(l.call) == 2 {
      CallsSkip(AddLit(st, l, h), line, i + 1, h);
      CallsSkip(AddLit(st, l, h), line, i + 2, h);
    }
  }

  lemma Mid(a: seq<Tok>, b: seq<Tok>, c: seq<Tok>, k: nat)
    requires k == |a|
    ensures (a + b + c)[k..k + |b|] == b
  {
  }

  lemma Within(line: seq<Tok>, i: nat, e: nat, a: nat, b: nat)
    requires i <= e <= |line| && a <= b <= e - i
    ensures line[i..e][a..b] == line[i + a..i + b]
  {
    var l, r := line[i..e][a..b], line[i + a..i + b];
    assert forall k :: 0 <= k < |l| ==> l[k] == line[i + a + k] == r[k];
    assert l == r;
  }

  lemma LitRead(st: RState, line: seq<Tok>, i: nat, l: RLit, h: Header)
    requires LitOk(l) && i + |LitToks(l)| <= |line| && line[i..i + |LitToks(l)|] == LitToks(l) && Fresh(line, i)
    ensures Calls(st, line, i, h) == Calls(AddLit(st, l, h), line, i + |LitToks(l)|, h)
  {
    hide Call, Calls, AskedOf, CmpToks, LitOk;
    var w, n := line[i..i + |LitToks(l)|], |CmpToks(l)|;
    if l.neg {
      assert line[i] == w[0] == Bang && line[i + 1] == w[1] == LPar;
      Mid([Bang, LPar], CmpToks(l), [RPar], 2);
      assert w == [Bang, LPar] + CmpToks(l) + [RPar];
      Within(line, i, i + |LitToks(l)|, 2, 2 + n);
      assert line[i + 2..i + 2 + n] == w[2..2 + n] == CmpToks(l);
      assert line[i + 2 + n] == w[2 + n] == RPar;
      CallsSkip(st, line, i, h);
      CallsSkip(st, line, i + 1, h);
      CmpRead(st, line, i + 2, l, h);
      CallsSkip(AddLit(st, l, h), line, i + 2 + n, h);
    } else {
      CmpRead(st, line, i, l, h);
    }
  }

  lemma Parts(line: seq<Tok>, i: nat, x: Tok, b: seq<Tok>, c: seq<Tok>, w: seq<Tok>)
    requires w == [x] + b + c && i + |w| <= |line| && line[i..i + |w|] == w
    ensures line[i] == x && line[i + 1..i + 1 + |b|] == b && line[i + 1 + |b|..i + |w|] == c
  {
    assert line[i] == line[i..i + |w|][0];
    var p, q := line[i + 1..i + 1 + |b|], line[i + 1 + |b|..i + |w|];
    forall k | 0 <= k < |b|
      ensures p[k] == b[k]
    {
      assert line[i + 1 + k] == line[i..i + |w|][1 + k];
    }
    forall k | 0 <= k < |c|
      ensures q[k] == c[k]
    {
      assert line[i + 1 + |b| + k] == line[i..i + |w|][1 + |b| + k];
    }
  }

  lemma TailEnd(op: bool)
    ensures TailToks(op, []) == []
  {
  }

  lemma TailCons(op: bool, s: seq<RLit>)
    requires s != []
    ensures TailToks(op, s) == [JoinTok(op)] + LitToks(s[0]) + TailToks(op, s[1..])
  {
    hide LitToks;
  }

  lemma {:induction false} TailRead(st: RState, line: seq<Tok>, i: nat, op: bool, s: seq<RLit>, h: Header)
    requires forall k :: 0 <= k < |s| ==> LitOk(s[k])
    requires i + |TailToks(op, s)| <= |line| && line[i..i + |TailToks(op, s)|] == TailToks(op, s)
    ensures Calls(st, line, i, h) == Calls(AddLits(st, s, h), line, i + |TailToks(op, s)|, h)
    decreases |s|
  {
    hide AddLit, Calls, LitToks, LitOk, TailToks;
    if s == [] {
      TailEnd(op);
    } else {
      var n := |LitToks(s[0])|;
      TailCons(op, s);
      Parts(line, i, JoinTok(op), LitToks(s[0]), TailToks(op, s[1..]), TailToks(op, s));
      CallsSkip(st, line, i, h);
      LitRead(st, line, i + 1, s[0], h);
      TailRead(AddLit(st, s[0], h), line, i + 1 + n, op, s[1..], h);
    }
  }

  /** Where the pieces of a test line are. */
  lemma TestShape(line: seq<Tok>, t: RTest, after: seq<Tok>)
    requires t.lits != [] && line == [KIf, LPar] + TestToks(t) + after
    ensures var n := |LitToks(t.lits[0])|; var k := |TailToks(t.op, t.lits[1..])|;
      && |line| == 2 + n + k + |after| && |TestToks(t)| == n + k && line[0] == KIf && line[1] == LPar
      && line[2..2 + n] == LitToks(t.lits[0]) && line[2 + n..2 + n + k] == TailToks(t.op, t.lits[1..])
      && line[2 + n + k..] == after
  {
    hide LitToks, TailToks;
    var n := |LitToks(t.lits[0])|;
    var a, b := LitToks(t.lits[0]), TailToks(t.op, t.lits[1..]);
    Mid([KIf, LPar], a, b + after, 2);
    Mid([KIf, LPar] + a, b, after, 2 + n);
    assert line == [KIf, LPar] + a + (b + after) == ([KIf, LPar] + a) + b + after;
  }

  /** The calls of a test, whatever comes after it on the line. */
  lemma TestPart(st: RState, line: seq<Tok>, t: RTest, after: seq<Tok>, h: Header)
    requires TestOk(t) && line == [KIf, LPar] + TestToks(t) + after
    ensures var at := 2 + |TestToks(t)|;
      at <= |line| && line[at..] == after && Calls(st, line, 0, h) == Calls(AddLits(st, t.lits, h), line, at, h)
  {
    hide AddLit, Calls, LitToks, LitOk, TailToks, TestToks;
    var n := |LitToks(t.lits[0])|;
    TestShape(line, t, after);
    CallsSkip(st, line, 0, h);
    CallsSkip(st, line, 1, h);
    LitRead(st, line, 2, t.lits[0], h);
    TailRead(AddLit(st, t.lits[0], h), line, 2 + n, t.op, t.lits[1..], h);
  }

  lemma TestRead(st: RState, line: seq<Tok>, t: RTest, rest: seq<Tok>, h: Header)
    requires TestOk(t) && line == [KIf, LPar] + TestToks(t) + [RPar] + rest && (rest == [] || rest == [LBrace])
    ensures Calls(st, line, 0, h) == AddLits(st, t.lits, h)
  {
    hide AddLits, Calls, TestToks, TestOk;
    var st2, at, after := AddLits(st, t.lits, h), 2 + |TestToks(t)|, [RPar] + rest;
    assert line == [KIf, LPar] + TestToks(t) + after;
    TestPart(st, line, t, after, h);
    assert line[at] == after[0] && (rest != [] ==> line[at + 1] == after[1]);
    CallsSkip(st2, line, at, h);
    if rest != [] { CallsSkip(st2, line, at + 1, h); }
    CallsEnd(st2, line, h);
  }

  lemma CallsEnd(st: RState, line: seq<Tok>, h: Header)
    ensures Calls(st, line, |line|, h) == st
  {
  }

  // ---- the matchers they become -----------------------------------------------------------

  function Numbered(s: seq<RLit>, base: nat): (r: seq<Lit>)
    ensures |r| == |s| && forall i :: 0 <= i < |s| ==> r[i] == Lit(base + i + 1, s[i].neg)
  {
    seq(|s|, i requires 0 <= i < |s| => Lit(base + i + 1, s[i].neg))
  }

  /** The matcher a call comes back as. */
  function Became(l: RLit, h: Header): Group { GroupOf(AskedOf(l.call, h), l.thresh) }

  function Groups(s: seq<RLit>, h: Header): (r: seq<Group>)
    ensures |r| == |s| && forall i :: 0 <= i < |s| ==> r[i] == Became(s[i], h)
  {
    seq(|s|, i requires 0 <= i < |s| => Became(s[i], h))
  }

  /** Every marker has the bits of exactly the calls that name it. */
  ghost predicate Wired(decl: seq<Decl>, calls: seq<RLit>) {
    && |calls| <= MAX_GROUP
    && forall i: nat, j: nat :: i < |decl| && j < MAX_GROUP ==> (Bit(decl[i].grp, j) <==> Names(calls, j, i))
  }

  predicate Names(calls: seq<RLit>, j: nat, i: nat) { j < |calls| && i in StrsOf(calls[j].call) }

  lemma OrBit0(x: bv32, y: bv32)
    ensures Bit(x | y, 0) <==> Bit(x, 0) || Bit(y, 0)
  {
  }

  lemma OrBit1(x: bv32, y: bv32)
    ensures Bit(x | y, 1) <==> Bit(x, 1) || Bit(y, 1)
  {
  }

  lemma OrBit2(x: bv32, y: bv32)
    ensures Bit(x | y, 2) <==> Bit(x, 2) || Bit(y, 2)
  {
  }

  lemma OrBit3(x: bv32, y: bv32)
    ensures Bit(x | y, 3) <==> Bit(x, 3) || Bit(y, 3)
  {
  }

  lemma OrBit4(x: bv32, y: bv32)
    ensures Bit(x | y, 4) <==> Bit(x, 4) || Bit(y, 4)
  {
  }

  lemma OrBit5(x: bv32, y: bv32)
    ensures Bit(x | y, 5) <==> Bit(x, 5) || Bit(y, 5)
  {
  }

  lemma OrBit6(x: bv32, y: bv32)
    ensures Bit(x | y, 6) <==> Bit(x, 6) || Bit(y, 6)
  {
  }

  lemma OrBit7(x: bv32, y: bv32)
    ensures Bit(x | y, 7) <==> Bit(x, 7) || Bit(y, 7)
  {
  }

  lemma OrBit(x: bv32, y: bv32, j: nat)
    requires j < MAX_GROUP
    ensures Bit(x | y, j) <==> Bit(x, j) || Bit(y, j)
  {
    hide Bit;
    if j == 0 {
      OrBit0(x, y);
    } else if j == 1 {
      OrBit1(x, y);
    } else if j == 2 {
      OrBit2(x, y);
    } else if j == 3 {
      OrBit3(x, y);
    } else if j == 4 {
      OrBit4(x, y);
    } else if j == 5 {
      OrBit5(x, y);
    } else if j == 6 {
      OrBit6(x, y);
    } else {
      OrBit7(x, y);
    }
  }

  lemma OneBit0(j: nat)
    requires j < MAX_GROUP
    ensures Bit(1 << 0, j) <==> j == 0
  {
    assert j == 0 || j == 1 || j == 2 || j == 3 || j == 4 || j == 5 || j == 6 || j == 7;
  }

  lemma OneBit1(j: nat)
    requires j < MAX_GROUP
    ensures Bit(1 << 1, j) <==> j == 1
  {
    assert j == 0 || j == 1 || j == 2 || j == 3 || j == 4 || j == 5 || j == 6 || j == 7;
  }

  lemma OneBit2(j: nat)
    requires j < MAX_GROUP
    ensures Bit(1 << 2, j) <==> j == 2
  {
    assert j == 0 || j == 1 || j == 2 || j == 3 || j == 4 || j == 5 || j == 6 || j == 7;
  }

  lemma OneBit3(j: nat)
    requires j < MAX_GROUP
    ensures Bit(1 << 3, j) <==> j == 3
  {
    assert j == 0 || j == 1 || j == 2 || j == 3 || j == 4 || j == 5 || j == 6 || j == 7;
  }

  lemma OneBit4(j: nat)
    requires j < MAX_GROUP
    ensures Bit(1 << 4, j) <==> j == 4
  {
    assert j == 0 || j == 1 || j == 2 || j == 3 || j == 4 || j == 5 || j == 6 || j == 7;
  }

  lemma OneBit5(j: nat)
    requires j < MAX_GROUP
    ensures Bit(1 << 5, j) <==> j == 5
  {
    assert j == 0 || j == 1 || j == 2 || j == 3 || j == 4 || j == 5 || j == 6 || j == 7;
  }

  lemma OneBit6(j: nat)
    requires j < MAX_GROUP
    ensures Bit(1 << 6, j) <==> j == 6
  {
    assert j == 0 || j == 1 || j == 2 || j == 3 || j == 4 || j == 5 || j == 6 || j == 7;
  }

  lemma OneBit7(j: nat)
    requires j < MAX_GROUP
    ensures Bit(1 << 7, j) <==> j == 7
  {
    assert j == 0 || j == 1 || j == 2 || j == 3 || j == 4 || j == 5 || j == 6 || j == 7;
  }

  lemma OneBit(g: nat, j: nat)
    requires g < MAX_GROUP && j < MAX_GROUP
    ensures Bit(1 << g, j) <==> j == g
  {
    hide Bit;
    if g == 0 {
      OneBit0(j);
    } else if g == 1 {
      OneBit1(j);
    } else if g == 2 {
      OneBit2(j);
    } else if g == 3 {
      OneBit3(j);
    } else if g == 4 {
      OneBit4(j);
    } else if g == 5 {
      OneBit5(j);
    } else if g == 6 {
      OneBit6(j);
    } else {
      OneBit7(j);
    }
  }

  lemma SetBitIs(x: bv32, g: nat, j: nat)
    requires g < MAX_GROUP && j < MAX_GROUP
    ensures Bit(SetBit(x, g), j) <==> j == g || Bit(x, j)
  {
    hide Bit;
    OrBit(x, 1 << g, j);
    OneBit(g, j);
  }

  lemma MarkedWired(decl: seq<Decl>, calls: seq<RLit>, l: RLit)
    requires Wired(decl, calls) && |calls| < MAX_GROUP
    ensures Wired(Marked(decl, IdsOf(StrsOf(l.call)), |calls|), calls + [l])
  {
    hide SetBit, Bit, StrsOf, IdOf;
    var r, all := Marked(decl, IdsOf(StrsOf(l.call)), |calls|), calls + [l];
    forall i: nat, j: nat | i < |decl| && j < MAX_GROUP
      ensures Bit(r[i].grp, j) <==> Names(all, j, i)
    {
      SetBitIs(decl[i].grp, |calls|, j);
      IdOnly(i, StrsOf(l.call));
      var x := decl[i].grp;
      assert r[i].grp == if i in StrsOf(l.call) then SetBit(x, |calls|) else x;
      assert Bit(x, j) <==> Names(calls, j, i);
      if j < |calls| { assert all[j] == calls[j]; } else if j == |calls| { assert all[j] == l; }
    }
  }

  /** The reader is inside condition `cur`, having read `done` of its test after `calls` before. */
  ghost predicate InTest(st: RState, calls: seq<RLit>, done: seq<RLit>) {
    && 0 <= st.cur < |st.cnd|
    && |st.grp| == |calls| + |done| <= MAX_GROUP
    && Wired(st.decl, calls + done)
    && st.cnd[st.cur].expr == Print(Numbered(done, |calls|), st.cnd[st.cur].op)
  }

  lemma NumberedSmall(s: seq<RLit>, base: nat)
    requires base + |s| <= MAX_GROUP
    ensures Small(Numbered(s, base)) && Distinct(Numbered(s, base))
  {
  }

  lemma TextStep(done: seq<RLit>, l: RLit, base: nat, op: bool)
    requires base + |done| < MAX_GROUP
    ensures var was := Print(Numbered(done, base), op);
      Fitted(was + ((if was == "" then "" else Sep(op)) + Item(Lit(base + |done| + 1, l.neg))))
      == Print(Numbered(done + [l], base), op)
  {
    hide Print, Item, Sep, Small, Distinct;
    var lit := Lit(base + |done| + 1, l.neg);
    var was, now := Numbered(done, base), Numbered(done + [l], base);
    assert now == was + [lit];
    PrintAppend(was, lit, op);
    PrintNone(was, op);
    NumberedSmall(done + [l], base);
    SmallFits(now, op);
    Joined(Print(was, op), if was == [] then "" else Sep(op), Item(lit));
  }

  lemma Joined(a: string, b: string, c: string)
    ensures a + b + c == a + (b + c)
  {
  }

  lemma AddOne(st: RState, l: RLit, h: Header, calls: seq<RLit>, done: seq<RLit>)
    requires InTest(st, calls, done) && |calls| + |done| < MAX_GROUP
    ensures var r := AddLit(st, l, h); var c := st.cnd[st.cur];
      && InTest(r, calls, done + [l]) && |r.cnd| == |st.cnd|
      && r == st.(grp := st.grp + [Became(l, h)], decl := r.decl,
                  cnd := st.cnd[st.cur := c.(expr := r.cnd[st.cur].expr)])
  {
    hide Wired, GroupOf, Marked, StrsOf, IdOf, MaskOf, Print, Item, Sep, Fitted;
    RuleAsked(l.call, h);
    MarkedWired(st.decl, calls + done, l);
    assert (calls + done) + [l] == calls + (done + [l]);
    TextStep(done, l, |calls|, st.cnd[st.cur].op);
  }

  lemma InTestSame(st: RState, calls: seq<RLit>, done: seq<RLit>)
    requires InTest(st, calls, done)
    ensures 0 <= st.cur < |st.cnd| && st.cnd[st.cur := st.cnd[st.cur]] == st.cnd
  {
    hide Wired, Numbered, Print;
  }

  lemma {:induction false} AddMany(st: RState, s: seq<RLit>, h: Header, calls: seq<RLit>, done: seq<RLit>)
    requires InTest(st, calls, done) && |calls| + |done| + |s| <= MAX_GROUP
    ensures var r := AddLits(st, s, h); var c := st.cnd[st.cur];
      && InTest(r, calls, done + s) && |r.cnd| == |st.cnd|
      && r == st.(grp := st.grp + Groups(s, h), decl := r.decl,
                  cnd := st.cnd[st.cur := c.(expr := r.cnd[st.cur].expr)])
    decreases |s|
  {
    hide InTest, AddLit, Became, Groups;
    GroupsCons(s, h, st.grp);
    InTestSame(st, calls, done);
    if s == [] {
      assert done + s == done;
    } else {
      AddOne(st, s[0], h, calls, done);
      AddMany(AddLit(st, s[0], h), s[1..], h, calls, done + [s[0]]);
      assert (done + [s[0]]) + s[1..] == done + s;
    }
  }

  lemma GroupsCons(s: seq<RLit>, h: Header, grp: seq<Group>)
    ensures s == [] ==> grp + Groups(s, h) == grp
    ensures s != [] ==>
      (grp + [Became(s[0], h)]) + Groups(s[1..], h) == grp + Groups(s, h)
  {
    hide Became;
  }

  // ---- one line with a test ---------------------------------------------------------------

  /** Nothing in a test opens a block, ends one, gives a verdict or begins a branch. */
  predicate InsideTest(t: Tok) { t != LBrace && t != RBrace && t != KIf && t != Newline && !t.Scan? && !t.Raw? }

  lemma LitInside(l: RLit)
    requires LitOk(l)
    ensures forall t :: t in LitToks(l) ==> InsideTest(t) && t != OrOr && t != AndAnd
    ensures l.call in LitToks(l)
  {
  }

  lemma {:induction false} TailInside(op: bool, s: seq<RLit>)
    requires forall i :: 0 <= i < |s| ==> LitOk(s[i])
    ensures forall t :: t in TailToks(op, s) ==> InsideTest(t)
    ensures (OrOr in TailToks(op, s) <==> op && s != []) && (AndAnd in TailToks(op, s) <==> !op && s != [])
    decreases |s|
  {
    hide LitToks, LitOk, InsideTest;
    if s != [] {
      LitInside(s[0]);
      TailInside(op, s[1..]);
      JoinInside(op);
    }
  }

  lemma JoinInside(op: bool)
    ensures InsideTest(JoinTok(op))
  {
  }

  /** On a line that is whole, a token shows only as itself. */
  lemma ShowsWhole(line: seq<Tok>, t: Tok, w: string)
    requires forall x :: x in line ==> !x.Raw?
    ensures Shows(line, t, w) <==> t in line
  {
    hide Word;
    assert forall i :: 0 <= i < |line| ==> line[i] in line;
  }

  function Op(t: RTest): bool { t.op && |t.lits| > 1 }

  lemma LineInside(t: RTest)
    requires TestOk(t)
    ensures forall x :: x in TestToks(t) ==> InsideTest(x)
    ensures OrOr in IfLine(t) <==> Op(t)
  {
    hide LitToks, LitOk, InsideTest, TailToks;
    LitInside(t.lits[0]);
    TailInside(t.op, t.lits[1..]);
  }

  function Begin(st: RState, op: bool): RState {
    st.(cnd := st.cnd + [NEW_COND.(parent := st.parent, op := op)], cur := |st.cnd|, pendIf := |st.cnd|)
  }

  lemma {:induction false} NoBraces(st: RState, a: seq<Tok>, b: seq<Tok>)
    requires forall t :: t in a ==> !Opens(t) && t != RBrace
    ensures Braces(st, a + b) == Braces(st, b)
    decreases |a|
  {
    if a == [] {
      assert a + b == b;
    } else {
      assert (a + b)[1..] == a[1..] + b;
      assert a[0] in a;
      forall t | t in a[1..]
        ensures t in a
      {
      }
      NoBraces(st, a[1..], b);
    }
  }

  lemma {:induction false} NoScan(line: seq<Tok>)
    requires forall t :: t in line ==> !t.Scan?
    ensures ScanOf(line).None?
    decreases |line|
  {
    if line != [] { NoScan(line[1..]); }
  }

  lemma ReadTest(st: RState, t: RTest, rest: seq<Tok>, h: Header)
    requires TestOk(t) && |st.cnd| < MAX_GROUP && (rest == [] || rest == [LBrace])
    ensures ReadLine(st, IfLine(t) + rest, h) == Braces(AddLits(Begin(st, Op(t)), t.lits, h), rest)
  {
    hide Calls, AddLits, TestToks, LitOk;
    var line := IfLine(t) + rest;
    LineInside(t);
    assert line == [KIf, LPar] + TestToks(t) + [RPar] + rest;
    assert line[0] == KIf && KIf in line && Bare(st, line) == st;
    assert OrOr in line <==> Op(t);
    forall x | x in line
      ensures !x.Raw?
    {
    }
    ShowsWhole(line, OrOr, "||");
    ShowsWhole(line, AndAnd, "&&");
    hide Shows;
    var begun := Begin(st, Op(t));
    assert If(st, line) == begun;
    assert begun.cnd[|st.cnd| := begun.cnd[|st.cnd|]] == begun.cnd;
    assert SetOr(begun, line) == begun;
    TestRead(begun, line, t, rest, h);
    NoScan(line);
    NoBraces(AddLits(begun, t.lits, h), IfLine(t), rest);
  }

  // ---- what the reader holds --------------------------------------------------------------

  ghost predicate Content(st: RState, calls: seq<RLit>, cnd: seq<Cond>, h: Header) {
    st.grp == Groups(calls, h) && st.cnd == cnd && Wired(st.decl, calls) && |st.owner| == OWNERS
  }

  predicate AtTop(st: RState) { st.depth == 1 && st.parent == -1 && st.pendIf == -1 }

  predicate InGate(st: RState, g: nat) {
    st.depth == 2 && st.parent == g && st.pendIf == -1 && |st.owner| == OWNERS && st.owner[2] == g
  }

  function KindOf(level: Level, v: Variant): nat {
    if level == NoVerdict || v == Auto then 0 else if v == Generic then 1 else 2
  }

  function NameOf(level: Level, v: Variant): string {
    if level != NoVerdict && v.Custom? then v.name else ""
  }

  /** The condition a test comes back as, its matchers numbered from base on. */
  function Made(test: Option<RTest>, base: nat, parent: int, level: Level, v: Variant): Cond {
    var op := test.Some? && Op(test.value);
    Cond(if test.Some? then Print(Numbered(test.value.lits, base), op) else "", op, JoinOr, level,
         KindOf(level, v), NameOf(level, v), parent)
  }

  lemma BeginTest(st: RState, op: bool, calls: seq<RLit>, cnd: seq<Cond>, h: Header)
    requires Content(st, calls, cnd, h)
    ensures InTest(Begin(st, op), calls, [])
  {
    hide Wired, Became;
    WiredFits(st.decl, calls);
    assert calls + [] == calls;
    assert Numbered([], |calls|) == [];
    PrintNone([], op);
  }

  lemma GroupsAppend(a: seq<RLit>, b: seq<RLit>, h: Header)
    ensures Groups(a, h) + Groups(b, h) == Groups(a + b, h)
  {
    hide Became;
  }

  lemma Tested(st: RState, t: RTest, h: Header, calls: seq<RLit>, cnd: seq<Cond>)
    requires Content(st, calls, cnd, h) && TestOk(t) && |calls| + |t.lits| <= MAX_GROUP
    ensures var r := AddLits(Begin(st, Op(t)), t.lits, h);
      && Content(r, calls + t.lits, cnd + [Made(Some(t), |calls|, st.parent, NoVerdict, Auto)], h)
      && r == st.(grp := r.grp, decl := r.decl, cnd := r.cnd, cur := |cnd|, pendIf := |cnd|)
  {
    hide AddLits, Wired, TestOk, Groups, Print, Numbered;
    var b := Begin(st, Op(t));
    BeginTest(st, Op(t), calls, cnd, h);
    AddMany(b, t.lits, h, calls, []);
    assert [] + t.lits == t.lits;
    GroupsAppend(calls, t.lits, h);
    var r := AddLits(b, t.lits, h);
    var c := Made(Some(t), |calls|, st.parent, NoVerdict, Auto);
    assert r.cnd[|cnd|] == c;
    assert r.cnd == cnd + [c];
  }

  lemma WiredFits(decl: seq<Decl>, calls: seq<RLit>)
    requires Wired(decl, calls)
    ensures |calls| <= MAX_GROUP
  {
  }

  // ---- the verdict ------------------------------------------------------------------------

  lemma ScanRead(st: RState, level: Level, v: Variant, at: nat, h: Header)
    requires level != NoVerdict && at < |st.cnd|
    requires st.pendIf == at || (st.pendIf == -1 && st.depth == 2 && |st.owner| == OWNERS && st.owner[2] == at)
    ensures ReadLine(st, ScanLine(level, v), h)
         == st.(cnd := st.cnd[at := Judged(st.cnd[at], Scan(level, v))], pendIf := -1)
  {
    hide Judged;
    var line := ScanLine(level, v);
    assert Bare(st, line) == st && KIf !in line;
    assert !HasCall(line) && SetOr(st, line) == st;
    CallsSkip(st, line, 0, h);
    CallsSkip(st, line, 1, h);
    CallsEnd(st, line, h);
    assert ScanOf(line) == Some(line[0]);
    var r := Verdict(st, line);
    NoBraces(r, line, []);
    assert line + [] == line;
  }

  lemma JudgedMade(test: Option<RTest>, base: nat, parent: int, level: Level, v: Variant)
    requires level != NoVerdict && NameOk(v)
    ensures Judged(Made(test, base, parent, NoVerdict, Auto), Scan(level, v)) == Made(test, base, parent, level, v)
  {
    hide Print, Word;
    if !v.Custom? { WordNone(); }
  }

  lemma WordNone()
    ensures !Word("", "SUSPECT", 0) && !Word("", "KOF_MALVAR_GENERIC", 0)
  {
  }

  // ---- whole branches ---------------------------------------------------------------------

  function LeafLits(s: seq<RLeaf>): seq<RLit> { if s == [] then [] else s[0].test.lits + LeafLits(s[1..]) }

  function KidsConds(s: seq<RLeaf>, base: nat, parent: int): seq<Cond> {
    if s == [] then []
    else [Made(Some(s[0].test), base, parent, s[0].level, s[0].variant)]
         + KidsConds(s[1..], base + |s[0].test.lits|, parent)
  }

  function HeadLits(test: Option<RTest>): seq<RLit> { if test.Some? then test.value.lits else [] }

  function TopLits(x: RTop): seq<RLit> {
    match x
    case TLeaf(leaf) => leaf.test.lits
    case TGate(test, kids, _, _) => HeadLits(test) + LeafLits(kids)
  }

  function TopsLits(s: seq<RTop>): seq<RLit> { if s == [] then [] else TopLits(s[0]) + TopsLits(s[1..]) }

  function TopConds(x: RTop, base: nat, at: nat): seq<Cond> {
    match x
    case TLeaf(leaf) => [Made(Some(leaf.test), base, -1, leaf.level, leaf.variant)]
    case TGate(test, kids, level, variant) =>
      [Made(test, base, -1, level, variant)] + KidsConds(kids, base + |HeadLits(test)|, at)
  }

  function TopsConds(s: seq<RTop>, base: nat, at: nat): seq<Cond> {
    if s == [] then []
    else
      var c := TopConds(s[0], base, at);
      c + TopsConds(s[1..], base + |TopLits(s[0])|, at + |c|)
  }

  predicate TopOk(x: RTop) {
    match x
    case TLeaf(leaf) => LeafOk(leaf)
    case TGate(test, kids, _, variant) =>
      && (test.Some? ==> TestOk(test.value)) && NameOk(variant) && kids != []
      && forall i :: 0 <= i < |kids| ==> LeafOk(kids[i]) && kids[i].level != NoVerdict
  }

  lemma ReadTwo(st: RState, a: seq<Tok>, b: seq<Tok>, h: Header)
    ensures ReadLines(st, [a, b], h) == ReadLine(ReadLine(st, a, h), b, h)
  {
    hide ReadLine;
    assert [a, b][1..] == [b];
    ReadOne(ReadLine(st, a, h), b, h);
  }

  lemma ReadOne(st: RState, a: seq<Tok>, h: Header)
    ensures ReadLines(st, [a], h) == ReadLine(st, a, h)
  {
    hide ReadLine;
    assert [a][1..] == [];
  }

  lemma ContentSet(st: RState, calls: seq<RLit>, cnd: seq<Cond>, at: nat, c: Cond, h: Header)
    requires Content(st, calls, cnd, h) && at < |cnd|
    ensures Content(st.(cnd := st.cnd[at := c], pendIf := -1), calls, cnd[at := c], h)
  {
    hide Wired, Groups;
  }

  /** A branch with a verdict of its own, wherever it is. */
  lemma ReadVerdictLeaf(st: RState, x: RLeaf, h: Header, calls: seq<RLit>, cnd: seq<Cond>)
    requires Content(st, calls, cnd, h) && LeafOk(x) && x.level != NoVerdict
    requires |cnd| < MAX_GROUP && |calls| + |x.test.lits| <= MAX_GROUP
    ensures var r := ReadLines(st, LeafLines(x), h);
      && Content(r, calls + x.test.lits, cnd + [Made(Some(x.test), |calls|, st.parent, x.level, x.variant)], h)
      && r == st.(grp := r.grp, decl := r.decl, cnd := r.cnd, cur := |cnd|, pendIf := -1)
  {
    hide Made, Judged, Wired, Groups, AddLits, Begin, ReadLine, TestOk, NameOk;
    var line := IfLine(x.test);
    ContentLength(st, calls, cnd, h);
    ReadTwo(st, line, ScanLine(x.level, x.variant), h);
    ReadTest(st, x.test, [], h);
    assert line + [] == line;
    Tested(st, x.test, h, calls, cnd);
    var mid := AddLits(Begin(st, Op(x.test)), x.test.lits, h);
    assert Braces(mid, []) == mid;
    var c := Made(Some(x.test), |calls|, st.parent, NoVerdict, Auto);
    ScanRead(mid, x.level, x.variant, |cnd|, h);
    JudgedMade(Some(x.test), |calls|, st.parent, x.level, x.variant);
    var d := Made(Some(x.test), |calls|, st.parent, x.level, x.variant);
    ContentSet(mid, calls + x.test.lits, cnd + [c], |cnd|, d, h);
    assert (cnd + [c])[|cnd| := d] == cnd + [d];
  }

  lemma ContentLength(st: RState, calls: seq<RLit>, cnd: seq<Cond>, h: Header)
    requires Content(st, calls, cnd, h)
    ensures st.cnd == cnd && |st.owner| == OWNERS
  {
  }

  lemma {:induction false} ReadKids(st: RState, s: seq<RLeaf>, h: Header, calls: seq<RLit>, cnd: seq<Cond>, g: nat)
    requires Content(st, calls, cnd, h) && InGate(st, g) && g < |cnd|
    requires forall i :: 0 <= i < |s| ==> LeafOk(s[i]) && s[i].level != NoVerdict
    requires |cnd| + |s| <= MAX_GROUP && |calls| + |LeafLits(s)| <= MAX_GROUP
    ensures var r := ReadLines(st, KidsLines(s), h);
      && Content(r, calls + LeafLits(s), cnd + KidsConds(s, |calls|, g), h) && InGate(r, g)
    decreases |s|
  {
    hide Content, Made, LeafOk, ReadLine, LeafLines;
    if s == [] {
      assert calls + LeafLits(s) == calls && cnd + KidsConds(s, |calls|, g) == cnd;
    } else {
      var x := s[0];
      ReadLinesAppend(st, LeafLines(x), KidsLines(s[1..]), h);
      ReadVerdictLeaf(st, x, h, calls, cnd);
      var c := Made(Some(x.test), |calls|, g, x.level, x.variant);
      var calls1 := calls + x.test.lits;
      ReadKids(ReadLines(st, LeafLines(x), h), s[1..], h, calls1, cnd + [c], g);
      assert calls1 + LeafLits(s[1..]) == calls + LeafLits(s);
      assert (cnd + [c]) + KidsConds(s[1..], |calls1|, g) == cnd + KidsConds(s, |calls|, g);
    }
  }

  lemma QuietLine(st: RState, h: Header)
    ensures ReadLine(st, [KReturn, Semi], h) == st
    ensures ReadLine(st, [RBrace], h) == Brace(st, RBrace)
  {
    var a, b: seq<Tok> := [KReturn, Semi], [RBrace];
    assert !HasCall(a) && !HasCall(b) && KIf !in a && KIf !in b;
    CallsSkip(st, a, 0, h);
    CallsSkip(st, a, 1, h);
    CallsEnd(st, a, h);
    CallsSkip(st, b, 0, h);
    CallsEnd(st, b, h);
    assert a[1..] == [Semi] && a[1..][1..] == [] && b[1..] == [];
    assert ScanOf(a).None? && ScanOf(b).None?;
    assert Braces(st, a) == Braces(st, a[1..]) == Braces(st, a[1..][1..]) == st;
    assert Braces(st, b) == Braces(Brace(st, RBrace), b[1..]);
  }

  /** The line that opens a gate, or a brace around some branches. */
  lemma ReadHead(st: RState, test: Option<RTest>, h: Header, calls: seq<RLit>, cnd: seq<Cond>)
    requires Content(st, calls, cnd, h) && AtTop(st) && (test.Some? ==> TestOk(test.value))
    requires |cnd| < MAX_GROUP && |calls| + |HeadLits(test)| <= MAX_GROUP
    ensures var r := ReadLine(st, HeadLine(test), h);
      && Content(r, calls + HeadLits(test), cnd + [Made(test, |calls|, -1, NoVerdict, Auto)], h)
      && InGate(r, |cnd|)
  {
    hide Wired, Groups, AddLits, Begin, TestOk, Print;
    ContentLength(st, calls, cnd, h);
    if test.Some? {
      hide Made, ReadLine;
      var t := test.value;
      ReadTest(st, t, [LBrace], h);
      Tested(st, t, h, calls, cnd);
      var mid := AddLits(Begin(st, Op(t)), t.lits, h);
      OneBrace(mid);
    } else {
      BareHead(st, h);
      assert calls + [] == calls;
    }
  }

  lemma OneBrace(st: RState)
    ensures Braces(st, [LBrace]) == Brace(st, LBrace)
  {
    assert [LBrace][1..] == [];
  }

  lemma BareHead(st: RState, h: Header)
    requires st.depth >= 1 && |st.cnd| < MAX_GROUP
    ensures ReadLine(st, [] + [LBrace], h)
         == Brace(st.(cnd := st.cnd + [NEW_COND.(parent := st.parent)], cur := |st.cnd|, pendIf := -1), LBrace)
  {
    var a: seq<Tok> := [LBrace];
    assert [] + [LBrace] == a;
    assert !HasCall(a) && KIf !in a;
    var mid := Bare(st, a);
    CallsSkip(mid, a, 0, h);
    CallsEnd(mid, a, h);
    assert a[1..] == [];
    assert ScanOf(a).None?;
    OneBrace(mid);
  }

  lemma ReadSilentLeaf(st: RState, x: RLeaf, h: Header, calls: seq<RLit>, cnd: seq<Cond>)
    requires Content(st, calls, cnd, h) && AtTop(st) && LeafOk(x) && x.level == NoVerdict
    requires |cnd| < MAX_GROUP && |calls| + |x.test.lits| <= MAX_GROUP
    ensures var r := ReadLines(st, LeafLines(x), h);
      Content(r, calls + x.test.lits, cnd + [Made(Some(x.test), |calls|, -1, NoVerdict, x.variant)], h) && AtTop(r)
  {
    hide ReadLine, IfLine, Wired, Groups, TestOk, NameOk, Print;
    var open := IfLine(x.test) + [LBrace];
    ReadTwo(st, open, [KReturn, Semi], h);
    assert LeafLines(x) == [open, [KReturn, Semi]] + [[RBrace]];
    ReadLinesAppend(st, [open, [KReturn, Semi]], [[RBrace]], h);
    ReadHead(st, Some(x.test), h, calls, cnd);
    var mid := ReadLine(st, open, h);
    QuietLine(mid, h);
    ReadOne(mid, [RBrace], h);
    assert Made(Some(x.test), |calls|, -1, NoVerdict, x.variant) == Made(Some(x.test), |calls|, -1, NoVerdict, Auto);
  }

  lemma ReadGateOpen(st: RState, test: Option<RTest>, kids: seq<RLeaf>, h: Header, calls: seq<RLit>, cnd: seq<Cond>)
    requires Content(st, calls, cnd, h) && AtTop(st) && (test.Some? ==> TestOk(test.value))
    requires forall i :: 0 <= i < |kids| ==> LeafOk(kids[i]) && kids[i].level != NoVerdict
    requires |cnd| + 1 + |kids| <= MAX_GROUP && |calls| + |HeadLits(test)| + |LeafLits(kids)| <= MAX_GROUP
    ensures var base := |calls| + |HeadLits(test)|;
      var r := ReadLines(st, [HeadLine(test)] + KidsLines(kids), h);
      && Content(r, calls + HeadLits(test) + LeafLits(kids),
                 cnd + [Made(test, |calls|, -1, NoVerdict, Auto)] + KidsConds(kids, base, |cnd|), h)
      && InGate(r, |cnd|)
  {
    hide ReadLine, HeadLine, KidsLines, LeafOk, TestOk, Made, Content, HeadLits, LeafLits, KidsConds;
    ReadLinesAppend(st, [HeadLine(test)], KidsLines(kids), h);
    ReadOne(st, HeadLine(test), h);
    ReadHead(st, test, h, calls, cnd);
    ReadKids(ReadLine(st, HeadLine(test), h), kids, h, calls + HeadLits(test),
             cnd + [Made(test, |calls|, -1, NoVerdict, Auto)], |cnd|);
  }

  lemma ReadGateShut(st: RState, test: Option<RTest>, base: nat, level: Level, v: Variant, calls: seq<RLit>,
        cnd: seq<Cond>, at: nat, h: Header)
    requires Content(st, calls, cnd, h) && InGate(st, at) && NameOk(v)
    requires at < |cnd| && cnd[at] == Made(test, base, -1, NoVerdict, Auto)
    ensures var own := if level == NoVerdict then [] else [ScanLine(level, v)];
      var r := ReadLines(st, own + [[RBrace]], h);
      Content(r, calls, cnd[at := Made(test, base, -1, level, v)], h) && AtTop(r)
  {
    hide ReadLine, ReadLines, Content, Made, NameOk, Brace;
    var own := if level == NoVerdict then [] else [ScanLine(level, v)];
    ReadLinesAppend(st, own, [[RBrace]], h);
    OwnVerdict(st, test, base, level, v, calls, cnd, at, h);
    var st3 := ReadLines(st, own, h);
    ReadOne(st3, [RBrace], h);
    QuietLine(st3, h);
    GateShut(st3, at, calls, cnd[at := Made(test, base, -1, level, v)], h);
  }

  lemma GateShape(x: RTop, calls: seq<RLit>, cnd: seq<Cond>)
    requires x.TGate?
    ensures var own := if x.level == NoVerdict then [] else [ScanLine(x.level, x.variant)];
      TopLines(x) == ([HeadLine(x.test)] + KidsLines(x.kids)) + (own + [[RBrace]])
    ensures calls + HeadLits(x.test) + LeafLits(x.kids) == calls + TopLits(x)
    ensures var base := |calls| + |HeadLits(x.test)|;
      var read := cnd + [Made(x.test, |calls|, -1, NoVerdict, Auto)] + KidsConds(x.kids, base, |cnd|);
      && |read| > |cnd| && read[|cnd|] == Made(x.test, |calls|, -1, NoVerdict, Auto)
      && read[|cnd| := Made(x.test, |calls|, -1, x.level, x.variant)] == cnd + TopConds(x, |calls|, |cnd|)
  {
    hide HeadLine, KidsLines, Made, KidsConds, LeafLits, HeadLits;
  }

  lemma ReadGate(st: RState, x: RTop, h: Header, calls: seq<RLit>, cnd: seq<Cond>)
    requires Content(st, calls, cnd, h) && AtTop(st) && x.TGate? && TopOk(x)
    requires |cnd| + |TopConds(x, |calls|, |cnd|)| <= MAX_GROUP && |calls| + |TopLits(x)| <= MAX_GROUP
    ensures var r := ReadLines(st, TopLines(x), h);
      Content(r, calls + TopLits(x), cnd + TopConds(x, |calls|, |cnd|), h) && AtTop(r)
  {
    hide ReadLines, HeadLine, KidsLines, LeafOk, NameOk, TestOk, Made, Content, KidsConds, LeafLits, HeadLits, AtTop;
    hide InGate;
    hide TopLines, TopConds, TopLits, TopOk;
    var base := |calls| + |HeadLits(x.test)|;
    GateFits(x, calls, cnd);
    var own := if x.level == NoVerdict then [] else [ScanLine(x.level, x.variant)];
    GateShape(x, calls, cnd);
    var front := [HeadLine(x.test)] + KidsLines(x.kids);
    ReadLinesAppend(st, front, own + [[RBrace]], h);
    ReadGateOpen(st, x.test, x.kids, h, calls, cnd);
    var read := cnd + [Made(x.test, |calls|, -1, NoVerdict, Auto)] + KidsConds(x.kids, base, |cnd|);
    ReadGateShut(ReadLines(st, front, h), x.test, |calls|, x.level, x.variant, calls + TopLits(x), read, |cnd|, h);
  }

  lemma GateFits(x: RTop, calls: seq<RLit>, cnd: seq<Cond>)
    requires x.TGate? && TopOk(x)
    requires |cnd| + |TopConds(x, |calls|, |cnd|)| <= MAX_GROUP && |calls| + |TopLits(x)| <= MAX_GROUP
    ensures |cnd| + 1 + |x.kids| <= MAX_GROUP && |calls| + |HeadLits(x.test)| + |LeafLits(x.kids)| <= MAX_GROUP
    ensures (x.test.Some? ==> TestOk(x.test.value)) && NameOk(x.variant)
    ensures forall i :: 0 <= i < |x.kids| ==> LeafOk(x.kids[i]) && x.kids[i].level != NoVerdict
  {
    hide Made, LeafOk, TestOk, NameOk, KidsConds, LeafLits;
    KidsCount(x.kids, |calls| + |HeadLits(x.test)|, |cnd|);
  }

  lemma {:induction false} KidsCount(s: seq<RLeaf>, base: nat, parent: int)
    ensures |KidsConds(s, base, parent)| == |s|
    decreases |s|
  {
    hide Made;
    if s != [] { KidsCount(s[1..], base + |s[0].test.lits|, parent); }
  }

  /** The gate's own verdict goes to the condition whose block it is. */
  lemma OwnVerdict(st: RState, test: Option<RTest>, base: nat, level: Level, v: Variant, calls: seq<RLit>,
        cnd: seq<Cond>, at: nat, h: Header)
    requires Content(st, calls, cnd, h) && InGate(st, at) && NameOk(v)
    requires at < |cnd| && cnd[at] == Made(test, base, -1, NoVerdict, Auto)
    ensures var own := if level == NoVerdict then [] else [ScanLine(level, v)]; var r := ReadLines(st, own, h);
      Content(r, calls, cnd[at := Made(test, base, -1, level, v)], h) && InGate(r, at)
  {
    hide ReadLine, Wired, Groups, NameOk, Made, Judged;
    if level == NoVerdict {
      SilentMade(test, base, v);
      assert cnd[at := cnd[at]] == cnd;
    } else {
      ReadOne(st, ScanLine(level, v), h);
      ScanRead(st, level, v, at, h);
      JudgedMade(test, base, -1, level, v);
    }
  }

  lemma SilentMade(test: Option<RTest>, base: nat, v: Variant)
    ensures Made(test, base, -1, NoVerdict, v) == Made(test, base, -1, NoVerdict, Auto)
  {
  }

  lemma GateShut(st: RState, g: nat, calls: seq<RLit>, cnd: seq<Cond>, h: Header)
    requires Content(st, calls, cnd, h) && InGate(st, g)
    ensures Content(Brace(st, RBrace), calls, cnd, h) && AtTop(Brace(st, RBrace))
  {
    hide Wired, Groups;
  }

  lemma ReadTop(st: RState, x: RTop, h: Header, calls: seq<RLit>, cnd: seq<Cond>)
    requires Content(st, calls, cnd, h) && AtTop(st) && TopOk(x)
    requires |cnd| + |TopConds(x, |calls|, |cnd|)| <= MAX_GROUP && |calls| + |TopLits(x)| <= MAX_GROUP
    ensures var r := ReadLines(st, TopLines(x), h);
      Content(r, calls + TopLits(x), cnd + TopConds(x, |calls|, |cnd|), h) && AtTop(r)
  {
    hide Content, LeafOk, Made, ReadLines, LeafLines;
    match x
    case TLeaf(leaf) =>
      if leaf.level == NoVerdict {
        ReadSilentLeaf(st, leaf, h, calls, cnd);
        SilentMade(Some(leaf.test), |calls|, leaf.variant);
      } else {
        ReadVerdictLeaf(st, leaf, h, calls, cnd);
      }
    case TGate(_, _, _, _) => ReadGate(st, x, h, calls, cnd);
  }

  lemma NoTops(st: RState, h: Header)
    ensures ReadLines(st, TopsLines([]), h) == st
  {
  }

  lemma {:induction false} ReadTops(st: RState, s: seq<RTop>, h: Header, calls: seq<RLit>, cnd: seq<Cond>)
    requires Content(st, calls, cnd, h) && AtTop(st) && forall i :: 0 <= i < |s| ==> TopOk(s[i])
    requires |cnd| + |TopsConds(s, |calls|, |cnd|)| <= MAX_GROUP && |calls| + |TopsLits(s)| <= MAX_GROUP
    ensures var r := ReadLines(st, TopsLines(s), h);
      Content(r, calls + TopsLits(s), cnd + TopsConds(s, |calls|, |cnd|), h) && AtTop(r)
    decreases |s|
  {
    hide Content, TopOk, TopConds, TopLits, TopLines, ReadLine, AtTop, ReadLines;
    if s == [] {
      NoTops(st, h);
      assert calls + TopsLits(s) == calls && cnd + TopsConds(s, |calls|, |cnd|) == cnd;
    } else {
      var x := s[0];
      var c := TopConds(x, |calls|, |cnd|);
      ReadLinesAppend(st, TopLines(x), TopsLines(s[1..]), h);
      ReadTop(st, x, h, calls, cnd);
      ReadTops(ReadLines(st, TopLines(x), h), s[1..], h, calls + TopLits(x), cnd + c);
      assert (calls + TopLits(x)) + TopsLits(s[1..]) == calls + TopsLits(s);
      assert (cnd + c) + TopsConds(s[1..], |calls| + |TopLits(x)|, |cnd| + |c|) == cnd + TopsConds(s, |calls|, |cnd|);
    }
  }
}
