/** Opening a generated signature: the draft read back says what the one it was written from
    said. */
module RoundTrip {
  import opened TargetC
  import opened DraftModel
  import opened ExprSource
  import opened Matchers
  import opened ExprTokens
  import opened ExprMeaning
  import opened Conditions
  import opened BranchTokens
  import opened Order
  import opened Visits
  import opened Generate
  import opened IdList
  import opened IdRoom
  import opened IdEdits
  import opened Refusals
  import opened Lines
  import opened CallText
  import opened Reader
  import opened Rebuild
  import opened ReadMeaning

  // ---- branches read back, strongest first ------------------------------------------------

  function TopLevel(x: RTop): Level {
    match x
    case TLeaf(leaf) => leaf.level
    case TGate(_, _, level, _) => level
  }

  ghost predicate Ranked(s: seq<RTop>) {
    forall i, j :: 0 <= i < j < |s| ==> Rank(TopLevel(s[i])) <= Rank(TopLevel(s[j]))
  }

  ghost predicate ByRank(cnd: seq<Cond>, heads: seq<nat>) {
    && (forall i :: 0 <= i < |heads| ==> heads[i] < |cnd|)
    && forall i, j :: 0 <= i < j < |heads| ==> Rank(cnd[heads[i]].level) <= Rank(cnd[heads[j]].level)
  }

  lemma {:induction false} LevelNone(cnd: seq<Cond>, heads: seq<nat>, lvl: Level)
    requires forall i :: 0 <= i < |heads| ==> heads[i] < |cnd| && cnd[heads[i]].level != lvl
    ensures ByLevel(cnd, heads, lvl) == []
    decreases |heads|
  {
    if heads != [] { LevelNone(cnd, heads[1..], lvl); }
  }

  lemma LevelStep(cnd: seq<Cond>, heads: seq<nat>, lvl: Level)
    requires heads != [] && forall i :: 0 <= i < |heads| ==> heads[i] < |cnd|
    ensures ByLevel(cnd, heads, lvl)
         == if cnd[heads[0]].level == lvl then [heads[0]] + ByLevel(cnd, heads[1..], lvl)
             else ByLevel(cnd, heads[1..], lvl)
  {
    assert [] + ByLevel(cnd, heads[1..], lvl) == ByLevel(cnd, heads[1..], lvl);
  }

  lemma Front(h: nat, a: seq<nat>, b: seq<nat>, c: seq<nat>)
    ensures ([h] + a) + b + c == [h] + (a + b + c)
    ensures a == [] ==> a + ([h] + b) + c == [h] + (a + b + c)
    ensures a == [] && b == [] ==> a + b + ([h] + c) == [h] + (a + b + c)
  {
  }

  lemma RankTail(cnd: seq<Cond>, heads: seq<nat>)
    requires ByRank(cnd, heads) && heads != []
    ensures var t := heads[1..]; var l := cnd[heads[0]].level;
      && ByRank(cnd, t)
      && (l != Infect ==> ByLevel(cnd, t, Infect) == []) && (l == NoVerdict ==> ByLevel(cnd, t, Suspect) == [])
  {
    hide ByLevel;
    var t, l := heads[1..], cnd[heads[0]].level;
    assert forall i :: 0 <= i < |t| ==> t[i] == heads[i + 1];
    if l != Infect { LevelNone(cnd, t, Infect); }
    if l == NoVerdict { LevelNone(cnd, t, Suspect); }
  }

  lemma LevelsEnd(cnd: seq<Cond>)
    ensures ByLevel(cnd, [], Infect) + ByLevel(cnd, [], Suspect) + ByLevel(cnd, [], NoVerdict) == []
  {
  }

  lemma RankBounds(cnd: seq<Cond>, heads: seq<nat>)
    requires ByRank(cnd, heads)
    ensures forall i :: 0 <= i < |heads| ==> heads[i] < |cnd|
  {
  }

  /** Already in order, the level loop changes nothing. */
  lemma {:induction false} ByRankOrdered(cnd: seq<Cond>, heads: seq<nat>)
    requires ByRank(cnd, heads)
    ensures (forall i :: 0 <= i < |heads| ==> heads[i] < |cnd|)
      && ByLevel(cnd, heads, Infect) + ByLevel(cnd, heads, Suspect) + ByLevel(cnd, heads, NoVerdict) == heads
    decreases |heads|
  {
    hide ByLevel, ByRank;
    RankBounds(cnd, heads);
    if heads == [] {
      LevelsEnd(cnd);
    } else {
      var t := heads[1..];
      RankTail(cnd, heads);
      ByRankOrdered(cnd, t);
      LevelStep(cnd, heads, Infect);
      LevelStep(cnd, heads, Suspect);
      LevelStep(cnd, heads, NoVerdict);
      Front(heads[0], ByLevel(cnd, t, Infect), ByLevel(cnd, t, Suspect), ByLevel(cnd, t, NoVerdict));
      assert [heads[0]] + t == heads;
    }
  }

  /** And it changes nothing only then. */
  lemma OrderedByRank(cnd: seq<Cond>, heads: seq<nat>)
    requires forall i :: 0 <= i < |heads| ==> heads[i] < |cnd|
    requires ByLevel(cnd, heads, Infect) + ByLevel(cnd, heads, Suspect) + ByLevel(cnd, heads, NoVerdict) == heads
    ensures ByRank(cnd, heads)
  {
    hide ByLevel;
    LevelsRanked(cnd, heads, ByLevel(cnd, heads, Infect), ByLevel(cnd, heads, Suspect), ByLevel(cnd, heads, NoVerdict));
  }

  ghost predicate AtLevel(cnd: seq<Cond>, s: seq<nat>, lvl: Level) {
    forall i :: 0 <= i < |s| ==> s[i] < |cnd| && cnd[s[i]].level == lvl
  }

  lemma LevelsRanked(cnd: seq<Cond>, heads: seq<nat>, a: seq<nat>, b: seq<nat>, c: seq<nat>)
    requires heads == a + b + c && AtLevel(cnd, a, Infect) && AtLevel(cnd, b, Suspect) && AtLevel(cnd, c, NoVerdict)
    ensures ByRank(cnd, heads)
  {
    forall i | 0 <= i < |heads|
      ensures heads[i] < |cnd|
      ensures cnd[heads[i]].level == if i < |a| then Infect else if i < |a| + |b| then Suspect else NoVerdict
    {
      if i < |a| {
        assert heads[i] == a[i];
      } else if i < |a| + |b| {
        assert heads[i] == b[i - |a|];
      } else {
        assert heads[i] == c[i - |a| - |b|];
      }
    }
  }

  /** The branches of a draft are s, in order, and mean what s means. */
  ghost predicate Placed(m: Model, heads: seq<nat>, s: seq<RTop>, o: Obj)
    requires |m.grp| <= 32 && Forest(m.cnd) && TopsOk(s)
  {
    && |heads| == |s|
    && forall k :: 0 <= k < |s| ==>
         && heads[k] < |m.cnd| && m.cnd[heads[k]].level == TopLevel(s[k])
         && UnitMeaning(m, heads[k], o) == TopMeaning(s[k], o)
  }

  lemma PlacedNone(m: Model, o: Obj)
    requires |m.grp| <= 32 && Forest(m.cnd)
    ensures Placed(m, [], [], o)
  {
  }

  lemma PlacedCons(m: Model, x: nat, heads: seq<nat>, t: RTop, s: seq<RTop>, o: Obj)
    requires |m.grp| <= 32 && Forest(m.cnd) && TopOk(t) && TopsOk(s) && Placed(m, heads, s, o)
    requires x < |m.cnd| && m.cnd[x].level == TopLevel(t) && UnitMeaning(m, x, o) == TopMeaning(t, o)
    ensures TopsOk([t] + s) && Placed(m, [x] + heads, [t] + s, o)
  {
    hide UnitMeaning, TopMeaning, TopOk, TopLevel;
  }

  lemma {:induction false} TopsPlaced(m: Model, calls: seq<RLit>, s: seq<RTop>, base: nat, at: nat, h: Header, o: Obj)
    requires From(m, calls, s, base, at, h)
    ensures |m.grp| <= 32 && Forest(m.cnd) && at <= |m.cnd| && TopsOk(s) && Placed(m, Heads(m.cnd, -1, at), s, o)
    decreases |s|
  {
    hide From, TopConds, TopLits, Heads, Placed, UnitMeaning, TopMeaning, TopLevel, TopOk;
    FromBasics(m, calls, s, base, at, h);
    if s == [] {
      NoMore(m, calls, base, at, h);
      PlacedNone(m, o);
    } else {
      var next := at + |TopConds(s[0], base, at)|;
      FromNext(m, calls, s, base, at, h);
      NextTop(m, calls, s, base, at, h);
      OwnKids(m, calls, s, base, at, h);
      HeadLevel(s[0], base, at);
      TopRead(m, calls, s, base, at, h, o);
      TopsPlaced(m, calls, s[1..], base + |TopLits(s[0])|, next, h, o);
      PlacedCons(m, at, Heads(m.cnd, -1, next), s[0], s[1..], o);
      assert [s[0]] + s[1..] == s;
    }
  }

  /** The level loop leaves such branches where they are exactly when they are ranked. */
  lemma RankedOrdered(m: Model, s: seq<RTop>, o: Obj)
    requires |m.grp| <= 32 && Forest(m.cnd) && TopsOk(s) && Placed(m, Heads(m.cnd, -1, 0), s, o)
    ensures Ordered(m.cnd) == Heads(m.cnd, -1, 0) <==> Ranked(s)
  {
    hide UnitMeaning, TopMeaning, Heads, ByLevel, TopLevel, TopOk;
    var heads := Heads(m.cnd, -1, 0);
    if Ranked(s) {
      ByRankOrdered(m.cnd, heads);
    }
    if Ordered(m.cnd) == heads {
      OrderedByRank(m.cnd, heads);
      forall i, j | 0 <= i < j < |s|
        ensures Rank(TopLevel(s[i])) <= Rank(TopLevel(s[j]))
      {
        assert m.cnd[heads[i]].level == TopLevel(s[i]) && m.cnd[heads[j]].level == TopLevel(s[j]);
      }
    }
  }

  lemma HeadLevel(x: RTop, base: nat, at: nat)
    ensures TopConds(x, base, at) != [] && TopConds(x, base, at)[0].level == TopLevel(x)
  {
    hide Print, Numbered, KidsConds;
  }

  // ---- the text of such branches ----------------------------------------------------------

  ghost predicate Clean(s: seq<seq<Tok>>) { forall i :: 0 <= i < |s| ==> Newline !in s[i] }

  lemma CleanAppend(a: seq<seq<Tok>>, b: seq<seq<Tok>>)
    requires Clean(a) && Clean(b)
    ensures Clean(a + b)
  {
  }

  lemma CleanNone()
    ensures Clean([])
  {
  }

  lemma IfClean(t: RTest)
    requires TestOk(t)
    ensures Newline !in IfLine(t) && Newline !in IfLine(t) + [LBrace]
  {
    hide TestToks;
    LineInside(t);
  }

  lemma LeafClean(x: RLeaf)
    requires LeafOk(x)
    ensures Clean(LeafLines(x))
  {
    hide IfLine, TestOk, NameOk;
    IfClean(x.test);
  }

  lemma {:induction false} KidsClean(s: seq<RLeaf>)
    requires forall i :: 0 <= i < |s| ==> LeafOk(s[i])
    ensures Clean(KidsLines(s))
    decreases |s|
  {
    hide LeafLines, LeafOk, Clean;
    if s == [] {
      CleanNone();
    } else {
      LeafClean(s[0]);
      KidsClean(s[1..]);
      CleanAppend(LeafLines(s[0]), KidsLines(s[1..]));
    }
  }

  lemma TopClean(x: RTop)
    requires TopOk(x)
    ensures Clean(TopLines(x))
  {
    hide LeafLines, KidsLines, IfLine, LeafOk, TestOk, NameOk;
    match x
    case TLeaf(leaf) => LeafClean(leaf);
    case TGate(test, kids, level, v) =>
      KidsClean(kids);
      if test.Some? { IfClean(test.value); }
      assert Newline !in HeadLine(test);
  }

  lemma {:induction false} TopsClean(s: seq<RTop>)
    requires TopsOk(s)
    ensures Clean(TopsLines(s))
    decreases |s|
  {
    hide TopLines, TopOk, Clean;
    if s == [] {
      CleanNone();
    } else {
      TopClean(s[0]);
      TopsClean(s[1..]);
      CleanAppend(TopLines(s[0]), TopsLines(s[1..]));
    }
  }

  // ---- and what reading it gives ----------------------------------------------------------

  ghost predicate Unmarked(decl: seq<Decl>) { forall i :: 0 <= i < |decl| ==> decl[i].grp == 0 }

  lemma NoBit(j: nat)
    requires j < MAX_GROUP
    ensures !Bit(0, j)
  {
    assert j == 0 || j == 1 || j == 2 || j == 3 || j == 4 || j == 5 || j == 6 || j == 7;
  }

  lemma StartContent(decl: seq<Decl>, h: Header)
    requires Unmarked(decl)
    ensures Content(Start(decl), [], [], h) && AtTop(Start(decl))
  {
    hide Bit;
    forall i: nat, j: nat | i < |decl| && j < MAX_GROUP
      ensures Bit(decl[i].grp, j) <==> Names([], j, i)
    {
      NoBit(j);
    }
  }

  lemma CloseLine(st: RState, h: Header)
    ensures ReadWhole(st, [RBrace, Newline], h) == Brace(st, RBrace)
  {
    hide ReadLine;
    var t := [RBrace, Newline];
    assert t == [RBrace] + [Newline] + [];
    LineLenIs([RBrace], []);
    assert t[..1] == [RBrace] && t[2..] == [];
    QuietLine(st, h);
  }

  /** The draft a body is read back as, every line of it whole. */
  function WholeBack(decl: seq<Decl>, t: seq<Tok>, h: Header): Model {
    var st := ReadWhole(Start(decl), t, h);
    Model(st.decl, st.grp, st.cnd, [], None)
  }

  /** Which is how a body with no line longer than the buffer is read. */
  lemma FitsBack(decl: seq<Decl>, t: seq<Tok>, h: Header)
    requires AllFit(t, INSIDE, h.name)
    ensures ReadBack(decl, t, h) == WholeBack(decl, t, h)
  {
    hide ReadAll, ReadWhole, AllFit;
    FitsWhole(Start(decl), t, INSIDE, h);
  }

  lemma ReadGives(decl: seq<Decl>, s: seq<RTop>, h: Header)
    requires Unmarked(decl) && TopsOk(s) && |TopsConds(s, 0, 0)| <= MAX_GROUP && |TopsLits(s)| <= MAX_GROUP
    ensures var m := WholeBack(decl, Text(TopsLines(s)) + [RBrace, Newline], h);
      && m.cnd == TopsConds(s, 0, 0) && m.grp == Groups(TopsLits(s), h) && Wired(m.decl, TopsLits(s))
      && m.sizeMax == None
  {
    hide ReadLine, Wired, Groups, TopOk, TopConds, TopLits, TopsLines;
    var st, lines := Start(decl), TopsLines(s);
    StartContent(decl, h);
    TopsClean(s);
    ReadText(st, lines, [RBrace, Newline], h);
    ReadTops(st, s, h, [], []);
    assert [] + TopsLits(s) == TopsLits(s) && [] + TopsConds(s, 0, 0) == TopsConds(s, 0, 0);
    CloseLine(ReadLines(st, lines, h), h);
  }

  lemma {:induction false} CallsLen(st: RState, line: seq<Tok>, i: nat, h: Header)
    requires i <= |line|
    ensures |Calls(st, line, i, h).decl| == |st.decl|
    decreases |line| - i
  {
    hide Marked, GroupOf, Fitted, CallAt;
    if i < |line| {
      CallsLen(if IsCall(line[i]) then Call(st, CallAt(line[i], h), NegatedAt(line, i), ThreshAt(line, i))
          else st, line, i + 1, h);
    }
  }

  lemma {:induction false} BracesLen(st: RState, line: seq<Tok>)
    ensures |Braces(st, line).decl| == |st.decl|
    decreases |line|
  {
    if line != [] { BracesLen(Brace(st, line[0]), line[1..]); }
  }

  lemma LineLenKept(st: RState, line: seq<Tok>, h: Header)
    ensures |ReadLine(st, line, h).decl| == |st.decl|
  {
    hide Calls, Braces, Judged;
    var a := Bare(st, line);
    var b := SetOr(if KIf in line then If(a, line) else a, line);
    CallsLen(b, line, 0, h);
    var c := Verdict(Calls(b, line, 0, h), line);
    BracesLen(c, line);
  }

  /** No marker is gained or lost. */
  lemma {:induction false} ReadKeepsMarkers(st: RState, t: seq<Tok>, h: Header)
    ensures |ReadWhole(st, t, h).decl| == |st.decl|
    decreases |t|
  {
    hide ReadLine;
    var n := LineLen(t);
    if t != [] {
      LineLenKept(st, t, h);
      LineLenKept(st, t[..n], h);
      if n < |t| { ReadKeepsMarkers(ReadLine(st, t[..n], h), t[n + 1..], h); }
    }
  }

  /** What was read is a draft holding exactly those branches. */
  lemma ReadFrom(decl: seq<Decl>, s: seq<RTop>, h: Header)
    requires Unmarked(decl) && TopsOk(s) && |TopsConds(s, 0, 0)| <= MAX_GROUP && |TopsLits(s)| <= MAX_GROUP
    requires CallsOk(TopsLits(s), |decl|, h)
    ensures var m := WholeBack(decl, Text(TopsLines(s)) + [RBrace, Newline], h);
      From(m, TopsLits(s), s, 0, 0, h) && m.sizeMax == None
  {
    hide ReadWhole, Wired, Groups, TopOk, TopsLines, CallsOk, TopsConds, TopsLits;
    var m := WholeBack(decl, Text(TopsLines(s)) + [RBrace, Newline], h);
    ReadGives(decl, s, h);
    ReadKeepsMarkers(Start(decl), Text(TopsLines(s)) + [RBrace, Newline], h);
    FewMatchers(m, TopsLits(s), h);
    TopsShape(s, 0, 0);
    ShallowForest(m.cnd);
    assert TopsLits(s)[0..] == TopsLits(s) && m.cnd[0..] == m.cnd;
  }

  /** Reading plain branches, strongest first, gives a draft that says what they mean. */
  lemma ReadBackMeans(decl: seq<Decl>, s: seq<RTop>, h: Header, o: Obj)
    requires Unmarked(decl) && TopsOk(s) && |TopsConds(s, 0, 0)| <= MAX_GROUP && |TopsLits(s)| <= MAX_GROUP
    requires Ranked(s) && CallsOk(TopsLits(s), |decl|, h)
    ensures var m := WholeBack(decl, Text(TopsLines(s)) + [RBrace, Newline], h);
      |m.grp| <= 32 && Forest(m.cnd) && Meaning(m, o) == TopsMeaning(s, o)
  {
    hide WholeBack, TopOk, TopsLines, CallsOk, TopsConds, TopsLits, Heads, FirstOf, TopsMeaning, From, Ranked, Placed;
    hide ByLevel;
    var m := WholeBack(decl, Text(TopsLines(s)) + [RBrace, Newline], h);
    ReadFrom(decl, s, h);
    TopsRead(m, TopsLits(s), s, 0, 0, h, o);
    TopsPlaced(m, TopsLits(s), s, 0, 0, h, o);
    RankedOrdered(m, s, o);
  }

  lemma ShallowForest(cnd: seq<Cond>)
    requires Shallow(cnd, 0)
    ensures Forest(cnd)
  {
    forall k | 0 <= k < |cnd|
      ensures -1 <= cnd[k].parent < k
    {
      assert ShallowAt(cnd, 0, k);
    }
  }
}
