/** How wide the lines of a body are. */
module Widths {
  import opened TargetC
  import opened DraftModel
  import opened ExprSource
  import opened IdList
  import opened Lines
  import opened CallText
  import opened Reader
  import opened Rebuild
  import opened ReadMeaning
  import opened Samples
  import RoundTrip

  // ---- a counted search of the whole file -------------------------------------------------

  lemma {:induction false} MarkersAppend(a: seq<nat>, b: seq<nat>)
    ensures Markers(a + b) == Markers(a) + Markers(b)
    decreases |a|
  {
    hide Dec;
    if a == [] {
      assert a + b == b;
    } else {
      assert (a + b)[1..] == a[1..] + b;
      MarkersAppend(a[1..], b);
    }
  }

  lemma DecWidth(n: nat)
    requires n < 100
    ensures |Dec(n)| == if n < 10 then 1 else 2
  {
    if n >= 10 { assert |Dec(n / 10)| == 1; }
  }

  lemma {:induction false} MarkersWidth(strs: seq<nat>, w: nat)
    requires w == 1 || w == 2
    requires forall i :: 0 <= i < |strs| ==> strs[i] < 100 && (strs[i] >= 10 <==> w == 2)
    ensures |Markers(strs)| == (3 + w) * |strs|
    decreases |strs|
  {
    hide Dec;
    if strs != [] {
      DecWidth(strs[0]);
      MarkersWidth(strs[1..], w);
    }
  }

  lemma {:induction false} MarkersRoom(strs: seq<nat>)
    requires Few(strs)
    ensures |Markers(strs)| <= 5 * |strs|
    decreases |strs|
  {
    hide Dec;
    if strs != [] {
      DecWidth(strs[0]);
      MarkersRoom(strs[1..]);
    }
  }

  lemma CallWidth(l: RLit)
    requires l.call.Find?
    ensures |Spell(l.call, WholeFile())| == 36 + |KindWord(l.call.kind)| + |Markers(l.call.strs)|
    ensures |KindWord(l.call.kind)| <= 5
  {
    hide Markers, KindWord;
    WholeFound(l.call.range);
    KindWidth(l.call.kind);
  }

  lemma KindWidth(k: FindKind)
    ensures |KindWord(k)| == if k == FindMulti then 5 else 3
  {
  }

  lemma Spelled2(a: Tok, b: Tok, name: Naming)
    ensures Spelled([a, b], name) == Spell(a, name) + Spell(b, name)
  {
    hide Spell;
    assert [a, b] == [a] + [b] && [b] == [b] + [];
    SpelledCons(a, [b], name);
    SpelledCons(b, [], name);
    SpelledNone(name);
  }

  lemma Spelled1(a: Tok, name: Naming)
    ensures Spelled([a], name) == Spell(a, name)
  {
    hide Spell;
    assert [a] == [a] + [];
    SpelledCons(a, [], name);
    SpelledNone(name);
  }

  /** A comparison is the call, and five characters more when it counts to a digit. */
  lemma LitWidth(l: RLit)
    requires l.call.Find? && !l.neg && l.thresh < 10
    ensures |Spelled(LitToks(l), WholeFile())| == |Spell(l.call, WholeFile())| + if l.call.kind == FindMulti then 5
      else 0
  {
    hide Spell, Spelled;
    var name := WholeFile();
    Spelled1(l.call, name);
    if l.call.kind == FindMulti {
      SpelledAppend([l.call], [Ge, Num(l.thresh)], name);
      Spelled2(Ge, Num(l.thresh), name);
      NumWidth(l.thresh, name);
    } else {
      assert [l.call] + [] == [l.call];
    }
  }

  lemma NumWidth(n: nat, name: Naming)
    requires n < 10
    ensures |Spell(Ge, name)| == 4 && |Spell(Num(n), name)| == 1 && |Spell(AndAnd, name)| == 4
  {
    DecWidth(n);
  }

  /** What follows the first comparison. */
  lemma {:induction false} TailWidth(s: seq<RLit>, w: nat)
    requires forall i :: 0 <= i < |s| ==> |Spelled(LitToks(s[i]), WholeFile())| == w
    ensures |Spelled(TailToks(false, s), WholeFile())| == (4 + w) * |s|
    decreases |s|
  {
    hide Spell, Spelled, LitToks;
    var name := WholeFile();
    if s == [] {
      SpelledNone(name);
    } else {
      TailWidth(s[1..], w);
      SpelledAppend([AndAnd] + LitToks(s[0]), TailToks(false, s[1..]), name);
      SpelledAppend([AndAnd], LitToks(s[0]), name);
      Spelled1(AndAnd, name);
      NumWidth(0, name);
    }
  }

  lemma {:induction false} TailRoom(s: seq<RLit>, w: nat)
    requires forall i :: 0 <= i < |s| ==> |Spelled(LitToks(s[i]), WholeFile())| <= w
    ensures |Spelled(TailToks(false, s), WholeFile())| <= (4 + w) * |s|
    decreases |s|
  {
    hide Spell, Spelled, LitToks;
    var name := WholeFile();
    if s == [] {
      SpelledNone(name);
    } else {
      TailRoom(s[1..], w);
      SpelledAppend([AndAnd] + LitToks(s[0]), TailToks(false, s[1..]), name);
      SpelledAppend([AndAnd], LitToks(s[0]), name);
      Spelled1(AndAnd, name);
      NumWidth(0, name);
    }
  }

  // ---- short lines ------------------------------------------------------------------------

  const SHORT: nat := 900

  predicate Brief(line: seq<Tok>, name: Naming) { Newline !in line && |Spelled(line, name)| <= SHORT }

  lemma {:induction false} OpenedRoom(open: nat, line: seq<Tok>)
    ensures Opened(open, line) <= open + |line|
    decreases |line|
  {
    if line != [] { OpenedRoom(if line[0] == LBrace then open + 1 else if line[0] == RBrace && open > 0 then open - 1
        else open, line[1..]); }
  }

  lemma LineFits(line: seq<Tok>, more: seq<Tok>, at: Layout, name: Naming)
    requires Brief(line, name) && at.open <= 100 && AllFit(more, Lines.Next(at, line), name)
    ensures AllFit(line + [Newline] + more, at, name)
  {
    hide Spelled, Opened, Lines.Next;
    var t := line + [Newline] + more;
    LineLenIs(line, more);
    assert t[..|line|] == line && t[|line| + 1..] == more;
  }

  /** Lines that are short fit, wherever they begin. */
  lemma {:induction false} BriefFit(s: seq<seq<Tok>>, at: Layout, name: Naming)
    requires forall i :: 0 <= i < |s| ==> Brief(s[i], name)
    requires at.open + |Text(s)| <= 100
    ensures AllFit(Text(s), at, name)
    decreases |s|
  {
    hide Brief, Opened, AllFit;
    if s == [] {
      EndFits(at, name);
    } else {
      OpenedRoom(at.open, s[0]);
      BriefFit(s[1..], Lines.Next(at, s[0]), name);
      LineFits(s[0], Text(s[1..]), at, name);
    }
  }

  lemma EndFits(at: Layout, name: Naming)
    ensures AllFit([], at, name)
  {
    SpelledNone(name);
  }

  /** What is in an if line. */
  lemma IfWidth(t: RTest)
    requires t.lits != [] && !t.op
    ensures |Spelled(IfLine(t), WholeFile())|
         == 5 + |Spelled(LitToks(t.lits[0]), WholeFile())| + |Spelled(TailToks(false, t.lits[1..]), WholeFile())|
  {
    hide Spell, Spelled, LitToks, TailToks;
    var name := WholeFile();
    var a, b := LitToks(t.lits[0]), TailToks(false, t.lits[1..]);
    assert IfLine(t) == [KIf, LPar] + (a + b) + [RPar];
    SpelledAppend([KIf, LPar] + (a + b), [RPar], name);
    SpelledAppend([KIf, LPar], a + b, name);
    SpelledAppend(a, b, name);
    Spelled2(KIf, LPar, name);
    Spelled1(RPar, name);
    Marks(name);
  }

  lemma Marks(name: Naming)
    ensures |Spell(KIf, name)| == 3 && |Spell(LPar, name)| == 1 && |Spell(RPar, name)| == 1
      && |Spell(RBrace, name)| == 1
    ensures |Spell(Semi, name)| == 1
    ensures forall l: Level :: |Spell(Scan(l, Auto), name)| <= 40
  {
  }

  lemma IfBrief(t: RTest)
    requires TestOk(t) && !t.op && |t.lits| <= 6
    requires forall i :: 0 <= i < |t.lits| ==>
      t.lits[i].call.Find? && !t.lits[i].neg && t.lits[i].thresh < 10 && |t.lits[i].call.strs| <= 16
    ensures Brief(IfLine(t), WholeFile())
  {
    hide Spell, Spelled, LitToks, TailToks, IfLine, Markers;
    forall i | 0 <= i < |t.lits|
      ensures |Spelled(LitToks(t.lits[i]), WholeFile())| <= 126
    {
      CallWidth(t.lits[i]);
      MarkersRoom(t.lits[i].call.strs);
      LitWidth(t.lits[i]);
    }
    IfWidth(t);
    TailRoom(t.lits[1..], 126);
    RoundTrip.IfClean(t);
  }

  lemma ScanBrief(level: Level)
    ensures Brief(ScanLine(level, Auto), WholeFile()) && Brief([RBrace], WholeFile())
  {
    hide Spell, Spelled;
    Spelled2(Scan(level, Auto), Semi, WholeFile());
    Spelled1(RBrace, WholeFile());
    Marks(WholeFile());
  }
}
