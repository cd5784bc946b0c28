/** The order `generate` writes the top-level branches in, and which conditions that visits. */
module Order {
  import opened TargetC
  import opened DraftModel
  import opened Conditions

  function Rank(l: Level): nat {
    match l
    case Infect => 0
    case Suspect => 1
    case NoVerdict => 2
  }

  function Span(k: nat, last: nat): (r: set<nat>)
    ensures forall x: nat :: x in r <==> k <= x <= last
    decreases last + 1 - k
  {
    if k > last then {} else {k} + Span(k + 1, last)
  }

  /** One pass of the level loop from index k: the heads of the branches it writes, and
      everything marked off once it ends. */
  function Pass(cnd: seq<Cond>, lvl: Level, k: nat, done: set<nat>): (r: (seq<nat>, set<nat>))
    requires k <= |cnd|
    ensures forall i :: 0 <= i < |r.0| ==> k <= r.0[i] < |cnd|
    decreases |cnd| - k
  {
    if k == |cnd| then ([], done)
    else if cnd[k].parent >= 0 || k in done || cnd[k].level != lvl then Pass(cnd, lvl, k + 1, done)
    else
      var last := RunEnd(cnd, k);
      var r := Pass(cnd, lvl, last + 1, done + Span(k, last));
      ([k] + r.0, r.1)
  }

  /** Everything the three passes write, in order. */
  function Written(cnd: seq<Cond>): (r: seq<nat>)
    ensures HeadsIn(cnd, r, 0)
  {
    var p0 := Pass(cnd, Infect, 0, {});
    var p1 := Pass(cnd, Suspect, 0, p0.1);
    var p2 := Pass(cnd, NoVerdict, 0, p1.1);
    p0.0 + p1.0 + p2.0
  }

  /** No conjoined run at the top level begins with a verdict weaker than a later member's. */
  ghost predicate HeadsStrongest(cnd: seq<Cond>) {
    forall h, x :: h in Heads(cnd, -1, 0) && x in Members(cnd, h) ==>
      Rank(cnd[h].level) <= Rank(cnd[x].level)
  }

  // ---- runs ------------------------------------------------------------------------------

  lemma {:induction false} MembersIncrease(cnd: seq<Cond>, i: nat)
    requires i < |cnd|
    ensures forall x, y :: 0 <= x < y < |Members(cnd, i)| ==> Members(cnd, i)[x] < Members(cnd, i)[y]
    decreases |cnd| - i
  {
    if Linked(cnd, i) {
      var nx := SibNext(cnd, i);
      MembersIncrease(cnd, nx);
      assert Members(cnd, i) == [i] + Members(cnd, nx);
      assert Members(cnd, nx)[0] == nx > i;
    }
  }

  /** A run read from one of its members ends where the run ends. */
  lemma {:induction false} TailRun(cnd: seq<Cond>, i: nat, x: nat)
    requires i < |cnd| && x in Members(cnd, i)
    ensures x < |cnd| && RunEnd(cnd, x) == RunEnd(cnd, i)
    decreases |cnd| - i
  {
    if Linked(cnd, i) && x != i {
      var nx := SibNext(cnd, i);
      assert Members(cnd, i) == [i] + Members(cnd, nx);
      TailRun(cnd, nx, x);
    }
  }

  lemma InRun(cnd: seq<Cond>, i: nat, x: nat)
    requires i < |cnd|
    ensures x in Members(cnd, i) <==> i <= x <= RunEnd(cnd, i) && cnd[x].parent == cnd[i].parent
  {
  }

  /** A branch's head is covered by no run that begins before it. */
  lemma {:induction false} HeadUncovered(cnd: seq<Cond>, p: int, k: nat, h: nat, x: nat)
    requires k <= |cnd| && h in Heads(cnd, p, k)
    requires k <= x < h < |cnd| && cnd[x].parent == p
    ensures RunEnd(cnd, x) < h
    decreases |cnd| - k
  {
    hide Members, RunEnd;
    if cnd[k].parent == p {
      var last := RunEnd(cnd, k);
      assert Heads(cnd, p, k) == [k] + Heads(cnd, p, last + 1);
      if x <= last { InRun(cnd, k, x); TailRun(cnd, k, x); } else { HeadUncovered(cnd, p, last + 1, h, x); }
    } else {
      HeadUncovered(cnd, p, k + 1, h, x);
    }
  }

  // ---- with strong heads, the passes are a stable sort -----------------------------------

  /** What is marked off among the branches under the top from k on when the pass for `lvl`
      begins: those with a stronger head. */
  ghost predicate Sorted(cnd: seq<Cond>, k: nat, lvl: nat, done: set<nat>)
    requires k <= |cnd|
  {
    forall h, x :: h in Heads(cnd, -1, k) && x in Members(cnd, h) ==>
      (x in done <==> Rank(cnd[h].level) < lvl)
  }

  ghost predicate StrongFrom(cnd: seq<Cond>, k: nat)
    requires k <= |cnd|
  {
    forall h, x :: h in Heads(cnd, -1, k) && x in Members(cnd, h) ==>
      Rank(cnd[h].level) <= Rank(cnd[x].level)
  }

  lemma {:induction false} SkipTo(cnd: seq<Cond>, lvl: Level, k: nat, to: nat, done: set<nat>)
    requires k <= to <= |cnd|
    requires forall j :: k <= j < to ==> cnd[j].parent >= 0 || j in done || cnd[j].level != lvl
    ensures Pass(cnd, lvl, k, done) == Pass(cnd, lvl, to, done)
    decreases |cnd| - k
  {
    hide Members, RunEnd;
    if k < to { SkipTo(cnd, lvl, k + 1, to, done); }
  }

  /** A pass for another level walks over a whole run: stronger ones are marked off, and no
      member of a weaker one has the pass's level. */
  lemma PassesOver(cnd: seq<Cond>, lvl: Level, k: nat, done: set<nat>)
    requires Forest(cnd) && k < |cnd| && cnd[k].parent == -1 && cnd[k].level != lvl
    requires forall x :: x in Members(cnd, k) ==>
      Rank(cnd[k].level) <= Rank(cnd[x].level) && (x in done <==> Rank(cnd[k].level) < Rank(lvl))
    ensures Pass(cnd, lvl, k, done) == Pass(cnd, lvl, RunEnd(cnd, k) + 1, done)
  {
    hide Members, Pass, RunEnd;
    forall j | k <= j < RunEnd(cnd, k) + 1
      ensures cnd[j].parent >= 0 || j in done || cnd[j].level != lvl
    {
      InRun(cnd, k, j);
    }
    SkipTo(cnd, lvl, k, RunEnd(cnd, k) + 1, done);
  }

  /** The next branch from k, and everything after it. */
  lemma HeadsStep(cnd: seq<Cond>, p: int, k: nat)
    requires k < |cnd|
    ensures cnd[k].parent == p ==> Heads(cnd, p, k) == [k] + Heads(cnd, p, RunEnd(cnd, k) + 1)
    ensures cnd[k].parent != p ==> Heads(cnd, p, k) == Heads(cnd, p, k + 1)
  {
  }

  lemma PassStep(cnd: seq<Cond>, lvl: Level, k: nat, done: set<nat>)
    requires k < |cnd|
    ensures cnd[k].parent >= 0 || k in done || cnd[k].level != lvl ==>
      Pass(cnd, lvl, k, done) == Pass(cnd, lvl, k + 1, done)
    ensures !(cnd[k].parent >= 0 || k in done || cnd[k].level != lvl) ==>
      var r := Pass(cnd, lvl, RunEnd(cnd, k) + 1, done + Span(k, RunEnd(cnd, k)));
      Pass(cnd, lvl, k, done) == ([k] + r.0, r.1)
  {
    hide RunEnd;
  }

  lemma PassEnd(cnd: seq<Cond>, lvl: Level, done: set<nat>)
    ensures Pass(cnd, lvl, |cnd|, done) == ([], done)
    ensures Heads(cnd, -1, |cnd|) == []
  {
  }

  lemma SortedAfter(cnd: seq<Cond>, k: nat, lvl: nat, done: set<nat>, done': set<nat>)
    requires k < |cnd| && cnd[k].parent == -1 && Sorted(cnd, k, lvl, done)
    requires forall x: nat :: x > RunEnd(cnd, k) ==> (x in done' <==> x in done)
    ensures Sorted(cnd, RunEnd(cnd, k) + 1, lvl, done')
  {
    hide Members, RunEnd, Heads;
    HeadsStep(cnd, -1, k);
    var last := RunEnd(cnd, k);
    forall h, x | h in Heads(cnd, -1, last + 1) && x in Members(cnd, h)
      ensures x in done' <==> Rank(cnd[h].level) < lvl
    {
      InRun(cnd, h, x);
      assert h in Heads(cnd, -1, k);
    }
  }

  lemma SortedBefore(cnd: seq<Cond>, k: nat, lvl: nat, done: set<nat>)
    requires k < |cnd| && cnd[k].parent == -1 && Sorted(cnd, RunEnd(cnd, k) + 1, lvl, done)
    requires forall x :: x in Members(cnd, k) ==> (x in done <==> Rank(cnd[k].level) < lvl)
    ensures Sorted(cnd, k, lvl, done)
  {
    hide Members, RunEnd, Heads;
    HeadsStep(cnd, -1, k);
  }

  lemma {:induction false} PassSorts(cnd: seq<Cond>, lvl: Level, k: nat, done: set<nat>)
    requires Forest(cnd) && k <= |cnd| && StrongFrom(cnd, k) && Sorted(cnd, k, Rank(lvl), done)
    ensures Pass(cnd, lvl, k, done).0 == ByLevel(cnd, Heads(cnd, -1, k), lvl)
    ensures Sorted(cnd, k, Rank(lvl) + 1, Pass(cnd, lvl, k, done).1)
    ensures forall x: nat :: x < k ==> (x in Pass(cnd, lvl, k, done).1 <==> x in done)
    decreases |cnd| - k
  {
    hide Members, RunEnd, Span, Pass, Heads;
    if k == |cnd| {
      PassEnd(cnd, lvl, done);
    } else {
      HeadsStep(cnd, -1, k);
      PassStep(cnd, lvl, k, done);
      if cnd[k].parent != -1 { PassSorts(cnd, lvl, k + 1, done); } else { PassSortsHead(cnd, lvl, k, done); }
    }
  }

  /** What a pass does with a branch whose head it reaches. */
  lemma PassHead(cnd: seq<Cond>, lvl: Level, k: nat, done: set<nat>) returns (done': set<nat>)
    requires Forest(cnd) && k < |cnd| && cnd[k].parent == -1
    requires StrongFrom(cnd, k) && Sorted(cnd, k, Rank(lvl), done)
    ensures forall x: nat :: x < k || x > RunEnd(cnd, k) ==> (x in done' <==> x in done)
    ensures forall x :: x in Members(cnd, k) ==> (x in done' <==> Rank(cnd[k].level) < Rank(lvl) + 1)
    ensures var r := Pass(cnd, lvl, RunEnd(cnd, k) + 1, done');
      Pass(cnd, lvl, k, done) == ((if cnd[k].level == lvl then [k] else []) + r.0, r.1)
  {
    hide Members, RunEnd, Heads, Pass;
    var last := RunEnd(cnd, k);
    HeadsStep(cnd, -1, k);
    InRun(cnd, k, k);
    assert k in Heads(cnd, -1, k);
    if cnd[k].level == lvl {
      done' := done + Span(k, last);
      PassStep(cnd, lvl, k, done);
    } else {
      done' := done;
      PassesOver(cnd, lvl, k, done);
      var r := Pass(cnd, lvl, last + 1, done);
      assert [] + r.0 == r.0;
    }
    forall x | x in Members(cnd, k)
      ensures x in done' <==> Rank(cnd[k].level) < Rank(lvl) + 1
    {
      InRun(cnd, k, x);
    }
  }

  lemma {:induction false} PassSortsHead(cnd: seq<Cond>, lvl: Level, k: nat, done: set<nat>)
    requires Forest(cnd) && k < |cnd| && cnd[k].parent == -1
    requires StrongFrom(cnd, k) && Sorted(cnd, k, Rank(lvl), done)
    ensures Pass(cnd, lvl, k, done).0 == ByLevel(cnd, Heads(cnd, -1, k), lvl)
    ensures Sorted(cnd, k, Rank(lvl) + 1, Pass(cnd, lvl, k, done).1)
    ensures forall x: nat :: x < k ==> (x in Pass(cnd, lvl, k, done).1 <==> x in done)
    decreases |cnd| - k, 0
  {
    hide Members, RunEnd, Heads, Pass, Span, Sorted;
    var last := RunEnd(cnd, k);
    HeadsStep(cnd, -1, k);
    var done' := PassHead(cnd, lvl, k, done);
    SortedAfter(cnd, k, Rank(lvl), done, done');
    PassSorts(cnd, lvl, last + 1, done');
    var r := Pass(cnd, lvl, last + 1, done').1;
    forall x | x in Members(cnd, k)
      ensures x in r <==> Rank(cnd[k].level) < Rank(lvl) + 1
    {
      InRun(cnd, k, x);
    }
    SortedBefore(cnd, k, Rank(lvl) + 1, r);
  }

  /** With strong heads, what is written is the stable order by level. */
  lemma WrittenSorted(cnd: seq<Cond>)
    requires Forest(cnd) && HeadsStrongest(cnd)
    ensures Written(cnd) == Ordered(cnd)
  {
    var p0 := Pass(cnd, Infect, 0, {});
    var p1 := Pass(cnd, Suspect, 0, p0.1);
    PassSorts(cnd, Infect, 0, {});
    PassSorts(cnd, Suspect, 0, p0.1);
    PassSorts(cnd, NoVerdict, 0, p1.1);
  }
}
