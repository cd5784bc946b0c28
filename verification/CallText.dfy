/** A search call taken apart by its characters, whole or cut short by the end of a line. */
module CallText {
  import opened TargetC
  import opened DraftModel
  import opened ExprSource
  import opened IdList
  import opened Lines
  import PlaceText

  /** What the file's head declares: how ranges are named, and which of them it has. */
  datatype Header = Header(name: Naming, ranges: seq<bv32>)

  const IDENT_ROOM: nat := 47

  /** An identifier as far as the reader keeps it. */
  function Hold(w: string): string { if |w| <= IDENT_ROOM then w else w[..IDENT_ROOM] }

  function SkipCommas(s: string): (r: string)
    ensures |r| <= |s|
  {
    if s != "" && (s[0] == ' ' || s[0] == '\t' || s[0] == ',') then SkipCommas(s[1..]) else s
  }

  /** The leading run of identifier characters. */
  function NameRun(s: string): (r: string)
    ensures |r| <= |s| && r == s[..|r|]
  {
    if s != "" && NameChar(s[0]) then [s[0]] + NameRun(s[1..]) else ""
  }

  /** The next identifier of a list, and what is left of the list. */
  function Ident(s: string): (r: (string, string))
    ensures r.0 != "" ==> |r.1| < |s|
    ensures |r.1| <= |s|
  {
    var t := SkipCommas(s);
    var w := NameRun(t);
    (Hold(w), t[|w|..])
  }

  /** The identifiers of the markers a call lists. */
  function MarkerIds(s: string): seq<string>
    decreases |s|
  {
    if s == "" || (s[0] != ',' && s[0] != ' ') then []
    else
      var r := Ident(s);
      if r.0 == "" then [] else [r.0] + MarkerIds(SkipSpaces(r.1))
  }

  /** Of the ranges declared under that name, the last. */
  function MaskOf(h: Header, id: string): bv32 { LastNamed(h, id, |h.ranges|) }

  function LastNamed(h: Header, id: string, n: nat): bv32
    requires n <= |h.ranges|
  {
    if n == 0 then 0 else if Hold(h.name(h.ranges[n - 1])) == id then h.ranges[n - 1] else LastNamed(h, id, n - 1)
  }

  function ParenAt(s: string): (n: nat)
    ensures n <= |s|
  {
    if s == "" || s[0] == '(' then 0 else 1 + ParenAt(s[1..])
  }

  function RuleIn(s: string): nat { if "any" <= s then 1 else if "multi" <= s then 2 else if "at" <= s then 3 else 0 }

  /** What a call was found to ask. */
  datatype Asked = Asked(rule: nat, mask: bv32, place: Place, ids: seq<string>)

  /** Nothing, when the bracket was cut off. Where the C negates the most negative step, which it
      cannot, any place will do. */
  function Asks(text: string, h: Header): Option<Asked>
    requires |text| >= |CALL|
  {
    var p := ParenAt(text);
    if p == |text| then None
    else
      var q, rule := text[p + 1..], RuleIn(text[|CALL|..]);
      if rule == 3 then
        match PlaceText.Parse(q)
        case Reading(a, off, rest) => Some(Asked(3, 0, Place(a, off as int), MarkerIds(rest)))
        case Overflow => Some(Asked(3, 0, Place(0, 0), []))
      else
        var id := Ident(q);
        Some(Asked(rule, MaskOf(h, id.0), Place(0, 0), MarkerIds(id.1)))
  }

  // ---- a whole call -----------------------------------------------------------------------

  function IdOf(i: nat): string { "s" + Dec(i) }

  function IdsOf(strs: seq<nat>): (r: seq<string>)
    ensures |r| == |strs| && forall i :: 0 <= i < |strs| ==> r[i] == IdOf(strs[i])
  {
    seq(|strs|, i requires 0 <= i < |strs| => IdOf(strs[i]))
  }

  /** A marker is found by its own name and no other. */
  lemma IdOnly(i: nat, strs: seq<nat>)
    ensures IdOf(i) in IdsOf(strs) <==> i in strs
  {
    if IdOf(i) in IdsOf(strs) {
      var k: nat :| k < |strs| && IdsOf(strs)[k] == IdOf(i);
      DecimalDec(i);
      DecimalDec(strs[k]);
      assert IdOf(i)[1..] == Dec(i) && IdOf(strs[k])[1..] == Dec(strs[k]);
    }
    if i in strs {
      var k: nat :| k < |strs| && strs[k] == i;
      assert IdsOf(strs)[k] == IdOf(i);
    }
  }

  /** A step that can be read back. */
  predicate PlaceOk(p: Place) {
    && p.anchor < PlaceText.ANCHOR_COUNT && Fits64(p.step)
    && !(PlaceText.HasName(p.anchor, true) && p.step == PlaceText.INT64_MIN)
  }

  predicate Whole(t: Tok) {
    || (t.Find? && Few(t.strs))
    || (t.FindAt? && PlaceOk(t.place) && t.strs != [] && Few(t.strs))
  }

  function RuleOf(t: Tok): nat {
    if t.FindAt? then 3 else if t.Find? && t.kind == FindAny then 1 else if t.Find? && t.kind == FindMulti then 2 else 0
  }

  function StrsOf(t: Tok): seq<nat> { if t.Find? then t.strs else if t.FindAt? then t.strs else [] }

  /** What a whole call asks. */
  function AskedOf(t: Tok, h: Header): Asked {
    Asked(RuleOf(t), if t.Find? then MaskOf(h, Hold(h.name(t.range))) else 0,
          if t.FindAt? then t.place else Place(0, 0), IdsOf(StrsOf(t)))
  }

  lemma {:induction false} RunThen(w: string, k: string)
    requires forall i :: 0 <= i < |w| ==> NameChar(w[i])
    requires k == "" || !NameChar(k[0])
    ensures NameRun(w + k) == w && (w + k)[|w|..] == k
    decreases |w|
  {
    hide NameChar;
    if w == "" {
      assert w + k == k;
    } else {
      assert (w + k)[1..] == w[1..] + k;
      assert (w + k)[0] == w[0];
      RunThen(w[1..], k);
      assert [w[0]] + w[1..] == w;
      assert (w + k)[|w|..] == k;
    }
  }

  lemma NameNext(w: string, k: string)
    requires IsName(w) && (k == "" || !NameChar(k[0]))
    ensures Ident(w + k) == (Hold(w), k)
  {
    assert (w + k)[0] == w[0];
    RunThen(w, k);
  }

  lemma IdIsName(i: nat)
    ensures IsName(IdOf(i))
  {
  }

  /** What may follow a marker: the next one, the closing bracket, or nothing. */
  predicate Ends(k: string) { k == "" || k[0] == ',' || k[0] == ')' }

  lemma MarkersCons(strs: seq<nat>, k: string)
    requires strs != []
    ensures Markers(strs) + k == ", " + (IdOf(strs[0]) + (Markers(strs[1..]) + k))
  {
    hide Dec;
    assert ", s" + Dec(strs[0]) == ", " + ("s" + Dec(strs[0]));
  }

  lemma MarkersEnd(strs: seq<nat>, k: string)
    requires Ends(k)
    ensures Ends(Markers(strs) + k)
    ensures strs == [] ==> Markers(strs) + k == k
  {
    if strs != [] { MarkersCons(strs, k); }
  }

  lemma MarkerNext(x: string, k: string)
    requires IsName(x) && |x| <= IDENT_ROOM && Ends(k)
    ensures MarkerIds(", " + (x + k)) == [x] + MarkerIds(k)
  {
    hide NameRun;
    var s := ", " + (x + k);
    assert s[1..] == " " + (x + k) && s[1..][1..] == x + k;
    assert (x + k)[0] == x[0];
    assert SkipCommas(s) == SkipCommas(s[1..]) == SkipCommas(x + k) == x + k;
    RunThen(x, k);
    assert Ident(s) == (x, k);
    assert SkipSpaces(k) == k;
  }

  predicate Few(strs: seq<nat>) { forall i :: 0 <= i < |strs| ==> strs[i] < MAX_DECL }

  lemma IdShort(i: nat)
    requires i < MAX_DECL
    ensures IsName(IdOf(i)) && |IdOf(i)| <= 3
  {
    assert |Dec(i / 10)| == 1;
  }

  lemma {:induction false} MarkersRead(strs: seq<nat>, k: string)
    requires Few(strs) && Ends(k)
    ensures MarkerIds(Markers(strs) + k) == IdsOf(strs) + MarkerIds(k)
    decreases |strs|
  {
    hide MarkerIds, IdOf, Markers;
    MarkersEnd(strs, k);
    if strs != [] {
      var rest := Markers(strs[1..]) + k;
      MarkersCons(strs, k);
      MarkersEnd(strs[1..], k);
      IdShort(strs[0]);
      MarkerNext(IdOf(strs[0]), rest);
      MarkersRead(strs[1..], k);
      assert [IdOf(strs[0])] + IdsOf(strs[1..]) == IdsOf(strs);
    }
  }

  lemma ParenWord(w: string, k: string)
    requires forall i :: 0 <= i < |w| ==> w[i] != '('
    ensures ParenAt(w + ("(" + k)) == |w| && (w + ("(" + k))[|w| + 1..] == k
    decreases |w|
  {
    var s := w + ("(" + k);
    if w != "" {
      ParenWord(w[1..], k);
      assert s[1..] == w[1..] + ("(" + k);
    }
  }

  lemma KindRead(kind: FindKind, k: string)
    ensures RuleIn(KindWord(kind) + k) == match kind case FindAll => 0 case FindAny => 1 case FindMulti => 2
  {
    var s := KindWord(kind) + k;
    assert s[0] == KindWord(kind)[0] && s[1] == KindWord(kind)[1] && s[2] == KindWord(kind)[2];
    assert "at"[1] == 't' && "multi"[0] == 'm' && "any"[1] == 'n';
    if kind == FindMulti { assert s[..5] == "multi"; }
    if kind == FindAny { assert s[..3] == "any"; }
  }

  lemma AtRead(k: string)
    ensures RuleIn("at(" + k) == 3
  {
    var s := "at(" + k;
    assert s[0] == 'a' && s[1] == 't' && s[..2] == "at" && "multi"[0] == 'm' && "any"[1] == 'n';
  }

  /** The call, its bracket and what is inside. */
  lemma Opening(word: string, k: string)
    requires forall i :: 0 <= i < |word| ==> word[i] != '('
    ensures var t := CALL + (word + ("(" + k));
      |t| > |CALL| && t[|CALL|..] == word + ("(" + k) && ParenAt(t) < |t| && t[ParenAt(t) + 1..] == k
  {
    var t := CALL + (word + ("(" + k));
    assert t == (CALL + word) + ("(" + k);
    ParenWord(CALL + word, k);
  }

  /** A counted search read whole, or up to somewhere in its list of markers. */
  lemma FindRead(kind: FindKind, range: bv32, strs: seq<nat>, k: string, h: Header)
    requires Few(strs) && Ends(k)
    ensures var t := CALL + (KindWord(kind) + ("(" + (h.name(range) + (Markers(strs) + k))));
      |t| >= |CALL| && Asks(t, h) == Some(Asked(RuleOf(Find(kind, range, strs)), MaskOf(h, Hold(h.name(range))),
                                                Place(0, 0), IdsOf(strs) + MarkerIds(k)))
  {
    hide Ident, MarkerIds, Markers, MaskOf, RuleIn, IsName;
    var q := h.name(range) + (Markers(strs) + k);
    Opening(KindWord(kind), q);
    KindRead(kind, "(" + q);
    MarkersEnd(strs, k);
    NameNext(h.name(range), Markers(strs) + k);
    MarkersRead(strs, k);
  }

  lemma PlaceRead(place: Place, strs: seq<nat>, k: string, h: Header)
    requires PlaceOk(place) && strs != [] && Few(strs) && Ends(k)
    ensures var t := CALL + ("at" + ("(" + (PlaceC(place) + (Markers(strs) + k))));
      |t| >= |CALL| && Asks(t, h) == Some(Asked(3, 0, place, IdsOf(strs) + MarkerIds(k)))
  {
    hide MarkerIds, Markers, RuleIn, PlaceText.Parse, IdsOf, PlaceC, PlaceOk, ParenAt;
    var m := Markers(strs) + k;
    var q := PlaceC(place) + m;
    Opening("at", q);
    AtRead(q);
    assert "at" + ("(" + q) == "at(" + q;
    MarkersCons(strs, k);
    PlaceBack(place, m);
    MarkersRead(strs, k);
  }

  lemma PlaceBack(place: Place, m: string)
    requires PlaceOk(place) && m != "" && m[0] == ','
    ensures PlaceText.Parse(PlaceC(place) + m)
      == PlaceText.Reading.Reading(place.anchor, place.step as PlaceText.Int64, m)
  {
    hide PlaceText.Parse, PlaceText.Text;
    PlaceText.PlaceRoundTrip(place.anchor, place.step as PlaceText.Int64, true, m);
  }

  /** What is printed is what is read. */
  lemma WholeRead(t: Tok, h: Header)
    requires Whole(t)
    ensures |Spell(t, h.name)| >= |CALL| && Asks(Spell(t, h.name), h) == Some(AskedOf(t, h))
  {
    hide Asks, Markers, MaskOf, Hold, PlaceC, IdOf;
    assert MarkerIds(")") == [];
    assert IdsOf(StrsOf(t)) + [] == IdsOf(StrsOf(t));
    match t
    case Find(kind, range, strs) =>
      FindRead(kind, range, strs, ")", h);
      var q := h.name(range) + (Markers(strs) + ")");
      assert KindWord(kind) + "(" + q == KindWord(kind) + ("(" + q);
    case FindAt(place, strs) =>
      PlaceRead(place, strs, ")", h);
      var q := PlaceC(place) + (Markers(strs) + ")");
      assert "at(" + q == "at" + ("(" + q);
  }
}
