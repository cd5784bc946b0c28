/** The payload decoder: base64 undone with an accumulator that is never masked. */
module Base64 {

  type Byte = b: int | 0 <= b < 256
  type Sextet = s: int | 0 <= s < 64

  // ---- section 4 of RFC 4648, the reference ----------------------------------------------

  /** Three bytes are four sextets; one byte left over is two of them, two are three. */
  function Sextets(b: seq<Byte>): seq<Sextet> {
    if b == [] then []
    else if |b| == 1 then [b[0] / 4, b[0] % 4 * 16]
    else if |b| == 2 then [b[0] / 4, b[0] % 4 * 16 + b[1] / 16, b[1] % 16 * 4]
    else [b[0] / 4, b[0] % 4 * 16 + b[1] / 16, b[1] % 16 * 4 + b[2] / 64, b[2] % 64] + Sextets(b[3..])
  }

  /** The alphabet of table 1. */
  function Char(s: Sextet): Byte {
    if s < 26 then 'A' as int + s
    else if s < 52 then 'a' as int + (s - 26)
    else if s < 62 then '0' as int + (s - 52)
    else if s == 62 then '+' as int else '/' as int
  }

  /** t is the spelling of s, with padding and line breaks wherever they fall. */
  predicate Spells(t: seq<Byte>, s: seq<Sextet>)
    decreases |t|
  {
    if t == [] then s == []
    else if Skipped(t[0]) then Spells(t[1..], s)
    else s != [] && t[0] == Char(s[0]) && Spells(t[1..], s[1..])
  }

  // ---- what the decoder reads -------------------------------------------------------------

  predicate Skipped(c: Byte) { c == '=' as int || c == '\n' as int || c == '\r' as int }

  predicate Letter(c: Byte) {
    'A' as int <= c <= 'Z' as int || 'a' as int <= c <= 'z' as int || '0' as int <= c <= '9' as int
    || c == '+' as int || c == '/' as int
  }

  function Value(c: Byte): Sextet
    requires Letter(c)
  {
    if 'A' as int <= c <= 'Z' as int then c - 'A' as int
    else if 'a' as int <= c <= 'z' as int then c - 'a' as int + 26
    else if '0' as int <= c <= '9' as int then c - '0' as int + 52
    else if c == '+' as int then 62 else 63
  }

  /** The text that counts: up to the first NUL. */
  function Text(t: seq<Byte>): (r: seq<Byte>)
    ensures |r| <= |t| && r == t[..|r|] && 0 !in r
    ensures |r| < |t| ==> t[|r|] == 0
  {
    if t == [] || t[0] == 0 then [] else [t[0]] + Text(t[1..])
  }

  predicate Legal(t: seq<Byte>) { forall i :: 0 <= i < |t| ==> Skipped(t[i]) || Letter(t[i]) }

  /** The sextets a legal text carries. */
  function Values(t: seq<Byte>): seq<Sextet>
    requires Legal(t)
  {
    if t == [] then [] else (if Skipped(t[0]) then [] else [Value(t[0])]) + Values(t[1..])
  }

  /** How many bits can wait for the next sextet, and what they can be worth. */
  predicate Waiting(low: nat, bits: nat) {
    (bits == 0 && low == 0) || (bits == 2 && low < 4) || (bits == 4 && low < 16) || (bits == 6 && low < 64)
  }

  /** The bytes completed by s while `bits` bits, worth `low`, are waiting. */
  function Bytes(s: seq<Sextet>, low: nat, bits: nat): seq<Byte>
    requires Waiting(low, bits)
    decreases |s|
  {
    if s == [] then []
    else
      var v := low * 64 + s[0];
      if bits == 0 then Bytes(s[1..], v, 6)
      else if bits == 2 then [v] + Bytes(s[1..], 0, 0)
      else if bits == 4 then [v / 4] + Bytes(s[1..], v % 4, 2)
      else [v / 16] + Bytes(s[1..], v % 16, 4)
  }

  // ---- the wrapping accumulator -----------------------------------------------------------

  const WORD: nat := 0x1_0000_0000

  /** The low `bits` bits of a word. */
  function Low(acc: nat, bits: nat): nat {
    if bits == 0 then 0
    else if bits == 2 then acc % 4
    else if bits == 4 then acc % 16
    else if bits == 6 then acc % 64
    else if bits == 8 then acc % 256
    else if bits == 10 then acc % 1024 else acc % 4096
  }

  lemma Wrap(acc: nat) returns (q: nat)
    ensures acc * 64 == q * WORD + acc * 64 % WORD
    ensures acc * 64 % WORD <= WORD - 64
  {
    q := acc * 64 / WORD;
    assert acc * 64 % WORD == (acc - q * 0x400_0000) * 64;
  }

  lemma Shift0(acc: nat, six: Sextet)
    ensures (acc * 64 % WORD + six) % 64 == six
  {
    var q := Wrap(acc);
    assert acc * 64 % WORD + six == (acc - q * 0x400_0000) * 64 + six;
  }

  lemma Shift2(acc: nat, six: Sextet)
    ensures (acc * 64 % WORD + six) % 256 == acc % 4 * 64 + six
  {
    var q := Wrap(acc);
    var h := acc / 4;
    assert acc == h * 4 + acc % 4;
    assert acc * 64 % WORD + six == (h - q * 0x100_0000) * 256 + (acc % 4 * 64 + six);
  }

  lemma Shift4(acc: nat, six: Sextet)
    ensures (acc * 64 % WORD + six) % 1024 == acc % 16 * 64 + six
  {
    var q := Wrap(acc);
    var h := acc / 16;
    assert acc == h * 16 + acc % 16;
    assert acc * 64 % WORD + six == (h - q * 0x40_0000) * 1024 + (acc % 16 * 64 + six);
  }

  lemma Shift6(acc: nat, six: Sextet)
    ensures (acc * 64 % WORD + six) % 4096 == acc % 64 * 64 + six
  {
    var q := Wrap(acc);
    var h := acc / 64;
    assert acc == h * 64 + acc % 64;
    assert acc * 64 % WORD + six == (h - q * 0x10_0000) * 4096 + (acc % 64 * 64 + six);
  }

  /** Shifting six bits in wraps at 32, and the bits that matter do not notice. */
  lemma ShiftIn(acc: nat, low: nat, bits: nat, six: Sextet)
    requires Waiting(low, bits) && Low(acc, bits) == low
    ensures acc * 64 % WORD + six < WORD
    ensures Low(acc * 64 % WORD + six, bits + 6) == low * 64 + six
  {
    var q := Wrap(acc);
    if bits == 0 { Shift0(acc, six); }
    else if bits == 2 { Shift2(acc, six); }
    else if bits == 4 { Shift4(acc, six); }
    else { Shift6(acc, six); }
  }

  lemma Take2(word: nat)
    ensures word / 4 % 256 == word % 1024 / 4 && word % 4 == word % 1024 % 4
  {
    var q, v := word / 1024, word % 1024;
    assert word == q * 1024 + v;
    assert word / 4 == q * 256 + v / 4;
  }

  lemma Take4(word: nat)
    ensures word / 16 % 256 == word % 4096 / 16 && word % 16 == word % 4096 % 16
  {
    var q, v := word / 4096, word % 4096;
    assert word == q * 4096 + v;
    assert word / 16 == q * 256 + v / 16;
  }

  /** The byte taken out of the word is the byte the waiting bits make. */
  lemma TakeOut(word: nat, v: nat, bits: nat)
    requires bits == 8 || bits == 10 || bits == 12
    requires Low(word, bits) == v
    ensures var left := bits - 8;
      && Shift(word, left) % 256 == (if left == 0 then v else if left == 2 then v / 4 else v / 16)
      && Low(word, left) == (if left == 0 then 0 else if left == 2 then v % 4 else v % 16)
  {
    if bits == 10 { Take2(word); } else if bits == 12 { Take4(word); }
  }

  function Shift(word: nat, bits: nat): nat {
    if bits == 0 then word else if bits == 2 then word / 4 else word / 16
  }

  // ---- the loop ---------------------------------------------------------------------------

  /** What a whole input stands for: nothing, when it is short or not base64. */
  function Decoded(t: seq<Byte>): seq<Byte> {
    if |t| < 8 || !Legal(Text(t)) then [] else Bytes(Values(Text(t)), 0, 0)
  }

  lemma ValuesStep(t: seq<Byte>, i: nat)
    requires i < |t| && Legal(t[i..])
    ensures Legal(t[i + 1..]) && (Skipped(t[i]) || Letter(t[i]))
    ensures Values(t[i..]) == if Skipped(t[i]) then Values(t[i + 1..]) else [Value(t[i])] + Values(t[i + 1..])
  {
    var s := t[i..];
    assert s[0] == t[i] && s[1..] == t[i + 1..];
    assert Legal(s[1..]);
  }

  lemma BytesStep(s: seq<Sextet>, six: Sextet, low: nat, bits: nat)
    requires Waiting(low, bits)
    ensures var v := low * 64 + six;
      Bytes([six] + s, low, bits) ==
        if bits == 0 then Bytes(s, v, 6)
        else if bits == 2 then [v] + Bytes(s, 0, 0)
        else if bits == 4 then [v / 4] + Bytes(s, v % 4, 2)
        else [v / 16] + Bytes(s, v % 16, 4)
  {
    assert ([six] + s)[1..] == s;
  }

  /** What one letter does to the byte under construction, as the loop does it. */
  lemma Feed(acc: nat, low: nat, bits: nat, six: Sextet, done: seq<Byte>, rest: seq<Sextet>)
    requires Waiting(low, bits) && Low(acc, bits) == low
    ensures var word := acc * 64 % WORD + six;
      && word < WORD
      && (bits + 6 < 8 ==>
            && Waiting(Low(word, bits + 6), bits + 6)
            && done + Bytes(rest, Low(word, bits + 6), bits + 6) == done + Bytes([six] + rest, low, bits))
      && (bits + 6 >= 8 ==>
            && Waiting(Low(word, bits - 2), bits - 2)
            && done + [Shift(word, bits - 2) % 256] + Bytes(rest, Low(word, bits - 2), bits - 2)
               == done + Bytes([six] + rest, low, bits))
  {
    ShiftIn(acc, low, bits, six);
    BytesStep(rest, six, low, bits);
    if bits + 6 >= 8 { TakeOut(acc * 64 % WORD + six, low * 64 + six, bits + 6); }
  }

  /** (acc << 6) | six in 32 bits. */
  function Push(acc: nat, six: Sextet): nat { acc * 64 % WORD + six }

  /** (uint8_t)(word >> bits). */
  function Take(word: nat, bits: nat): Byte { Shift(word, bits) % 256 }

  /** The loop's state at character i: everything before it was legal, and `done` with what
      the waiting bits and the rest complete is the whole answer. */
  ghost predicate Reached(t: seq<Byte>, i: nat, done: seq<Byte>, acc: nat, bits: nat) {
    && i <= |t| && bits < 8 && Waiting(Low(acc, bits), bits) && acc < WORD
    && (forall j :: 0 <= j < i ==> Skipped(t[j]) || Letter(t[j]))
    && (Legal(t) ==> Legal(t[i..]) && done + Bytes(Values(t[i..]), Low(acc, bits), bits) == Bytes(Values(t), 0, 0))
  }

  lemma ReachStart(t: seq<Byte>)
    ensures Reached(t, 0, [], 0, 0)
  {
    assert t[0..] == t;
  }

  lemma ReachSkip(t: seq<Byte>, i: nat, done: seq<Byte>, acc: nat, bits: nat)
    requires Reached(t, i, done, acc, bits) && i < |t| && Skipped(t[i])
    ensures Reached(t, i + 1, done, acc, bits)
  {
    hide Bytes, Values;
    if Legal(t) { ValuesStep(t, i); }
  }

  lemma ReachLetter(t: seq<Byte>, i: nat, done: seq<Byte>, acc: nat, bits: nat)
    requires Reached(t, i, done, acc, bits) && i < |t| && Letter(t[i]) && !Skipped(t[i])
    ensures var word := Push(acc, Value(t[i]));
      if bits + 6 < 8 then Reached(t, i + 1, done, word, bits + 6)
      else bits <= 6 && Reached(t, i + 1, done + [Take(word, bits - 2)], word, bits - 2)
  {
    hide Bytes, Values, Low, Shift, Letter, Skipped;
    var rest := if Legal(t) then Values(t[i + 1..]) else [];
    if Legal(t) { ValuesStep(t, i); }
    Feed(acc, Low(acc, bits), bits, Value(t[i]), done, rest);
  }

  lemma ReachEnd(t: seq<Byte>, done: seq<Byte>, acc: nat, bits: nat)
    requires Reached(t, |t|, done, acc, bits)
    ensures Legal(t) && done == Bytes(Values(t), 0, 0)
  {
    assert t[|t|..] == [];
    NothingLeft(Low(acc, bits), bits);
  }

  lemma ReachBound(t: seq<Byte>, i: nat, done: seq<Byte>, acc: nat, bits: nat)
    requires Reached(t, i, done, acc, bits)
    ensures i <= |t| && bits < 8 && (Legal(t) ==> |Bytes(Values(t), 0, 0)| >= |done|)
  {
  }

  lemma NotLegal(t: seq<Byte>, i: nat)
    requires i < |t| && !Skipped(t[i]) && !Letter(t[i])
    ensures !Legal(t)
  {
  }

  lemma ShortNone(t: seq<Byte>)
    requires |t| < 8
    ensures Decoded(t) == []
  {
  }

  method Decode(inp: array<Byte>, n: nat, out: array<Byte>) returns (k: nat)
    requires n <= inp.Length && inp != out
    modifies out
    ensures k <= out.Length
    ensures var b := Decoded(inp[..n]);
      if |b| <= out.Length then out[..k] == b else k == 0
  {
    hide Reached, Push, Take, Value, Bytes, Values, Decoded, Text, Legal, Skipped, Letter;
    k := 0;
    if n < 8 {
      ShortNone(inp[..n]);
      return;
    }
    ghost var t := Text(inp[..n]);
    DecodedIs(inp[..n]);
    var acc: nat, bits: nat := 0, 0;
    ReachStart(t);
    var i := 0;
    while i < n
      invariant 0 <= i <= |t| && k <= out.Length && inp[..n] == old(inp[..n])
      invariant Reached(t, i, out[..k], acc, bits)
      decreases n - i
    {
      var c := inp[i];
      if c == 0 { break; }
      assert c == t[i];
      if Skipped(c) {
        ReachSkip(t, i, out[..k], acc, bits);
        i := i + 1;
        continue;
      }
      if !Letter(c) {
        NotLegal(t, i);
        return 0;
      }
      ReachLetter(t, i, out[..k], acc, bits);
      ReachBound(t, i, out[..k], acc, bits);
      acc := Push(acc, Value(c));
      bits := bits + 6;
      i := i + 1;
      if bits >= 8 {
        bits := bits - 8;
        ghost var more := out[..k] + [Take(acc, bits)];
        ReachBound(t, i, more, acc, bits);
        if k >= out.Length { return 0; }
        out[k] := Take(acc, bits);
        k := k + 1;
        assert out[..k] == more;
      }
    }
    ReachEnd(t, out[..k], acc, bits);
  }

  lemma DecodedIs(t: seq<Byte>)
    requires |t| >= 8
    ensures Decoded(t) == if Legal(Text(t)) then Bytes(Values(Text(t)), 0, 0) else []
  {
  }

  lemma NothingLeft(low: nat, bits: nat)
    requires Waiting(low, bits)
    ensures Values([]) == [] && Bytes([], low, bits) == []
  {
  }

  // ---- decoding inverts encoding ----------------------------------------------------------

  lemma CharValue(x: Sextet)
    ensures Letter(Char(x)) && Value(Char(x)) == x && !Skipped(Char(x)) && Char(x) != 0
  {
  }

  /** However it is padded and broken into lines, a spelling carries the sextets it spells. */
  lemma {:induction false} SpelledValues(t: seq<Byte>, s: seq<Sextet>)
    requires Spells(t, s)
    ensures Legal(t) && Values(t) == s && 0 !in t
    decreases |t|
  {
    if t != [] {
      assert t == [t[0]] + t[1..];
      if Skipped(t[0]) {
        SpelledValues(t[1..], s);
        assert [] + s == s;
      } else {
        CharValue(s[0]);
        SpelledValues(t[1..], s[1..]);
        assert [s[0]] + s[1..] == s;
      }
    }
  }

  lemma Group(b0: Byte, b1: Byte, b2: Byte)
    ensures b0 / 4 * 64 + (b0 % 4 * 16 + b1 / 16) == b0 * 16 + b1 / 16
    ensures (b0 * 16 + b1 / 16) / 16 == b0 && (b0 * 16 + b1 / 16) % 16 == b1 / 16
    ensures b1 / 16 * 64 + (b1 % 16 * 4 + b2 / 64) == b1 * 4 + b2 / 64
    ensures (b1 * 4 + b2 / 64) / 4 == b1 && (b1 * 4 + b2 / 64) % 4 == b2 / 64
    ensures b2 / 64 * 64 + b2 % 64 == b2
  {
  }

  lemma ThreeBytes(b0: Byte, b1: Byte, b2: Byte, rest: seq<Sextet>)
    ensures Bytes([b0 / 4, b0 % 4 * 16 + b1 / 16, b1 % 16 * 4 + b2 / 64, b2 % 64] + rest, 0, 0)
         == [b0, b1, b2] + Bytes(rest, 0, 0)
  {
    hide Bytes;
    Group(b0, b1, b2);
    var x0: Sextet, x1: Sextet, x2: Sextet, x3: Sextet :=
      b0 / 4, b0 % 4 * 16 + b1 / 16, b1 % 16 * 4 + b2 / 64, b2 % 64;
    BytesStep([x1] + ([x2] + ([x3] + rest)), x0, 0, 0);
    BytesStep([x2] + ([x3] + rest), x1, b0 / 4, 6);
    BytesStep([x3] + rest, x2, b1 / 16, 4);
    BytesStep(rest, x3, b2 / 64, 2);
    assert [x0] + ([x1] + ([x2] + ([x3] + rest))) == [x0, x1, x2, x3] + rest;
    assert [b0] + ([b1] + ([b2] + Bytes(rest, 0, 0))) == [b0, b1, b2] + Bytes(rest, 0, 0);
  }

  lemma TwoBytes(b0: Byte, b1: Byte)
    ensures Bytes([b0 / 4, b0 % 4 * 16 + b1 / 16, b1 % 16 * 4], 0, 0) == [b0, b1]
  {
    hide Bytes;
    Group(b0, b1, 0);
    var x0: Sextet, x1: Sextet, x2: Sextet := b0 / 4, b0 % 4 * 16 + b1 / 16, b1 % 16 * 4;
    BytesStep([x1] + ([x2] + []), x0, 0, 0);
    BytesStep([x2] + [], x1, b0 / 4, 6);
    BytesStep([], x2, b1 / 16, 4);
    NothingLeft(x2 % 4, 2);
    assert [x0] + ([x1] + ([x2] + [])) == [x0, x1, x2];
    assert [b0] + ([b1] + []) == [b0, b1];
  }

  lemma OneByte(b0: Byte)
    ensures Bytes([b0 / 4, b0 % 4 * 16], 0, 0) == [b0]
  {
    hide Bytes;
    Group(b0, 0, 0);
    var x0: Sextet, x1: Sextet := b0 / 4, b0 % 4 * 16;
    BytesStep([x1] + [], x0, 0, 0);
    BytesStep([], x1, b0 / 4, 6);
    NothingLeft(x1 % 16, 4);
    assert [x0] + ([x1] + []) == [x0, x1];
    assert [b0] + [] == [b0];
  }

  lemma {:induction false} BytesOfSextets(b: seq<Byte>)
    ensures Bytes(Sextets(b), 0, 0) == b
    decreases |b|
  {
    hide Bytes;
    if b == [] {
      NothingLeft(0, 0);
    } else if |b| == 1 {
      OneByte(b[0]);
    } else if |b| == 2 {
      TwoBytes(b[0], b[1]);
    } else {
      BytesOfSextets(b[3..]);
      ThreeBytes(b[0], b[1], b[2], Sextets(b[3..]));
    }
  }

  /** For any bytes, decoding a spelling of their encoding of at least eight characters - with
      or without padding, broken into lines anywhere, ended by a NUL or by the buffer - gives
      back exactly those bytes. */
  lemma DecodesEncoding(t: seq<Byte>, b: seq<Byte>)
    requires |t| >= 8 && Spells(Text(t), Sextets(b))
    ensures Decoded(t) == b
  {
    SpelledValues(Text(t), Sextets(b));
    BytesOfSextets(b);
  }

  function Chars(s: seq<Sextet>): (t: seq<Byte>)
    ensures |t| == |s|
  {
    if s == [] then [] else [Char(s[0])] + Chars(s[1..])
  }

  /** The encoding as the RFC writes it, closed by any padding, is such a spelling. */
  lemma {:induction false} CanonicalSpells(s: seq<Sextet>, pad: seq<Byte>)
    requires forall i :: 0 <= i < |pad| ==> Skipped(pad[i])
    ensures Spells(Chars(s) + pad, s)
    decreases |s| + |pad|
  {
    if s != [] {
      CharValue(s[0]);
      CanonicalSpells(s[1..], pad);
      assert (Chars(s) + pad)[1..] == Chars(s[1..]) + pad;
    } else if pad != [] {
      CanonicalSpells(s, pad[1..]);
      assert (Chars(s) + pad)[1..] == Chars(s) + pad[1..];
    }
  }

  lemma {:induction false} TextOfClean(t: seq<Byte>, rest: seq<Byte>)
    requires 0 !in t && (rest == [] || rest[0] == 0)
    ensures Text(t + rest) == t
    decreases |t|
  {
    if t == [] {
      assert t + rest == rest;
    } else {
      assert (t + rest)[1..] == t[1..] + rest;
      TextOfClean(t[1..], rest);
    }
  }

  /** The first NUL ends the input wherever it stands: data after it is ignored, not refused. */
  lemma NulEnds(t: seq<Byte>, rest: seq<Byte>)
    requires 0 !in t && |t| >= 8
    ensures Decoded(t + [0] + rest) == Decoded(t)
  {
    assert t + [0] + rest == t + ([0] + rest);
    TextOfClean(t, [0] + rest);
    TextOfClean(t, []);
    assert t + [] == t;
  }

  // ---- how much is written ----------------------------------------------------------------

  lemma {:induction false} BytesCount(s: seq<Sextet>, low: nat, bits: nat)
    requires Waiting(low, bits)
    ensures |Bytes(s, low, bits)| == (bits + 6 * |s|) / 8
    decreases |s|
  {
    if s != [] {
      var v := low * 64 + s[0];
      if bits == 0 { BytesCount(s[1..], v, 6); }
      else if bits == 2 { BytesCount(s[1..], 0, 0); }
      else if bits == 4 { BytesCount(s[1..], v % 4, 2); }
      else { BytesCount(s[1..], v % 16, 4); }
    }
  }

  lemma {:induction false} ValuesCount(t: seq<Byte>)
    requires Legal(t)
    ensures |Values(t)| <= |t|
    decreases |t|
  {
    if t != [] { ValuesCount(t[1..]); }
  }

  const SIZE_MAX: nat := 8192

  /** The largest payload decodes to at most 6144 bytes, so the room check never refuses one. */
  lemma NeverFull(t: seq<Byte>)
    requires |t| <= SIZE_MAX
    ensures |Decoded(t)| <= 6144 < SIZE_MAX
  {
    if |t| >= 8 && Legal(Text(t)) {
      ValuesCount(Text(t));
      BytesCount(Values(Text(t)), 0, 0);
    }
  }
}
