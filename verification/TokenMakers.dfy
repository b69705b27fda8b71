/** Exactly which tokens the random makers make: for each there is a source of random numbers that makes it. */
module TokenMakers {
  import opened Bytes
  import opened Tokens
  import opened Random
  import opened Draws

  /** Draw number k decides the kind of t, and the draws that follow its bytes. */
  ghost predicate PartDrawn(src: Source, k: nat, t: Token) {
    match t
    case Constant(_) => false
    case Text(d) => Pick(src, k, 0, 2) == 0 && TextDrawn(src, k + 1, 1, 8, d)
    case Whitespace(d) => Pick(src, k, 0, 2) == 1 && SpaceDrawn(src, k + 1, 1, 4, d)
    case Number(d) => Pick(src, k, 0, 2) == 2 && NumberDrawn(src, k + 1, 8, d)
  }

  /** The source delivers these numbers from draw k on. */
  predicate Supplies(src: Source, k: nat, vals: seq<nat>) {
    forall i | 0 <= i < |vals| :: src(k + i) == vals[i]
  }

  function Supply(k: nat, vals: seq<nat>): (src: Source)
    ensures Supplies(src, k, vals)
  {
    n => if k <= n < k + |vals| then vals[n - k] else 0
  }

  lemma {:induction false} Picked(src: Source, k: nat, vals: seq<nat>, i: nat, lo: nat, hi: nat)
    requires Supplies(src, k, vals) && i < |vals| && lo + vals[i] <= hi
    ensures Pick(src, k + i, lo, hi) == lo + vals[i]
  {
    assert src(k + i) == vals[i];
  }

  lemma {:induction false} SuppliesBehind(src: Source, k: nat, a: seq<nat>, b: seq<nat>)
    requires Supplies(src, k, a + b)
    ensures Supplies(src, k, a) && Supplies(src, k + |a|, b)
  {
    assert forall i | 0 <= i < |a| :: (a + b)[i] == a[i];
    forall i | 0 <= i < |b|
      ensures src(k + |a| + i) == b[i]
    {
      assert (a + b)[|a| + i] == b[i];
    }
  }

  // ---------- Whitespace ----------

  function SpaceIndex(b: Byte): (i: nat)
    requires IsSpace(b)
    ensures i < 6 && WHITESPACE[i] == b
  {
    if b == 32 then 0 else b - 8
  }

  function SpaceVals(d: seq<Byte>, min: nat): (v: seq<nat>)
    requires min <= |d| && forall i | 0 <= i < |d| :: IsSpace(d[i])
    ensures |v| == 1 + |d|
  {
    [|d| - min] + seq(|d|, i requires 0 <= i < |d| => SpaceIndex(d[i]))
  }

  lemma {:induction false} SpaceMade(src: Source, k: nat, min: nat, max: nat, d: seq<Byte>)
    requires min <= |d| <= max && forall i | 0 <= i < |d| :: IsSpace(d[i])
    requires Supplies(src, k, SpaceVals(d, min))
    ensures SpaceDrawn(src, k, min, max, d)
  {
    var v := SpaceVals(d, min);
    Picked(src, k, v, 0, min, max);
    forall i | 0 <= i < |d|
      ensures d[i] == WHITESPACE[Pick(src, k + 1 + i, 0, 5)]
    {
      Picked(src, k, v, 1 + i, 0, 5);
    }
  }

  /** The whitespace that can be drawn: any whitespace of a length in the range. */
  lemma {:induction false} SpaceRange(k: nat, min: nat, max: nat, d: seq<Byte>)
    requires min <= max
    ensures (exists src :: SpaceDrawn(src, k, min, max, d))
       <==> min <= |d| <= max && forall i | 0 <= i < |d| :: IsSpace(d[i])
  {
    if min <= |d| <= max && forall i | 0 <= i < |d| :: IsSpace(d[i]) {
      SpaceMade(Supply(k, SpaceVals(d, min)), k, min, max, d);
    }
  }

  // ---------- Numbers ----------

  /** What a number maker draws for byte i; under a sign it has drawn a digit as well. */
  function DigitVal(b: Byte): nat { if IsDigit(b) then b - 48 else 0 }

  function SignVal(b: Byte): nat { if b == DASH then 0 else if b == PLUS then 1 else 2 }

  function NumberVals(d: seq<Byte>): (v: seq<nat>)
    requires 2 <= |d|
    ensures |v| == 2 + |d|
  {
    [|d| - 2] + seq(|d|, i requires 0 <= i < |d| => DigitVal(d[i])) + [SignVal(d[0])]
  }

  lemma {:induction false} NumberMade(src: Source, k: nat, max: nat, d: seq<Byte>)
    requires 2 <= |d| <= max && NumberShape(d) && Supplies(src, k, NumberVals(d))
    ensures NumberDrawn(src, k, max, d)
  {
    var v := NumberVals(d);
    Picked(src, k, v, 0, 2, max);
    forall i | 0 <= i < |d| && IsDigit(d[i])
      ensures d[i] == DIGITS[Pick(src, k + 1 + i, 0, 9)]
    {
      assert v[1 + i] == DigitVal(d[i]);
      Picked(src, k, v, 1 + i, 0, 9);
    }
    assert v[1 + |d|] == SignVal(d[0]);
    Picked(src, k, v, 1 + |d|, 0, 3);
  }

  lemma {:induction false} NumberRange(k: nat, max: nat, d: seq<Byte>)
    requires 2 <= max
    ensures (exists src :: NumberDrawn(src, k, max, d)) <==> 2 <= |d| <= max && NumberShape(d)
  {
    if 2 <= |d| <= max && NumberShape(d) {
      NumberMade(Supply(k, NumberVals(d)), k, max, d);
    }
  }

  // ---------- Text ----------

  function TextVals(d: seq<Byte>, min: nat): (v: seq<nat>)
    requires min <= |d|
    ensures |v| == 1 + |d|
  {
    [|d| - min] + seq(|d|, i requires 0 <= i < |d| => d[i])
  }

  lemma {:induction false} BytesMade(src: Source, k: nat, d: seq<Byte>, n: nat)
    requires n <= |d| && (forall i | 0 <= i < |d| :: d[i] < 128 && src(k + i) == d[i])
    ensures DrawnBytes(src, k, n) == d[..n]
  {
    if n > 0 {
      BytesMade(src, k, d, n - 1);
      assert src(k + (n - 1)) == d[n - 1];
      assert d[..n] == d[..n - 1] + [d[n - 1]];
    }
  }

  lemma {:induction false} TextMade(src: Source, k: nat, min: nat, max: nat, d: seq<Byte>)
    requires min <= |d| <= max && forall i | 0 <= i < |d| :: IsTextTail(d[i])
    requires Supplies(src, k, TextVals(d, min))
    ensures TextDrawn(src, k, min, max, d)
  {
    var v := TextVals(d, min);
    Picked(src, k, v, 0, min, max);
    forall i | 0 <= i < |d|
      ensures src(k + 1 + i) == d[i]
    {
      assert v[1 + i] == d[i] && src(k + (1 + i)) == v[1 + i];
    }
    BytesMade(src, k + 1, d, |d|);
    assert d[..|d|] == d;
  }

  lemma {:induction false} TextRange(k: nat, min: nat, max: nat, d: seq<Byte>)
    requires min <= max
    ensures (exists src :: TextDrawn(src, k, min, max, d))
       <==> min <= |d| <= max && forall i | 0 <= i < |d| :: IsTextTail(d[i])
  {
    if min <= |d| <= max && forall i | 0 <= i < |d| :: IsTextTail(d[i]) {
      TextMade(Supply(k, TextVals(d, min)), k, min, max, d);
    }
    forall src | TextDrawn(src, k, min, max, d)
      ensures forall i | 0 <= i < |d| :: IsTextTail(d[i])
    {
      ReplacedIsText(src, k + 1 + |d|, DrawnBytes(src, k + 1, |d|), d);
    }
  }

  lemma {:induction false} ReplacedIsText(src: Source, k: nat, drawn: seq<Byte>, d: seq<Byte>)
    requires Replaced(src, k, drawn, d)
    ensures forall i | 0 <= i < |d| :: IsTextTail(d[i])
  {
    assert forall i | 0 <= i < |d| :: d[i] == Replacement(src, k, drawn, i);
  }

  // ---------- Tokens ----------

  function TokenVals(t: Token): (v: seq<nat>)
    requires Fresh(t, 16)
  {
    match t
    case Number(d) => [0] + NumberVals(d)
    case Whitespace(d) => [1] + SpaceVals(d, 1)
    case Text(d) => [2] + TextVals(d, 1)
  }

  lemma {:induction false} TokenMade(src: Source, k: nat, kinds: nat, t: Token)
    requires kinds >= 3 && Fresh(t, 16) && Supplies(src, k, TokenVals(t))
    ensures TokenDrawn(src, k, kinds, t)
  {
    Picked(src, k, TokenVals(t), 0, 0, kinds - 1);
    match t
    case Number(d) =>
      SuppliesBehind(src, k, [0], NumberVals(d));
      NumberMade(src, k + 1, 16, d);
    case Whitespace(d) =>
      SuppliesBehind(src, k, [1], SpaceVals(d, 1));
      SpaceMade(src, k + 1, 1, 16, d);
    case Text(d) =>
      SuppliesBehind(src, k, [2], TextVals(d, 1));
      TextMade(src, k + 1, 1, 16, d);
  }

  lemma {:induction false} DrawnIsFresh(src: Source, k: nat, kinds: nat, t: Token)
    requires kinds >= 3 && TokenDrawn(src, k, kinds, t)
    ensures Fresh(t, 16)
  {
    match t
    case Number(d) => NumberRange(k + 1, 16, d);
    case Whitespace(d) => SpaceRange(k + 1, 1, 16, d);
    case Text(d) => TextRange(k + 1, 1, 16, d);
  }

  /** The tokens that the token mutators can draw: all valid ones of 1 to 16 bytes that a maker may make. */
  lemma {:induction false} TokenRange(k: nat, kinds: nat, t: Token)
    requires kinds >= 3
    ensures (exists src :: TokenDrawn(src, k, kinds, t)) <==> Fresh(t, 16)
  {
    if Fresh(t, 16) {
      TokenMade(Supply(k, TokenVals(t)), k, kinds, t);
    }
    forall src | TokenDrawn(src, k, kinds, t)
      ensures Fresh(t, 16)
    {
      DrawnIsFresh(src, k, kinds, t);
    }
  }

  /** The parts of a random packet: the same kinds, but at most 4 bytes of whitespace and 8 of the others. */
  lemma {:induction false} PartRange(k: nat, t: Token)
    ensures (exists src :: PartDrawn(src, k, t)) <==> Fresh(t, if t.Whitespace? then 4 else 8)
  {
    if Fresh(t, if t.Whitespace? then 4 else 8) {
      var src := PartMade(k, t);
    }
    match t
    case Constant(_) =>
    case Number(d) => NumberRange(k + 1, 8, d);
    case Whitespace(d) => SpaceRange(k + 1, 1, 4, d);
    case Text(d) => TextRange(k + 1, 1, 8, d);
  }

  lemma {:induction false} PartMade(k: nat, t: Token) returns (src: Source)
    requires Fresh(t, if t.Whitespace? then 4 else 8)
    ensures PartDrawn(src, k, t)
  {
    match t
    case Text(d) =>
      src := Supply(k, [0] + TextVals(d, 1));
      SuppliesBehind(src, k, [0], TextVals(d, 1));
      Picked(src, k, [0], 0, 0, 2);
      TextMade(src, k + 1, 1, 8, d);
    case Whitespace(d) =>
      src := Supply(k, [1] + SpaceVals(d, 1));
      SuppliesBehind(src, k, [1], SpaceVals(d, 1));
      Picked(src, k, [1], 0, 0, 2);
      SpaceMade(src, k + 1, 1, 4, d);
    case Number(d) =>
      src := Supply(k, [2] + NumberVals(d));
      SuppliesBehind(src, k, [2], NumberVals(d));
      Picked(src, k, [2], 0, 0, 2);
      NumberMade(src, k + 1, 8, d);
  }
}
