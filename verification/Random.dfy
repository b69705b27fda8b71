/** Random draws and the random tokens built from them. */
module Random {
  import opened Bytes
  import opened Tokens

  type Source = nat -> nat

  /** Draw number k of the source, scaled to lo..=hi. */
  function Pick(src: Source, k: nat, lo: nat, hi: nat): (r: nat)
    requires lo <= hi
    ensures lo <= r <= hi
  {
    lo + src(k) % (hi - lo + 1)
  }

  /** A source of random numbers. What `between` returns is fixed by an arbitrary sequence, so a statement
      about every source is a statement about every outcome of every draw. */
  class Rand {
    const source: Source
    var pos: nat

    constructor (source: Source)
      ensures this.source == source && pos == 0
    {
      this.source := source;
      pos := 0;
    }

    /** Draw number k, scaled to lo..=hi. */
    function Draw(k: nat, lo: nat, hi: nat): (r: nat)
      requires lo <= hi
      ensures lo <= r <= hi
    {
      Pick(source, k, lo, hi)
    }

    method Between(lo: nat, hi: nat) returns (r: nat)
      requires lo <= hi
      modifies this
      ensures r == Draw(old(pos), lo, hi) && pos == old(pos) + 1
    {
      r := Draw(pos, lo, hi);
      pos := pos + 1;
    }
  }

  const WHITESPACE: seq<Byte> := [32, 9, 10, 0x0b, 0x0c, 13]
  const DIGITS: seq<Byte> := [48, 49, 50, 51, 52, 53, 54, 55, 56, 57]

  /** The allow table for text bytes, sixteen bytes a row. */
  const TEXT_ALLOW_MAP: seq<seq<bool>> := [
    [true, true, true, true, true, true, true, true, true, false, false, false, false, false, true, true],
    [true, true, true, true, true, true, true, true, true, true, true, true, true, true, true, true],
    [false, true, true, true, true, true, true, true, true, true, true, false, true, false, true, true],
    [false, false, false, false, false, false, false, false, false, false, true, true, true, true, true, true],
    [true, true, true, true, true, true, true, true, true, true, true, true, true, true, true, true],
    [true, true, true, true, true, true, true, true, true, true, true, true, true, true, true, true],
    [true, true, true, true, true, true, true, true, true, true, true, true, true, true, true, true],
    [true, true, true, true, true, true, true, true, true, true, true, true, true, true, true, true],
    [false, false, false, false, false, false, false, false, false, false, false, false, false, false, false, false],
    [false, false, false, false, false, false, false, false, false, false, false, false, false, false, false, false],
    [false, false, false, false, false, false, false, false, false, false, false, false, false, false, false, false],
    [false, false, false, false, false, false, false, false, false, false, false, false, false, false, false, false],
    [false, false, false, false, false, false, false, false, false, false, false, false, false, false, false, false],
    [false, false, false, false, false, false, false, false, false, false, false, false, false, false, false, false],
    [false, false, false, false, false, false, false, false, false, false, false, false, false, false, false, false],
    [false, false, false, false, false, false, false, false, false, false, false, false, false, false, false, false]
  ]

  predicate TextAllowed(b: Byte) {
    TEXT_ALLOW_MAP[b / 16][b % 16]
  }

  /** The table says what the scanner says: exactly the bytes that continue a text token are allowed. */
  lemma {:induction false} AllowMapIsTextTail(b: Byte)
    ensures TextAllowed(b) <==> IsTextTail(b)
  {
    assert b == 16 * (b / 16) + b % 16;
  }

  /** A lookup in the table. */
  method LookUp(b: Byte) returns (allowed: bool)
    ensures allowed == IsTextTail(b)
  {
    AllowMapIsTextTail(b);
    allowed := TextAllowed(b);
  }

  /** What the random token makers produce: a valid token of 1 to max bytes that is not a constant. */
  predicate Fresh(t: Token, max: nat) {
    && Strict(t)
    && !t.Constant?
    && 1 <= |t.data| <= max
    && (t.Number? ==> 2 <= |t.data|)
    && (t.Text? ==> forall b | b in t.data :: IsTextTail(b))
  }

  // ---------- What the makers draw, from draw number k on ----------

  /** A length, then one whitespace character per byte. */
  ghost predicate SpaceDrawn(src: Source, k: nat, min: nat, max: nat, d: seq<Byte>)
    requires min <= max
  {
    && |d| == Pick(src, k, min, max)
    && forall i | 0 <= i < |d| :: d[i] == WHITESPACE[Pick(src, k + 1 + i, 0, 5)]
  }

  /** A length, one digit per byte, and then whether the first of them becomes a sign. */
  ghost predicate NumberDrawn(src: Source, k: nat, max: nat, d: seq<Byte>)
    requires 2 <= max
  {
    && |d| == Pick(src, k, 2, max)
    && (forall i | 1 <= i < |d| :: d[i] == DIGITS[Pick(src, k + 1 + i, 0, 9)])
    && var sign := Pick(src, k + 1 + |d|, 0, 3);
       d[0] == if sign == 0 then DASH else if sign == 1 then PLUS else DIGITS[Pick(src, k + 1, 0, 9)]
  }

  /** The number of bytes that the table forbids among the first n. */
  function Forbidden(drawn: seq<Byte>, n: nat): (f: nat)
    requires n <= |drawn|
    ensures f <= n
  {
    if n == 0 then 0 else Forbidden(drawn, n - 1) + if IsTextTail(drawn[n - 1]) then 0 else 1
  }

  /** The bytes of the n draws from k on. */
  function DrawnBytes(src: Source, k: nat, n: nat): (d: seq<Byte>)
    ensures |d| == n
  {
    if n == 0 then [] else DrawnBytes(src, k, n - 1) + [Pick(src, k + n - 1, 0, 127)]
  }

  /** An allowed byte stays; a forbidden one is replaced by the draw whose turn it is, counted from k on. */
  function Replacement(src: Source, k: nat, drawn: seq<Byte>, i: nat): Byte
    requires i < |drawn|
  {
    if IsTextTail(drawn[i]) then drawn[i] else Pick(src, k + Forbidden(drawn, i), 58, 126)
  }

  ghost predicate Replaced(src: Source, k: nat, drawn: seq<Byte>, d: seq<Byte>) {
    && |d| == |drawn|
    && forall i | 0 <= i < |d| :: d[i] == Replacement(src, k, drawn, i)
  }

  /** A length, one byte per position, and then a replacement for each forbidden byte. */
  ghost predicate TextDrawn(src: Source, k: nat, min: nat, max: nat, d: seq<Byte>)
    requires min <= max
  {
    && |d| == Pick(src, k, min, max)
    && Replaced(src, k + 1 + |d|, DrawnBytes(src, k + 1, |d|), d)
  }

  /** How many draws a text of n bytes takes behind its length. */
  function TextDraws(src: Source, k: nat, n: nat): nat {
    n + Forbidden(DrawnBytes(src, k, n), n)
  }

  /** The number of draws that make t, if draw number k decides its kind. */
  function DrawsOf(src: Source, k: nat, t: Token): nat {
    match t
    case Text(d) => 2 + TextDraws(src, k + 2, |d|)
    case Number(d) => 3 + |d|
    case _ => 2 + |t.data|
  }

  method RandomWhitespace(rand: Rand, min: nat, max: nat) returns (t: Token)
    requires min <= max
    modifies rand
    ensures t.Whitespace? && SpaceDrawn(rand.source, old(rand.pos), min, max, t.data)
    ensures 1 <= min ==> Fresh(t, max)
    ensures rand.pos == old(rand.pos) + 1 + |t.data|
  {
    var len := rand.Between(min, max);
    var data: seq<Byte> := [];
    for i := 0 to len
      invariant |data| == i && rand.pos == old(rand.pos) + 1 + i
      invariant forall k | 0 <= k < i :: data[k] == WHITESPACE[rand.Draw(old(rand.pos) + 1 + k, 0, 5)]
    {
      var c := rand.Between(0, 5);
      data := data + [WHITESPACE[c]];
    }
    t := Whitespace(data);
  }

  method RandomNumber(rand: Rand, max: nat) returns (t: Token)
    requires 2 <= max
    modifies rand
    ensures t.Number? && NumberDrawn(rand.source, old(rand.pos), max, t.data)
    ensures Fresh(t, max)
    ensures rand.pos == old(rand.pos) + 2 + |t.data|
  {
    var len := rand.Between(2, max);
    var data: seq<Byte> := [];
    for i := 0 to len
      invariant |data| == i && rand.pos == old(rand.pos) + 1 + i
      invariant forall k | 0 <= k < i :: data[k] == DIGITS[rand.Draw(old(rand.pos) + 1 + k, 0, 9)]
    {
      var c := rand.Between(0, 9);
      data := data + [DIGITS[c]];
    }
    var sign := rand.Between(0, 3);
    if sign == 0 {
      data := data[0 := DASH];
    } else if sign == 1 {
      data := data[0 := PLUS];
    }
    t := Number(data);
  }

  /** The first pass of the text maker: one byte per position. */
  method DrawBytes(rand: Rand, len: nat) returns (data: seq<Byte>)
    modifies rand
    ensures data == DrawnBytes(rand.source, old(rand.pos), len)
    ensures rand.pos == old(rand.pos) + len
  {
    data := [];
    for i := 0 to len
      invariant data == DrawnBytes(rand.source, old(rand.pos), i)
      invariant rand.pos == old(rand.pos) + i
    {
      var c := rand.Between(0, 127);
      data := data + [c];
    }
  }

  /** The second pass of the text maker: replace what the table forbids. */
  method ReplaceForbidden(rand: Rand, drawn: seq<Byte>) returns (data: seq<Byte>)
    modifies rand
    ensures Replaced(rand.source, old(rand.pos), drawn, data)
    ensures forall b | b in data :: IsTextTail(b)
    ensures rand.pos == old(rand.pos) + Forbidden(drawn, |drawn|)
  {
    ghost var p := rand.pos;
    data := drawn;
    for i := 0 to |drawn|
      invariant |data| == |drawn|
      invariant rand.pos == p + Forbidden(drawn, i)
      invariant forall k | 0 <= k < i :: data[k] == Replacement(rand.source, p, drawn, k) && IsTextTail(data[k])
      invariant forall k | i <= k < |drawn| :: data[k] == drawn[k]
    {
      var allowed := LookUp(data[i]);
      if !allowed {
        var c := rand.Between(58, 126);
        data := data[i := c];
      }
    }
  }

  method RandomText(rand: Rand, min: nat, max: nat) returns (t: Token)
    requires min <= max
    modifies rand
    ensures t.Text? && TextDrawn(rand.source, old(rand.pos), min, max, t.data)
    ensures forall b | b in t.data :: IsTextTail(b)
    ensures 1 <= min ==> Fresh(t, max)
    ensures rand.pos == old(rand.pos) + 1 + TextDraws(rand.source, old(rand.pos) + 1, |t.data|)
  {
    var len := rand.Between(min, max);
    var data := DrawBytes(rand, len);
    data := ReplaceForbidden(rand, data);
    t := Text(data);
  }

  /** A nonempty range of at most maxSize positions below limit. */
  method RandomRange(rand: Rand, limit: nat, maxSize: nat) returns (start: nat, end: nat)
    requires limit > 0 && maxSize > 0
    modifies rand
    ensures start == rand.Draw(old(rand.pos), 0, limit - 1)
    ensures end == start + 1 + rand.Draw(old(rand.pos) + 1, 0, Min(limit - start, maxSize) - 1)
    ensures start < end <= limit && end - start <= maxSize
    ensures rand.pos == old(rand.pos) + 2
  {
    start := rand.Between(0, limit - 1);
    var remLen := Min(limit - start, maxSize);
    var extra := rand.Between(0, remLen - 1);
    end := start + (1 + extra);
  }
}
