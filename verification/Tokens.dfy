/** Tokens, their shapes, and the byte string a token list stands for. */
module Tokens {
  import opened Bytes

  datatype Token =
    | Constant(data: seq<Byte>)
    | Number(data: seq<Byte>)
    | Whitespace(data: seq<Byte>)
    | Text(data: seq<Byte>)

  /** An optional sign followed by at least one digit. */
  predicate NumberShape(d: seq<Byte>) {
    && d != []
    && (IsDigit(d[0]) || (IsSign(d[0]) && |d| > 1))
    && forall i | 1 <= i < |d| :: IsDigit(d[i])
  }

  predicate SpaceShape(d: seq<Byte>) {
    d != [] && forall b | b in d :: IsSpace(b)
  }

  predicate TextShape(d: seq<Byte>) {
    d != [] && forall b | b in d :: IsTextByte(b)
  }

  /** The strict invariant kept by all mutators. Constants come from a dictionary and are arbitrary. */
  predicate Strict(t: Token) {
    match t
    case Constant(_) => true
    case Number(d) => NumberShape(d)
    case Whitespace(d) => SpaceShape(d)
    case Text(d) => TextShape(d)
  }

  predicate AllStrict(ts: seq<Token>) { forall t | t in ts :: Strict(t) }

  predicate ConstantsAscii(ts: seq<Token>) { forall t | t in ts && t.Constant? :: AllAscii(t.data) }

  /** The weaker check of the repository's own mutator test: empty tokens and lone signs pass it. */
  predicate Verify(t: Token) {
    match t
    case Constant(_) => true
    case Number(d) => forall i | 0 <= i < |d| :: IsDigit(d[i]) || (IsSign(d[i]) && i == 0)
    case Whitespace(d) => forall b | b in d :: IsSpace(b)
    case Text(d) => forall b | b in d :: IsTextByte(b)
  }

  /** The shape in which the scanners deliver a token: a text token may hold a sign only in front. */
  predicate Scanned(t: Token) {
    && !t.Constant?
    && Strict(t)
    && (t.Text? ==> forall i | 1 <= i < |t.data| :: IsTextTail(t.data[i]))
  }

  predicate LoneSign(t: Token) { t.Text? && |t.data| == 1 && IsSign(t.data[0]) }

  /** The border between two neighbours survives being printed: scanning cuts exactly here. */
  predicate Separates(a: Token, b: Token) {
    && (a.Whitespace? ==> !b.Whitespace?)
    && (((a.Number? && b.Number?) || (a.Text? && b.Text?) || (LoneSign(a) && b.Number?))
        ==> b.data != [] && IsSign(b.data[0]))
  }

  /** The token lists that the tokenizer produces. */
  ghost predicate Canonical(ts: seq<Token>) {
    && (forall t | t in ts :: Scanned(t))
    && (forall i, j | 0 <= i && j == i + 1 && j < |ts| :: Separates(ts[i], ts[j]))
  }

  /** `TokenStream`: a token vector that the mutators edit in place. */
  class TokenStream {
    var tokens: seq<Token>

    constructor (tokens: seq<Token>)
      ensures this.tokens == tokens
    {
      this.tokens := tokens;
    }
  }

  /** The vector with positions i up to j replaced by mid. */
  function Splice(ts: seq<Token>, i: nat, j: nat, mid: seq<Token>): (r: seq<Token>)
    requires i <= j <= |ts|
    ensures |r| == |ts| - (j - i) + |mid|
  {
    ts[..i] + mid + ts[j..]
  }

  /** The vector with the data of one token replaced. */
  function SetData(ts: seq<Token>, idx: nat, data: seq<Byte>): (r: seq<Token>)
    requires idx < |ts|
    ensures |r| == |ts|
  {
    ts[idx := ts[idx].(data := data)]
  }

  /** The bytes of a token list, in order. */
  function Flatten(ts: seq<Token>): seq<Byte> {
    if ts == [] then [] else ts[0].data + Flatten(ts[1..])
  }

  /** Position in the byte string at which token number i begins. */
  function Offset(ts: seq<Token>, i: nat): nat
    requires i <= |ts|
  {
    |Flatten(ts[..i])|
  }

  lemma {:induction false} FlattenConcat(a: seq<Token>, b: seq<Token>)
    ensures Flatten(a + b) == Flatten(a) + Flatten(b)
  {
    if a == [] {
      assert a + b == b;
    } else {
      assert (a + b)[1..] == a[1..] + b;
      FlattenConcat(a[1..], b);
    }
  }

  lemma {:induction false} FlattenSplit(ts: seq<Token>, i: nat)
    requires i <= |ts|
    ensures Offset(ts, i) <= |Flatten(ts)|
    ensures Flatten(ts)[..Offset(ts, i)] == Flatten(ts[..i])
    ensures Flatten(ts)[Offset(ts, i)..] == Flatten(ts[i..])
  {
    FlattenConcat(ts[..i], ts[i..]);
    assert ts == ts[..i] + ts[i..];
  }

  lemma {:induction false} OffsetStep(ts: seq<Token>, i: nat)
    requires i < |ts|
    ensures Offset(ts, i + 1) == Offset(ts, i) + |ts[i].data|
  {
    FlattenConcat(ts[..i], [ts[i]]);
    assert ts[..i + 1] == ts[..i] + [ts[i]];
  }

  /** A slice of tokens is a slice of bytes. */
  lemma {:induction false} FlattenSlice(ts: seq<Token>, i: nat, j: nat)
    requires i <= j <= |ts|
    ensures Offset(ts, i) <= Offset(ts, j) <= |Flatten(ts)|
    ensures Flatten(ts[i..j]) == Flatten(ts)[Offset(ts, i)..Offset(ts, j)]
  {
    assert ts == ts[..i] + ts[i..j] + ts[j..];
    assert ts[..j] == ts[..i] + ts[i..j];
    FlattenConcat(ts[..i] + ts[i..j], ts[j..]);
    FlattenConcat(ts[..i], ts[i..j]);
    MiddleOf(Flatten(ts[..i]), Flatten(ts[i..j]), Flatten(ts[j..]));
  }

  lemma {:induction false} MiddleOf(a: seq<Byte>, b: seq<Byte>, c: seq<Byte>)
    ensures (a + b + c)[|a|..|a + b|] == b
  {
  }

  /** A splice of the token vector is a splice of the byte string. */
  lemma {:induction false} FlattenSplice(ts: seq<Token>, i: nat, j: nat, mid: seq<Token>)
    requires i <= j <= |ts|
    ensures Offset(ts, i) <= Offset(ts, j) <= |Flatten(ts)|
    ensures Flatten(Splice(ts, i, j, mid))
         == Flatten(ts)[..Offset(ts, i)] + Flatten(mid) + Flatten(ts)[Offset(ts, j)..]
  {
    FlattenSlice(ts, i, j);
    FlattenSplit(ts, i);
    FlattenSplit(ts, j);
    FlattenConcat(ts[..i] + mid, ts[j..]);
    FlattenConcat(ts[..i], mid);
  }

  lemma {:induction false} StrictFlattenAscii(ts: seq<Token>)
    requires AllStrict(ts) && ConstantsAscii(ts)
    ensures AllAscii(Flatten(ts))
  {
    if ts != [] {
      StrictFlattenAscii(ts[1..]);
      var t := ts[0];
      assert Strict(t);
      assert AllAscii(t.data);
    }
  }

  /** What the strict invariant asks beyond the test's check: no empty token, and no sign without a digit. */
  lemma {:induction false} StrictStrongerThanVerify(t: Token)
    ensures Strict(t) <==> && Verify(t)
                           && (t.Constant? || t.data != [])
                           && !(t.Number? && |t.data| == 1 && IsSign(t.data[0]))
  {
  }
}
