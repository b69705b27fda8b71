/** The nineteen token mutators as moves of a state machine. A move records the outcomes of the random
    choices; Enabled says for which token lists the mutator then reports a change, Apply what it leaves behind. */
module Moves {
  import opened Bytes
  import opened Tokens
  import opened Random
  import opened Words

  datatype Move =
    | Copy(lo: nat, hi: nat, at: nat)
    | CrossoverInsert(other: seq<Token>, lo: nat, hi: nat, at: nat)
    | CrossoverReplace(other: seq<Token>, lo: nat, hi: nat, dstLo: nat, dstHi: nat)
    | Delete(lo: nat, hi: nat)
    | Flip(idx: nat, pos: nat, value: Byte)
    | Interesting(idx: nat, word: seq<Byte>)
    | RandomInsert(at: nat, token: Token)
    | RandomReplace(idx: nat, token: Token)
    | RepeatChar(idx: nat, pos: nat, amount: nat)
    | RepeatToken(idx: nat, amount: nat)
    | SpecialInsert(idx: nat, pos: nat, value: Byte)
    | SpecialReplace(idx: nat, pos: nat, value: Byte)
    | Split(idx: nat, pos: nat, token: Token)
    | SwapTokens(from: nat, to: nat)
    | SwapWords(from: nat, to: nat)
    | Truncate(idx: nat, newLen: nat)
    | DictInsert(at: nat, word: seq<Byte>)
    | DictInsertPadded(at: nat, before: Token, word: seq<Byte>, after: Token)
    | DictReplace(idx: nat, word: seq<Byte>)
    | SwapConstants(idx: nat, word: seq<Byte>)

  /** What a run may draw on: the token limit, the dictionary, the packets of the corpus, and the amounts given
      to the two repeating mutators. */
  datatype Env = Env(maxTokens: nat, dict: seq<seq<Byte>>, others: seq<seq<Token>>,
                     charAmount: nat, tokenAmount: nat)

  const INTERESTING: seq<seq<Byte>> := [
    [48] /* 0 */,
    [45, 49] /* -1 */,
    [49, 50, 55] /* 127 */,
    [45, 49, 50, 56] /* -128 */,
    [49, 50, 56] /* 128 */,
    [50, 53, 53] /* 255 */,
    [51, 50, 55, 54, 55] /* 32767 */,
    [45, 51, 50, 55, 54, 56] /* -32768 */,
    [51, 50, 55, 54, 56] /* 32768 */,
    [54, 53, 53, 51, 53] /* 65535 */,
    [50, 49, 52, 55, 52, 56, 51, 54, 52, 55] /* 2147483647 */,
    [50, 49, 52, 55, 52, 56, 51, 54, 52, 56] /* 2147483648 */,
    [45, 50, 49, 52, 55, 52, 56, 51, 54, 52, 56] /* -2147483648 */,
    [52, 50, 57, 52, 57, 54, 55, 50, 57, 53] /* 4294967295 */,
    [57, 50, 50, 51, 51, 55, 50, 48, 51, 54, 56, 53, 52, 55, 55, 53, 56, 48, 55] /* 9223372036854775807 */,
    [57, 50, 50, 51, 51, 55, 50, 48, 51, 54, 56, 53, 52, 55, 55, 53, 56, 48, 56] /* 9223372036854775808 */,
    [45, 57, 50, 50, 51, 51, 55, 50, 48, 51, 54, 56, 53, 52, 55, 55, 53, 56, 48, 56] /* -9223372036854775808 */,
    [49, 56, 52, 52, 54, 55, 52, 52, 48, 55, 51, 55, 48, 57, 53, 53, 49, 54, 49, 53] /* 18446744073709551615 */,
    [49, 54] /* 16 */,
    [51, 50] /* 32 */,
    [54, 52] /* 64 */,
    [50, 53, 54] /* 256 */,
    [53, 49, 50] /* 512 */,
    [49, 48, 50, 52] /* 1024 */,
    [52, 48, 57, 54] /* 4096 */,
    [54, 53, 53, 51, 54] /* 65536 */,
    [49] /* 1 */,
    [49, 48, 48] /* 100 */,
    [45, 49, 50, 57] /* -129 */,
    [49, 48, 48, 48] /* 1000 */,
    [45, 49, 48, 48, 54, 54, 51, 48, 52, 54] /* -100663046 */,
    [45, 51, 50, 55, 54, 57] /* -32769 */,
    [49, 48, 48, 54, 54, 51, 48, 52, 53] /* 100663045 */
  ]

  const SPECIAL: seq<Byte> := [
    0, 33, 34, 35, 36, 37, 38, 39, 40, 41, 42, 43, 44, 45, 46, 47, 58,
    59, 60, 61, 62, 63, 64, 92, 91, 93, 94, 95, 96, 123, 124, 125, 127
  ]

  function Repeat<T>(x: T, n: nat): (r: seq<T>)
    ensures |r| == n
    ensures forall i | 0 <= i < n :: r[i] == x
  {
    seq(n, _ => x)
  }

  /** The first position from `start` on whose token satisfies p, or |ts|. */
  function FirstFrom(ts: seq<Token>, start: nat, p: Token -> bool): (k: nat)
    requires start <= |ts|
    ensures start <= k <= |ts|
    ensures k < |ts| ==> p(ts[k])
    ensures forall i | start <= i < k :: !p(ts[i])
    decreases |ts| - start
  {
    if start == |ts| || p(ts[start]) then start else FirstFrom(ts, start + 1, p)
  }

  predicate IsText(t: Token) { t.Text? }
  predicate IsNonemptyText(t: Token) { t.Text? && t.data != [] }
  predicate IsNumber(t: Token) { t.Number? }
  predicate IsConstant(t: Token) { t.Constant? }
  predicate IsNotWhitespace(t: Token) { !t.Whitespace? }

  /** A byte that a flip may put at position pos of t. */
  predicate FlipValue(t: Token, pos: nat, value: Byte) {
    match t
    case Constant(_) => false
    case Whitespace(_) => IsSpace(value)
    case Number(d) => IsDigit(value) || (pos == 0 && |d| > 1 && IsSign(value))
    case Text(_) => IsTextTail(value)
  }

  predicate Enabled(ts: seq<Token>, m: Move, max: nat) {
    match m
    case Copy(lo, hi, at) => |ts| < max && lo < hi <= |ts| && hi - lo <= max - |ts| && at <= |ts|
    case CrossoverInsert(other, lo, hi, at) =>
      0 < |ts| < max && lo < hi <= |other| && hi - lo <= max - |ts| && at <= |ts|
    case CrossoverReplace(other, lo, hi, dstLo, dstHi) =>
      |ts| < max && dstLo < dstHi <= |ts| && lo < hi <= |other| && hi - lo <= max - |ts| + dstHi - dstLo
    case Delete(lo, hi) => lo < hi <= |ts|
    case Flip(idx, pos, value) => idx < |ts| && pos < |ts[idx].data| && FlipValue(ts[idx], pos, value)
    case Interesting(idx, word) => idx < |ts| && ts[idx].Number? && word in INTERESTING
    case RandomInsert(at, token) => |ts| < max && at <= |ts| && Fresh(token, 16)
    case RandomReplace(idx, token) => idx < |ts| && Fresh(token, 16)
    case RepeatChar(idx, pos, amount) =>
      && idx < |ts| && !ts[idx].Constant?
      && pos < |ts[idx].data| < amount
      && !(pos == 0 && ts[idx].Number?)
    case RepeatToken(idx, _) => |ts| < max && idx < |ts| && ts[idx].data != []
    case SpecialInsert(idx, pos, value) =>
      idx < |ts| && ts[idx].Text? && pos <= |ts[idx].data| && value in SPECIAL
    case SpecialReplace(idx, pos, value) =>
      idx < |ts| && ts[idx].Text? && pos < |ts[idx].data| && value in SPECIAL
    case Split(idx, pos, token) =>
      && idx < |ts| && |ts| + 2 <= max && !ts[idx].Constant?
      && 1 <= pos < |ts[idx].data|
      && !(pos == 1 && ts[idx].Number?)
      && Fresh(token, 16)
    case SwapTokens(from, to) => from < |ts| && to < |ts| && from != to
    case SwapWords(from, to) => |ts| >= 3 && from < |WordsOf(ts)| && to < |WordsOf(ts)| && from != to
    case Truncate(idx, newLen) =>
      && idx < |ts| && !ts[idx].Constant?
      && 1 <= newLen < |ts[idx].data|
      && !(newLen == 1 && ts[idx].Number? && IsSign(ts[idx].data[0]))
    case DictInsert(at, _) => |ts| < max && at <= |ts|
    case DictInsertPadded(at, before, _, after) =>
      && |ts| + 3 <= max && at <= |ts|
      && before.Whitespace? && Fresh(before, 1)
      && after.Whitespace? && Fresh(after, 1)
    case DictReplace(idx, _) => idx < |ts| && !ts[idx].Whitespace?
    case SwapConstants(idx, _) => idx < |ts| && ts[idx].Constant?
  }

  function Apply(ts: seq<Token>, m: Move, max: nat): seq<Token>
    requires Enabled(ts, m, max)
  {
    match m
    case Copy(lo, hi, at) => Splice(ts, at, at, ts[lo..hi])
    case CrossoverInsert(other, lo, hi, at) => Splice(ts, at, at, other[lo..hi])
    case CrossoverReplace(other, lo, hi, dstLo, dstHi) => Splice(ts, dstLo, dstHi, other[lo..hi])
    case Delete(lo, hi) => Splice(ts, lo, hi, [])
    case Flip(idx, pos, value) => SetData(ts, idx, ts[idx].data[pos := value])
    case Interesting(idx, word) => SetData(ts, idx, word)
    case RandomInsert(at, token) => Splice(ts, at, at, [token])
    case RandomReplace(idx, token) => ts[idx := token]
    case RepeatChar(idx, pos, amount) =>
      var d := ts[idx].data;
      SetData(ts, idx, d[..pos] + Repeat(d[pos], amount - |d|) + d[pos..])
    case RepeatToken(idx, amount) => Splice(ts, idx, idx, Repeat(ts[idx], Copies(ts, idx, amount, max)))
    case SpecialInsert(idx, pos, value) =>
      var d := ts[idx].data;
      SetData(ts, idx, d[..pos] + [value] + d[pos..])
    case SpecialReplace(idx, pos, value) => SetData(ts, idx, ts[idx].data[pos := value])
    case Split(idx, pos, token) =>
      var t := ts[idx];
      Splice(ts, idx, idx + 1, [t.(data := t.data[..pos]), token, t.(data := t.data[pos..])])
    case SwapTokens(from, to) => Exchange(ts, from, to)
    case SwapWords(from, to) => WordsSwapped(ts, from, to)
    case Truncate(idx, newLen) => SetData(ts, idx, ts[idx].data[..newLen])
    case DictInsert(at, word) => Splice(ts, at, at, [Constant(word)])
    case DictInsertPadded(at, before, word, after) => Splice(ts, at, at, [before, Constant(word), after])
    case DictReplace(idx, word) => ts[idx := Constant(word)]
    case SwapConstants(idx, word) => SetData(ts, idx, word)
  }

  /** How often `mutate_repeat_token` repeats the token: about `amount` bytes, and no more than fit. */
  function Copies(ts: seq<Token>, idx: nat, amount: nat, max: nat): (n: nat)
    requires idx < |ts| < max && ts[idx].data != []
    ensures 1 <= n <= max - |ts|
  {
    Min(1 + amount / |ts[idx].data|, max - |ts|)
  }

  /** n is the least number of copies of a token of d bytes whose bytes exceed `amount`, cut off at the room. */
  predicate LeastCopies(n: int, d: nat, amount: nat, room: int) {
    && 1 <= n <= room
    && (n - 1) * d <= amount
    && (n < room ==> amount < n * d)
  }

  lemma {:induction false} CopiesAreLeast(ts: seq<Token>, idx: nat, amount: nat, max: nat)
    requires idx < |ts| < max && ts[idx].data != []
    ensures LeastCopies(Copies(ts, idx, amount, max), |ts[idx].data|, amount, max - |ts|)
  {
    var d, n := |ts[idx].data|, Copies(ts, idx, amount, max);
    var q := amount / d;
    assert q * d <= amount < (q + 1) * d;
    if n - 1 < q {
      assert (n - 1) * d <= q * d;
    }
  }

  /** The contract shared by the nineteen methods: a report of change means that the move was enabled and
      has been applied, a report of no change that it was not enabled and nothing has been touched. */
  predicate Outcome(before: seq<Token>, after: seq<Token>, mutated: bool, m: Move, max: nat) {
    && mutated == Enabled(before, m, max)
    && after == if Enabled(before, m, max) then Apply(before, m, max) else before
  }

  // ---------- What one move keeps ----------

  /** The operands that a move takes from the corpus satisfy the invariant. */
  predicate OperandsStrict(m: Move) {
    (m.CrossoverInsert? || m.CrossoverReplace?) ==> AllStrict(m.other)
  }

  lemma {:induction false} InterestingAreNumbers()
    ensures forall w | w in INTERESTING :: NumberShape(w)
  {
    SmallLimitsAreNumbers();
    LimitsOf32BitsAreNumbers();
    LimitsOf64BitsAreNumbers();
    OtherEntriesAreNumbers();
  }

  lemma {:induction false} SmallLimitsAreNumbers()
    ensures forall k | 0 <= k < 10 :: NumberShape(INTERESTING[k])
  {
  }

  lemma {:induction false} LimitsOf32BitsAreNumbers()
    ensures forall k | 10 <= k < 14 :: NumberShape(INTERESTING[k])
  {
  }

  lemma {:induction false} LimitsOf64BitsAreNumbers()
    ensures forall k | 14 <= k < 18 :: NumberShape(INTERESTING[k])
  {
  }

  lemma {:induction false} OtherEntriesAreNumbers()
    ensures forall k | 18 <= k < 33 :: NumberShape(INTERESTING[k])
  {
  }

  lemma {:induction false} SpecialsAreText()
    ensures forall b | b in SPECIAL :: IsTextByte(b)
  {
    assert forall k | 0 <= k < |SPECIAL| :: IsTextByte(SPECIAL[k]);
  }

  lemma {:induction false} SpliceStrict(ts: seq<Token>, i: nat, j: nat, mid: seq<Token>)
    requires i <= j <= |ts| && AllStrict(ts) && AllStrict(mid)
    ensures AllStrict(Splice(ts, i, j, mid))
  {
  }

  lemma {:induction false} UpdateStrict(ts: seq<Token>, idx: nat, t: Token)
    requires idx < |ts| && AllStrict(ts) && Strict(t)
    ensures AllStrict(ts[idx := t])
  {
  }

  /** The moves that change the data of one token leave it with the shape of its kind. */
  lemma {:induction false} DataMovesKeepShape(ts: seq<Token>, m: Move, max: nat)
    requires ChangesData(m) && AllStrict(ts) && Enabled(ts, m, max)
    ensures Strict(Apply(ts, m, max)[m.idx])
  {
    var t := ts[m.idx];
    assert Strict(t);
    if m.Interesting? {
      InterestingAreNumbers();
    } else if m.SpecialInsert? || m.SpecialReplace? {
      SpecialsAreText();
    }
  }

  lemma {:induction false} SplitKeepsShape(t: Token, pos: nat)
    requires Strict(t) && !t.Constant? && 1 <= pos < |t.data| && !(pos == 1 && t.Number?)
    ensures Strict(t.(data := t.data[..pos])) && Strict(t.(data := t.data[pos..]))
  {
  }

  predicate ChangesData(m: Move) {
    m.Flip? || m.Interesting? || m.RepeatChar? || m.SpecialInsert? || m.SpecialReplace? || m.Truncate?
  }

  predicate TakesRange(m: Move) { m.Copy? || m.CrossoverInsert? || m.CrossoverReplace? || m.Delete? }

  predicate PutsToken(m: Move) { m.RandomReplace? || m.DictReplace? || m.SwapConstants? }

  predicate InsertsTokens(m: Move) {
    m.RandomInsert? || m.RepeatToken? || m.Split? || m.DictInsert? || m.DictInsertPadded?
  }

  lemma {:induction false} RangeMovesKeepStrict(ts: seq<Token>, m: Move, max: nat)
    requires TakesRange(m) && AllStrict(ts) && Enabled(ts, m, max) && OperandsStrict(m)
    ensures AllStrict(Apply(ts, m, max))
  {
    match m
    case Copy(lo, hi, at) => SpliceStrict(ts, at, at, ts[lo..hi]);
    case CrossoverInsert(other, lo, hi, at) => SpliceStrict(ts, at, at, other[lo..hi]);
    case CrossoverReplace(other, lo, hi, dstLo, dstHi) => SpliceStrict(ts, dstLo, dstHi, other[lo..hi]);
    case Delete(lo, hi) => SpliceStrict(ts, lo, hi, []);
  }

  lemma {:induction false} InsertMovesKeepStrict(ts: seq<Token>, m: Move, max: nat)
    requires InsertsTokens(m) && AllStrict(ts) && Enabled(ts, m, max)
    ensures AllStrict(Apply(ts, m, max))
  {
    match m
    case RandomInsert(at, token) => SpliceStrict(ts, at, at, [token]);
    case RepeatToken(idx, amount) => SpliceStrict(ts, idx, idx, Repeat(ts[idx], Copies(ts, idx, amount, max)));
    case Split(idx, pos, token) => SplitKeepsShape(ts[idx], pos);
    case DictInsert(at, word) => SpliceStrict(ts, at, at, [Constant(word)]);
    case DictInsertPadded(at, before, word, after) => SpliceStrict(ts, at, at, [before, Constant(word), after]);
  }

  lemma {:induction false} TokenMovesKeepStrict(ts: seq<Token>, m: Move, max: nat)
    requires PutsToken(m) && AllStrict(ts) && Enabled(ts, m, max)
    ensures AllStrict(Apply(ts, m, max))
  {
    match m
    case RandomReplace(idx, token) => UpdateStrict(ts, idx, token);
    case DictReplace(idx, word) => UpdateStrict(ts, idx, Constant(word));
    case SwapConstants(idx, word) => UpdateStrict(ts, idx, Constant(word));
  }

  lemma {:induction false} DataMovesKeepStrict(ts: seq<Token>, m: Move, max: nat)
    requires ChangesData(m) && AllStrict(ts) && Enabled(ts, m, max)
    ensures AllStrict(Apply(ts, m, max))
  {
    DataMovesKeepShape(ts, m, max);
    UpdateStrict(ts, m.idx, Apply(ts, m, max)[m.idx]);
  }

  lemma {:induction false} SwapsKeepTokens(ts: seq<Token>, m: Move, max: nat)
    requires (m.SwapTokens? || m.SwapWords?) && Enabled(ts, m, max)
    ensures multiset(Apply(ts, m, max)) == multiset(ts)
  {
    if m.SwapWords? {
      SwapWordsConserves(ts, m.from, m.to);
    }
  }

  /** Every move keeps every token strictly valid. */
  lemma {:induction false} MoveKeepsStrict(ts: seq<Token>, m: Move, max: nat)
    requires AllStrict(ts) && Enabled(ts, m, max) && OperandsStrict(m)
    ensures AllStrict(Apply(ts, m, max))
  {
    if TakesRange(m) {
      RangeMovesKeepStrict(ts, m, max);
    } else if InsertsTokens(m) {
      InsertMovesKeepStrict(ts, m, max);
    } else if PutsToken(m) {
      TokenMovesKeepStrict(ts, m, max);
    } else if ChangesData(m) {
      DataMovesKeepStrict(ts, m, max);
    } else {
      SwapsKeepTokens(ts, m, max);
      SameTokens(ts, Apply(ts, m, max));
    }
  }

  lemma {:induction false} SameTokens(a: seq<Token>, b: seq<Token>)
    requires multiset(a) == multiset(b)
    ensures AllStrict(a) <==> AllStrict(b)
    ensures ConstantsAscii(a) <==> ConstantsAscii(b)
  {
    assert forall t :: t in a <==> t in multiset(a);
    assert forall t :: t in b <==> t in multiset(b);
  }

  /** No move leaves more tokens than there were or than the limit allows. */
  lemma {:induction false} MoveKeepsBound(ts: seq<Token>, m: Move, max: nat)
    requires Enabled(ts, m, max)
    ensures |Apply(ts, m, max)| <= Max(|ts|, max)
  {
    if m.SwapWords? {
      SwapWordsConserves(ts, m.from, m.to);
    }
  }
}
