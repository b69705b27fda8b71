/** What the token mutators do to the token list, by position. */
module TokenEdits {
  import opened Tokens
  import opened Moves

  /** The tokens from position `from` up to `to` are replaced by the block; those in front of them and behind them
      stay, in order. */
  predicate InPlace(ts: seq<Token>, from: nat, to: nat, block: seq<Token>, us: seq<Token>) {
    && from <= to <= |ts|
    && |us| == |ts| - (to - from) + |block|
    && (forall k | 0 <= k < from :: us[k] == ts[k])
    && (forall k | 0 <= k < |block| :: us[from + k] == block[k])
    && (forall k | to <= k < |ts| :: us[k - (to - from) + |block|] == ts[k])
  }

  lemma {:induction false} SpliceInPlace(ts: seq<Token>, from: nat, to: nat, block: seq<Token>)
    requires from <= to <= |ts|
    ensures InPlace(ts, from, to, block, Splice(ts, from, to, block))
  {
  }

  lemma {:induction false} UpdateInPlace(ts: seq<Token>, idx: nat, t: Token)
    requires idx < |ts|
    ensures InPlace(ts, idx, idx + 1, [t], ts[idx := t])
  {
  }

  /** The mutators that put tokens into the list or take them out. */
  lemma {:induction false} ListMovesInPlace(ts: seq<Token>, m: Move, max: nat)
    requires Enabled(ts, m, max) && (TakesRange(m) || InsertsTokens(m))
    ensures var us := Apply(ts, m, max);
            match m
            case Copy(lo, hi, at) => InPlace(ts, at, at, ts[lo..hi], us)
            case CrossoverInsert(other, lo, hi, at) => InPlace(ts, at, at, other[lo..hi], us)
            case CrossoverReplace(other, lo, hi, dstLo, dstHi) => InPlace(ts, dstLo, dstHi, other[lo..hi], us)
            case Delete(lo, hi) => InPlace(ts, lo, hi, [], us)
            case RandomInsert(at, token) => InPlace(ts, at, at, [token], us)
            case RepeatToken(idx, amount) =>
              var n := |us| - |ts|;
              && LeastCopies(n, |ts[idx].data|, amount, max - |ts|)
              && InPlace(ts, idx, idx, seq(n, _ => ts[idx]), us)
            case Split(idx, pos, token) =>
              var t := ts[idx];
              InPlace(ts, idx, idx + 1, [t.(data := t.data[..pos]), token, t.(data := t.data[pos..])], us)
            case DictInsert(at, word) => InPlace(ts, at, at, [Constant(word)], us)
            case DictInsertPadded(at, before, word, after) => InPlace(ts, at, at, [before, Constant(word), after], us)
  {
    match m
    case Copy(lo, hi, at) => SpliceInPlace(ts, at, at, ts[lo..hi]);
    case CrossoverInsert(other, lo, hi, at) => SpliceInPlace(ts, at, at, other[lo..hi]);
    case CrossoverReplace(other, lo, hi, dstLo, dstHi) => SpliceInPlace(ts, dstLo, dstHi, other[lo..hi]);
    case Delete(lo, hi) => SpliceInPlace(ts, lo, hi, []);
    case RandomInsert(at, token) => SpliceInPlace(ts, at, at, [token]);
    case RepeatToken(idx, amount) =>
      var n := Copies(ts, idx, amount, max);
      CopiesAreLeast(ts, idx, amount, max);
      SpliceInPlace(ts, idx, idx, Repeat(ts[idx], n));
      assert Repeat(ts[idx], n) == seq(n, _ => ts[idx]);
    case Split(idx, pos, token) =>
      var t := ts[idx];
      SpliceInPlace(ts, idx, idx + 1, [t.(data := t.data[..pos]), token, t.(data := t.data[pos..])]);
    case DictInsert(at, word) => SpliceInPlace(ts, at, at, [Constant(word)]);
    case DictInsertPadded(at, before, word, after) => SpliceInPlace(ts, at, at, [before, Constant(word), after]);
  }

  /** The mutators that change one token. */
  lemma {:induction false} TokenMovesInPlace(ts: seq<Token>, m: Move, max: nat)
    requires Enabled(ts, m, max) && (PutsToken(m) || ChangesData(m))
    ensures var us, t := Apply(ts, m, max), ts[m.idx];
            match m
            case RandomReplace(idx, token) => InPlace(ts, idx, idx + 1, [token], us)
            case DictReplace(idx, word) => InPlace(ts, idx, idx + 1, [Constant(word)], us)
            case SwapConstants(idx, word) => InPlace(ts, idx, idx + 1, [Constant(word)], us)
            case Interesting(idx, word) => InPlace(ts, idx, idx + 1, [Number(word)], us)
            case Flip(idx, pos, value) => InPlace(ts, idx, idx + 1, [t.(data := t.data[pos := value])], us)
            case SpecialReplace(idx, pos, value) => InPlace(ts, idx, idx + 1, [Text(t.data[pos := value])], us)
            case SpecialInsert(idx, pos, value) =>
              InPlace(ts, idx, idx + 1, [Text(t.data[..pos] + [value] + t.data[pos..])], us)
            case RepeatChar(idx, pos, amount) =>
              var copies := seq(amount - |t.data|, _ => t.data[pos]);
              InPlace(ts, idx, idx + 1, [t.(data := t.data[..pos] + copies + t.data[pos..])], us)
            case Truncate(idx, newLen) => InPlace(ts, idx, idx + 1, [t.(data := t.data[..newLen])], us)
  {
    UpdateInPlace(ts, m.idx, Apply(ts, m, max)[m.idx]);
    if m.RepeatChar? {
      var n, b := m.amount - |ts[m.idx].data|, ts[m.idx].data[m.pos];
      assert Repeat(b, n) == seq(n, _ => b);
    }
  }

  /** The swap of two tokens leaves all others where they are. */
  lemma {:induction false} SwapInPlace(ts: seq<Token>, m: Move, max: nat)
    requires Enabled(ts, m, max) && m.SwapTokens?
    ensures var us := Apply(ts, m, max);
            && |us| == |ts| && us[m.from] == ts[m.to] && us[m.to] == ts[m.from]
            && (forall k | 0 <= k < |ts| && k != m.from && k != m.to :: us[k] == ts[k])
  {
  }
}
