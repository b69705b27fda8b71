/** Exactly when a mutator that reports a change has changed nothing. */
module IdleMoves {
  import opened Bytes
  import opened Tokens
  import opened Words
  import opened Moves

  /** The condition, on the list and the choices of the move, under which the move changes nothing. */
  predicate Idle(ts: seq<Token>, m: Move, max: nat)
    requires Enabled(ts, m, max)
  {
    match m
    case CrossoverReplace(other, lo, hi, dstLo, dstHi) => other[lo..hi] == ts[dstLo..dstHi]
    case Flip(idx, pos, value) => ts[idx].data[pos] == value
    case SpecialReplace(idx, pos, value) => ts[idx].data[pos] == value
    case Interesting(idx, word) => ts[idx].data == word
    case SwapConstants(idx, word) => ts[idx].data == word
    case RandomReplace(idx, token) => ts[idx] == token
    case DictReplace(idx, word) => ts[idx] == Constant(word)
    case SwapTokens(from, to) => ts[from] == ts[to]
    case SwapWords(from, to) => WordsOf(ts)[from] == WordsOf(ts)[to]
    // all others change the number of tokens or of bytes
    case _ => false
  }

  lemma {:induction false} UpdateIdleIff<T>(s: seq<T>, i: nat, x: T)
    requires i < |s|
    ensures s[i := x] == s <==> s[i] == x
  {
    assert s[i := x][i] == x;
  }

  lemma {:induction false} SpliceIdleIff(ts: seq<Token>, i: nat, j: nat, mid: seq<Token>)
    requires i <= j <= |ts|
    ensures Splice(ts, i, j, mid) == ts <==> mid == ts[i..j]
  {
    assert ts == ts[..i] + ts[i..j] + ts[j..];
    if Splice(ts, i, j, mid) == ts {
      assert |mid| == j - i;
      assert Splice(ts, i, j, mid)[i..i + |mid|] == mid;
    }
  }

  lemma {:induction false} DataIdleIff(ts: seq<Token>, idx: nat, data: seq<Byte>)
    requires idx < |ts|
    ensures SetData(ts, idx, data) == ts <==> ts[idx].data == data
  {
    UpdateIdleIff(ts, idx, ts[idx].(data := data));
  }

  lemma {:induction false} WriteIdleIff(ts: seq<Token>, m: Move, max: nat)
    requires m.Flip? || m.SpecialReplace? || m.Interesting? || m.SwapConstants?
    requires Enabled(ts, m, max)
    ensures Apply(ts, m, max) == ts <==> Idle(ts, m, max)
  {
    var d := ts[m.idx].data;
    match m
    case Flip(idx, pos, value) =>
      DataIdleIff(ts, idx, d[pos := value]);
      UpdateIdleIff(d, pos, value);
    case SpecialReplace(idx, pos, value) =>
      DataIdleIff(ts, idx, d[pos := value]);
      UpdateIdleIff(d, pos, value);
    case Interesting(idx, word) => DataIdleIff(ts, idx, word);
    case SwapConstants(idx, word) => DataIdleIff(ts, idx, word);
  }

  lemma {:induction false} ResizeIsNotIdle(ts: seq<Token>, m: Move, max: nat)
    requires m.RepeatChar? || m.SpecialInsert? || m.Truncate?
    requires Enabled(ts, m, max)
    ensures Apply(ts, m, max) != ts
  {
    var d := ts[m.idx].data;
    match m
    case RepeatChar(idx, pos, amount) => DataIdleIff(ts, idx, d[..pos] + Repeat(d[pos], amount - |d|) + d[pos..]);
    case SpecialInsert(idx, pos, value) => DataIdleIff(ts, idx, d[..pos] + [value] + d[pos..]);
    case Truncate(idx, newLen) => DataIdleIff(ts, idx, d[..newLen]);
  }

  lemma {:induction false} SwapIdleIff(ts: seq<Token>, m: Move, max: nat)
    requires (m.SwapTokens? || m.SwapWords?) && Enabled(ts, m, max)
    ensures Apply(ts, m, max) == ts <==> Idle(ts, m, max)
  {
    if m.SwapTokens? {
      assert Exchange(ts, m.from, m.to)[m.from] == ts[m.to];
    } else {
      SplitIsWellSplit(ts);
      SwapWordsLaw(ts, m.from, m.to);
      var ws := WordsOf(ts);
      assert Exchange(ws, m.from, m.to)[m.from] == ws[m.to];
      if ws[m.from] == ws[m.to] {
        assert Exchange(ws, m.from, m.to) == ws;
      }
    }
  }

  lemma {:induction false} LengthMoveIsNotIdle(ts: seq<Token>, m: Move, max: nat)
    requires m.Copy? || m.CrossoverInsert? || m.Delete? || m.RandomInsert? || m.RepeatToken? || m.Split?
          || m.DictInsert? || m.DictInsertPadded?
    requires Enabled(ts, m, max)
    ensures |Apply(ts, m, max)| != |ts|
  {
  }

  /** For every enabled move: it changes nothing, although a change is reported, if and only if it is idle. */
  lemma {:induction false} MoveChangesNothingIff(ts: seq<Token>, m: Move, max: nat)
    requires Enabled(ts, m, max)
    ensures Apply(ts, m, max) == ts <==> Idle(ts, m, max)
  {
    match m
    case CrossoverReplace(other, lo, hi, dstLo, dstHi) => SpliceIdleIff(ts, dstLo, dstHi, other[lo..hi]);
    case RandomReplace(idx, token) => UpdateIdleIff(ts, idx, token);
    case DictReplace(idx, word) => UpdateIdleIff(ts, idx, Constant(word));
    case SwapTokens(_, _) => SwapIdleIff(ts, m, max);
    case SwapWords(_, _) => SwapIdleIff(ts, m, max);
    case Flip(_, _, _) => WriteIdleIff(ts, m, max);
    case SpecialReplace(_, _, _) => WriteIdleIff(ts, m, max);
    case Interesting(_, _) => WriteIdleIff(ts, m, max);
    case SwapConstants(_, _) => WriteIdleIff(ts, m, max);
    case RepeatChar(_, _, _) => ResizeIsNotIdle(ts, m, max);
    case SpecialInsert(_, _, _) => ResizeIsNotIdle(ts, m, max);
    case Truncate(_, _) => ResizeIsNotIdle(ts, m, max);
    case _ => LengthMoveIsNotIdle(ts, m, max);
  }

  /** A witness: exchanging two equal tokens is reported as a change and leaves the packet as it is. */
  lemma {:induction false} ReportedChangeMayChangeNothing(max: nat)
    ensures var ts := [Text([97]), Text([97])];
            Enabled(ts, SwapTokens(0, 1), max) && Apply(ts, SwapTokens(0, 1), max) == ts
  {
    MoveChangesNothingIff([Text([97]), Text([97])], SwapTokens(0, 1), max);
  }
}
