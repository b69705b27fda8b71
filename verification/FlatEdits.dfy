/** What the token mutators do to the bytes: seventeen of them make one contiguous edit, the two swaps
    exchange two blocks. */
module FlatEdits {
  import opened Bytes
  import opened Tokens
  import opened Moves
  import opened Words

  /** The bytes from position `from` up to `to` are replaced by the block. */
  datatype Edit = Edit(from: nat, to: nat, block: seq<Byte>)

  predicate EditFits(e: Edit, s: seq<Byte>) { e.from <= e.to <= |s| }

  function MakeEdit(e: Edit, s: seq<Byte>): seq<Byte>
    requires EditFits(e, s)
  {
    s[..e.from] + e.block + s[e.to..]
  }

  predicate IsSwap(m: Move) { m.SwapTokens? || m.SwapWords? }

  /** The bytes of the tokens lo up to hi, as a substring of the bytes of the list. */
  function Substring(ts: seq<Token>, lo: nat, hi: nat): seq<Byte>
    requires lo <= hi <= |ts|
  {
    FlattenSlice(ts, lo, hi);
    Flatten(ts)[Offset(ts, lo)..Offset(ts, hi)]
  }

  function EditOf(ts: seq<Token>, m: Move, max: nat): Edit
    requires Enabled(ts, m, max) && !IsSwap(m)
  {
    match m
    // insertions between two tokens
    case Copy(lo, hi, at) => Edit(Offset(ts, at), Offset(ts, at), Substring(ts, lo, hi))
    case CrossoverInsert(other, lo, hi, at) => Edit(Offset(ts, at), Offset(ts, at), Substring(other, lo, hi))
    case RandomInsert(at, token) => Edit(Offset(ts, at), Offset(ts, at), token.data)
    case RepeatToken(idx, amount) =>
      Edit(Offset(ts, idx), Offset(ts, idx), Cycle(ts[idx].data, Copies(ts, idx, amount, max)))
    case DictInsert(at, word) => Edit(Offset(ts, at), Offset(ts, at), word)
    case DictInsertPadded(at, before, word, after) =>
      Edit(Offset(ts, at), Offset(ts, at), before.data + word + after.data)
    // insertions inside a token
    case RepeatChar(idx, pos, amount) =>
      var at, d := Offset(ts, idx) + pos, ts[idx].data;
      Edit(at, at, Repeat(d[pos], amount - |d|))
    case SpecialInsert(idx, pos, value) => Edit(Offset(ts, idx) + pos, Offset(ts, idx) + pos, [value])
    case Split(idx, pos, token) => Edit(Offset(ts, idx) + pos, Offset(ts, idx) + pos, token.data)
    // removals
    case Delete(lo, hi) => Edit(Offset(ts, lo), Offset(ts, hi), [])
    case Truncate(idx, newLen) => Edit(Offset(ts, idx) + newLen, Offset(ts, idx + 1), [])
    // replacements
    case CrossoverReplace(other, lo, hi, dstLo, dstHi) =>
      Edit(Offset(ts, dstLo), Offset(ts, dstHi), Substring(other, lo, hi))
    case Flip(idx, pos, value) => Edit(Offset(ts, idx) + pos, Offset(ts, idx) + pos + 1, [value])
    case SpecialReplace(idx, pos, value) => Edit(Offset(ts, idx) + pos, Offset(ts, idx) + pos + 1, [value])
    case Interesting(idx, word) => Edit(Offset(ts, idx), Offset(ts, idx + 1), word)
    case RandomReplace(idx, token) => Edit(Offset(ts, idx), Offset(ts, idx + 1), token.data)
    case DictReplace(idx, word) => Edit(Offset(ts, idx), Offset(ts, idx + 1), word)
    case SwapConstants(idx, word) => Edit(Offset(ts, idx), Offset(ts, idx + 1), word)
  }

  /** n copies of a byte string, one after the other. */
  function Cycle(d: seq<Byte>, n: nat): seq<Byte> {
    if n == 0 then [] else d + Cycle(d, n - 1)
  }

  lemma {:induction false} FlattenRepeat(t: Token, n: nat)
    ensures Flatten(Repeat(t, n)) == Cycle(t.data, n)
  {
    if n > 0 {
      FlattenRepeat(t, n - 1);
      assert Repeat(t, n)[1..] == Repeat(t, n - 1);
    }
  }

  lemma {:induction false} FlattenOne(t: Token)
    ensures Flatten([t]) == t.data
  {
  }

  lemma {:induction false} FlattenThree(a: Token, b: Token, c: Token)
    ensures Flatten([a, b, c]) == a.data + b.data + c.data
  {
    FlattenOne(c);
    assert [a, b, c] == [a] + ([b] + [c]);
    FlattenConcat([a], [b] + [c]);
    FlattenConcat([b], [c]);
  }

  /** An edit inside one token, whatever tokens it leaves there, is an edit of the flat string. */
  lemma {:induction false} EditInside(ts: seq<Token>, idx: nat, p: nat, q: nat, block: seq<Byte>, mid: seq<Token>)
    requires idx < |ts| && p <= q <= |ts[idx].data|
    requires Flatten(mid) == ts[idx].data[..p] + block + ts[idx].data[q..]
    ensures Offset(ts, idx) + q <= Offset(ts, idx + 1) <= |Flatten(ts)|
    ensures Flatten(Splice(ts, idx, idx + 1, mid))
         == Flatten(ts)[..Offset(ts, idx) + p] + block + Flatten(ts)[Offset(ts, idx) + q..]
  {
    TokenInFlat(ts, idx);
    SpliceOneToken(ts, idx, mid);
    SubstringEdit(Flatten(ts), Offset(ts, idx), ts[idx].data, p, q, block, Flatten(mid),
                  Flatten(Splice(ts, idx, idx + 1, mid)));
  }

  lemma {:induction false} SpliceOneToken(ts: seq<Token>, idx: nat, mid: seq<Token>)
    requires idx < |ts|
    ensures Offset(ts, idx) + |ts[idx].data| <= |Flatten(ts)|
    ensures Flatten(Splice(ts, idx, idx + 1, mid))
         == Flatten(ts)[..Offset(ts, idx)] + Flatten(mid) + Flatten(ts)[Offset(ts, idx) + |ts[idx].data|..]
  {
    FlattenSplice(ts, idx, idx + 1, mid);
    TokenInFlat(ts, idx);
  }

  lemma {:induction false} TokenInFlat(ts: seq<Token>, idx: nat)
    requires idx < |ts|
    ensures Offset(ts, idx + 1) == Offset(ts, idx) + |ts[idx].data| <= |Flatten(ts)|
    ensures Flatten(ts)[Offset(ts, idx)..Offset(ts, idx) + |ts[idx].data|] == ts[idx].data
  {
    OffsetStep(ts, idx);
    FlattenSlice(ts, idx, idx + 1);
    FlattenOne(ts[idx]);
    assert ts[idx..idx + 1] == [ts[idx]];
  }

  lemma {:induction false} SubstringEdit(s: seq<Byte>, o: nat, d: seq<Byte>, p: nat, q: nat, block: seq<Byte>,
                                        e: seq<Byte>, r: seq<Byte>)
    requires p <= q <= |d| && o + |d| <= |s| && s[o..o + |d|] == d
    requires e == d[..p] + block + d[q..] && r == s[..o] + e + s[o + |d|..]
    ensures r == s[..o + p] + block + s[o + q..]
  {
    assert s[..o + p] == s[..o] + d[..p];
    assert s[o + q..] == d[q..] + s[o + |d|..];
  }

  lemma {:induction false} EditData(ts: seq<Token>, idx: nat, p: nat, q: nat, block: seq<Byte>)
    requires idx < |ts| && p <= q <= |ts[idx].data|
    ensures Offset(ts, idx) + q <= Offset(ts, idx + 1) <= |Flatten(ts)|
    ensures Flatten(SetData(ts, idx, ts[idx].data[..p] + block + ts[idx].data[q..]))
         == Flatten(ts)[..Offset(ts, idx) + p] + block + Flatten(ts)[Offset(ts, idx) + q..]
  {
    var t := ts[idx].(data := ts[idx].data[..p] + block + ts[idx].data[q..]);
    FlattenOne(t);
    EditInside(ts, idx, p, q, block, [t]);
    UpdateIsSplice(ts, idx, t);
  }

  lemma {:induction false} UpdateIsSplice(ts: seq<Token>, idx: nat, t: Token)
    requires idx < |ts|
    ensures ts[idx := t] == Splice(ts, idx, idx + 1, [t])
  {
  }

  lemma {:induction false} ReplaceToken(ts: seq<Token>, idx: nat, t: Token)
    requires idx < |ts|
    ensures Offset(ts, idx) <= Offset(ts, idx + 1) <= |Flatten(ts)|
    ensures Flatten(ts[idx := t]) == Flatten(ts)[..Offset(ts, idx)] + t.data + Flatten(ts)[Offset(ts, idx + 1)..]
  {
    FlattenSplice(ts, idx, idx + 1, [t]);
    FlattenOne(t);
    UpdateIsSplice(ts, idx, t);
  }

  lemma {:induction false} OverwriteByte(ts: seq<Token>, idx: nat, pos: nat, value: Byte)
    requires idx < |ts| && pos < |ts[idx].data|
    ensures Offset(ts, idx) + pos + 1 <= |Flatten(ts)|
    ensures Flatten(SetData(ts, idx, ts[idx].data[pos := value]))
         == Flatten(ts)[..Offset(ts, idx) + pos] + [value] + Flatten(ts)[Offset(ts, idx) + pos + 1..]
  {
    UpdateByte(ts[idx].data, pos, value);
    EditData(ts, idx, pos, pos + 1, [value]);
  }

  lemma {:induction false} UpdateByte(d: seq<Byte>, pos: nat, value: Byte)
    requires pos < |d|
    ensures d[..pos] + [value] + d[pos + 1..] == d[pos := value]
  {
  }

  lemma {:induction false} CutData(ts: seq<Token>, idx: nat, n: nat)
    requires idx < |ts| && n <= |ts[idx].data|
    ensures Offset(ts, idx) + n <= Offset(ts, idx + 1) <= |Flatten(ts)|
    ensures Flatten(SetData(ts, idx, ts[idx].data[..n]))
         == Flatten(ts)[..Offset(ts, idx) + n] + [] + Flatten(ts)[Offset(ts, idx + 1)..]
  {
    var d := ts[idx].data;
    EditData(ts, idx, n, |d|, []);
    OffsetStep(ts, idx);
    assert d[..n] + [] + d[|d|..] == d[..n];
  }

  /** Every move but the two swaps is one contiguous edit of the bytes; all other bytes stay, in order. */
  lemma {:induction false} MoveIsOneEdit(ts: seq<Token>, m: Move, max: nat)
    requires Enabled(ts, m, max) && !IsSwap(m)
    ensures EditFits(EditOf(ts, m, max), Flatten(ts))
    ensures Flatten(Apply(ts, m, max)) == MakeEdit(EditOf(ts, m, max), Flatten(ts))
  {
    match m
    case Flip(_, _, _) => OverwriteMoveIsOneEdit(ts, m, max);
    case SpecialReplace(_, _, _) => OverwriteMoveIsOneEdit(ts, m, max);
    case SpecialInsert(_, _, _) => SpecialInsertIsOneEdit(ts, m, max);
    case RepeatChar(_, _, _) => RepeatCharIsOneEdit(ts, m, max);
    case Truncate(_, _) => TruncateIsOneEdit(ts, m, max);
    case RandomReplace(_, _) => TokenMoveIsOneEdit(ts, m, max);
    case DictReplace(_, _) => TokenMoveIsOneEdit(ts, m, max);
    case SwapConstants(_, _) => TokenMoveIsOneEdit(ts, m, max);
    case Interesting(_, _) => TokenMoveIsOneEdit(ts, m, max);
    case Copy(_, _, _) => RangeMoveIsOneEdit(ts, m, max);
    case CrossoverInsert(_, _, _, _) => RangeMoveIsOneEdit(ts, m, max);
    case CrossoverReplace(_, _, _, _, _) => RangeMoveIsOneEdit(ts, m, max);
    case Split(_, _, _) => SplitIsOneEdit(ts, m, max);
    case DictInsertPadded(_, _, _, _) => PaddedIsOneEdit(ts, m, max);
    case _ => SpliceMoveIsOneEdit(ts, m, max);
  }

  lemma {:induction false} OverwriteMoveIsOneEdit(ts: seq<Token>, m: Move, max: nat)
    requires Enabled(ts, m, max) && (m.Flip? || m.SpecialReplace?)
    ensures EditFits(EditOf(ts, m, max), Flatten(ts))
    ensures Flatten(Apply(ts, m, max)) == MakeEdit(EditOf(ts, m, max), Flatten(ts))
  {
    var at := Offset(ts, m.idx) + m.pos;
    assert Apply(ts, m, max) == SetData(ts, m.idx, ts[m.idx].data[m.pos := m.value]);
    assert EditOf(ts, m, max) == Edit(at, at + 1, [m.value]);
    OverwriteByte(ts, m.idx, m.pos, m.value);
  }

  lemma {:induction false} SpecialInsertIsOneEdit(ts: seq<Token>, m: Move, max: nat)
    requires Enabled(ts, m, max) && m.SpecialInsert?
    ensures EditFits(EditOf(ts, m, max), Flatten(ts))
    ensures Flatten(Apply(ts, m, max)) == MakeEdit(EditOf(ts, m, max), Flatten(ts))
  {
    EditData(ts, m.idx, m.pos, m.pos, [m.value]);
  }

  lemma {:induction false} RepeatCharIsOneEdit(ts: seq<Token>, m: Move, max: nat)
    requires Enabled(ts, m, max) && m.RepeatChar?
    ensures EditFits(EditOf(ts, m, max), Flatten(ts))
    ensures Flatten(Apply(ts, m, max)) == MakeEdit(EditOf(ts, m, max), Flatten(ts))
  {
    var d := ts[m.idx].data;
    EditData(ts, m.idx, m.pos, m.pos, Repeat(d[m.pos], m.amount - |d|));
  }

  lemma {:induction false} TruncateIsOneEdit(ts: seq<Token>, m: Move, max: nat)
    requires Enabled(ts, m, max) && m.Truncate?
    ensures EditFits(EditOf(ts, m, max), Flatten(ts))
    ensures Flatten(Apply(ts, m, max)) == MakeEdit(EditOf(ts, m, max), Flatten(ts))
  {
    CutData(ts, m.idx, m.newLen);
  }

  lemma {:induction false} TokenMoveIsOneEdit(ts: seq<Token>, m: Move, max: nat)
    requires Enabled(ts, m, max)
    requires m.RandomReplace? || m.DictReplace? || m.SwapConstants? || m.Interesting?
    ensures EditFits(EditOf(ts, m, max), Flatten(ts))
    ensures Flatten(Apply(ts, m, max)) == MakeEdit(EditOf(ts, m, max), Flatten(ts))
  {
    match m
    case RandomReplace(idx, token) => ReplaceToken(ts, idx, token);
    case DictReplace(idx, word) => ReplaceToken(ts, idx, Constant(word));
    case SwapConstants(idx, word) => ReplaceToken(ts, idx, ts[idx].(data := word));
    case Interesting(idx, word) => ReplaceToken(ts, idx, ts[idx].(data := word));
  }

  lemma {:induction false} RangeMoveIsOneEdit(ts: seq<Token>, m: Move, max: nat)
    requires Enabled(ts, m, max) && (m.Copy? || m.CrossoverInsert? || m.CrossoverReplace?)
    ensures EditFits(EditOf(ts, m, max), Flatten(ts))
    ensures Flatten(Apply(ts, m, max)) == MakeEdit(EditOf(ts, m, max), Flatten(ts))
  {
    match m
    case Copy(lo, hi, at) =>
      FlattenSplice(ts, at, at, ts[lo..hi]);
      FlattenSlice(ts, lo, hi);
    case CrossoverInsert(other, lo, hi, at) =>
      FlattenSplice(ts, at, at, other[lo..hi]);
      FlattenSlice(other, lo, hi);
    case CrossoverReplace(other, lo, hi, dstLo, dstHi) =>
      FlattenSplice(ts, dstLo, dstHi, other[lo..hi]);
      FlattenSlice(other, lo, hi);
  }

  lemma {:induction false} SpliceMoveIsOneEdit(ts: seq<Token>, m: Move, max: nat)
    requires Enabled(ts, m, max)
    requires m.RandomInsert? || m.RepeatToken? || m.DictInsert? || m.Delete?
    ensures EditFits(EditOf(ts, m, max), Flatten(ts))
    ensures Flatten(Apply(ts, m, max)) == MakeEdit(EditOf(ts, m, max), Flatten(ts))
  {
    match m
    case RandomInsert(at, token) =>
      FlattenSplice(ts, at, at, [token]);
      FlattenOne(token);
    case RepeatToken(idx, amount) =>
      var n := Copies(ts, idx, amount, max);
      FlattenSplice(ts, idx, idx, Repeat(ts[idx], n));
      FlattenRepeat(ts[idx], n);
    case DictInsert(at, word) =>
      FlattenSplice(ts, at, at, [Constant(word)]);
      FlattenOne(Constant(word));
    case Delete(lo, hi) =>
      FlattenSplice(ts, lo, hi, []);
  }

  lemma {:induction false} PaddedIsOneEdit(ts: seq<Token>, m: Move, max: nat)
    requires Enabled(ts, m, max) && m.DictInsertPadded?
    ensures EditFits(EditOf(ts, m, max), Flatten(ts))
    ensures Flatten(Apply(ts, m, max)) == MakeEdit(EditOf(ts, m, max), Flatten(ts))
  {
    FlattenSplice(ts, m.at, m.at, [m.before, Constant(m.word), m.after]);
    FlattenThree(m.before, Constant(m.word), m.after);
  }

  lemma {:induction false} InsertInside(ts: seq<Token>, idx: nat, pos: nat, token: Token)
    requires idx < |ts| && pos <= |ts[idx].data|
    ensures Offset(ts, idx) + pos <= |Flatten(ts)|
    ensures var t, at := ts[idx], Offset(ts, idx) + pos;
            Flatten(Splice(ts, idx, idx + 1, [t.(data := t.data[..pos]), token, t.(data := t.data[pos..])])) ==
            Flatten(ts)[..at] + token.data + Flatten(ts)[at..]
  {
    var a, b := ts[idx].(data := ts[idx].data[..pos]), ts[idx].(data := ts[idx].data[pos..]);
    FlattenThree(a, token, b);
    EditInside(ts, idx, pos, pos, token.data, [a, token, b]);
  }

  lemma {:induction false} SplitIsOneEdit(ts: seq<Token>, m: Move, max: nat)
    requires Enabled(ts, m, max) && m.Split?
    ensures EditFits(EditOf(ts, m, max), Flatten(ts))
    ensures Flatten(Apply(ts, m, max)) == MakeEdit(EditOf(ts, m, max), Flatten(ts))
  {
    InsertInside(ts, m.idx, m.pos, m.token);
  }

  /** The position in the token list at which word number k begins. */
  function WordStart(ts: seq<Token>, k: nat): nat
    requires k < |WordsOf(ts)|
  {
    SplitCounts(ts);
    |Lead(WordsOf(ts), SpacesOf(ts), 0, k)|
  }

  lemma {:induction false} SwapTokensPieces(ts: seq<Token>, i: nat, j: nat)
      returns (pre: seq<Token>, mid: seq<Token>, post: seq<Token>)
    requires i < j < |ts|
    ensures ts == pre + [ts[i]] + mid + [ts[j]] + post
    ensures Exchange(ts, i, j) == pre + [ts[j]] + mid + [ts[i]] + post
    ensures |pre| == i && |pre + [ts[i]] + mid| == j
  {
    pre, mid, post := ts[..i], ts[i + 1..j], ts[j + 1..];
  }

  /** The two swaps exchange two stretches of tokens: two tokens, or two words. */
  lemma {:induction false} SwapPieces(ts: seq<Token>, m: Move, max: nat)
      returns (a: seq<Token>, u: seq<Token>, b: seq<Token>, v: seq<Token>, c: seq<Token>)
    requires Enabled(ts, m, max) && IsSwap(m)
    ensures ts == a + u + b + v + c
    ensures Apply(ts, m, max) == a + v + b + u + c
    ensures var i, j := Min(m.from, m.to), Max(m.from, m.to);
            if m.SwapTokens? then
              && u == [ts[i]] && |a| == i
              && v == [ts[j]] && |a + u + b| == j
            else
              && u == WordsOf(ts)[i] && |a| == WordStart(ts, i)
              && v == WordsOf(ts)[j] && |a + u + b| == WordStart(ts, j)
  {
    var i, j := Min(m.from, m.to), Max(m.from, m.to);
    if m.SwapTokens? {
      a, b, c := SwapTokensPieces(ts, i, j);
      u, v := [ts[i]], [ts[j]];
      assert Exchange(ts, i, j) == Exchange(ts, m.from, m.to);
    } else {
      a, b, c := SwapWordsPieces(ts, i, j);
      u, v := WordsOf(ts)[i], WordsOf(ts)[j];
      assert Exchange(WordsOf(ts), i, j) == Exchange(WordsOf(ts), m.from, m.to);
    }
  }

  /** The two swaps exchange two disjoint blocks of the bytes, at the places of the two tokens or words, and leave
      all others in place. */
  lemma {:induction false} SwapIsBlockExchange(ts: seq<Token>, m: Move, max: nat)
      returns (pre: seq<Byte>, x: seq<Byte>, mid: seq<Byte>, y: seq<Byte>, post: seq<Byte>)
    requires Enabled(ts, m, max) && IsSwap(m)
    ensures Flatten(ts) == pre + x + mid + y + post
    ensures Flatten(Apply(ts, m, max)) == pre + y + mid + x + post
    ensures var i, j := Min(m.from, m.to), Max(m.from, m.to);
            if m.SwapTokens? then
              && x == ts[i].data && |pre| == Offset(ts, i)
              && y == ts[j].data && |pre + x + mid| == Offset(ts, j)
            else
              && WordStart(ts, i) <= WordStart(ts, j) <= |ts|
              && x == Flatten(WordsOf(ts)[i]) && |pre| == Offset(ts, WordStart(ts, i))
              && y == Flatten(WordsOf(ts)[j]) && |pre + x + mid| == Offset(ts, WordStart(ts, j))
  {
    var a, u, b, v, c := SwapPieces(ts, m, max);
    FlattenFive(a, u, b, v, c);
    FlattenFive(a, v, b, u, c);
    PlacesOf(ts, a, u, b, v, c);
    if m.SwapTokens? {
      FlattenOne(u[0]);
      FlattenOne(v[0]);
    }
    pre, x, mid, y, post := Flatten(a), Flatten(u), Flatten(b), Flatten(v), Flatten(c);
  }

  lemma {:induction false} PlacesOf(ts: seq<Token>, a: seq<Token>, u: seq<Token>, b: seq<Token>, v: seq<Token>,
                                    c: seq<Token>)
    requires ts == a + u + b + v + c
    ensures Offset(ts, |a|) == |Flatten(a)|
    ensures Offset(ts, |a + u + b|) == |Flatten(a) + Flatten(u) + Flatten(b)|
  {
    assert ts[..|a|] == a && ts[..|a + u + b|] == a + u + b;
    FlattenConcat(a + u, b);
    FlattenConcat(a, u);
  }

  lemma {:induction false} FlattenFive(a: seq<Token>, b: seq<Token>, c: seq<Token>, d: seq<Token>, e: seq<Token>)
    ensures Flatten(a + b + c + d + e) == Flatten(a) + Flatten(b) + Flatten(c) + Flatten(d) + Flatten(e)
  {
    FlattenConcat(a + b + c + d, e);
    FlattenConcat(a + b + c, d);
    FlattenConcat(a + b, c);
    FlattenConcat(a, b);
  }
}
