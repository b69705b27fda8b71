/** `mutate_swap_words`: collect the words as index ranges, then three splices with wrapping index arithmetic. */
module WordSwap {
  import opened Tokens
  import opened Random
  import opened Words
  import opened Moves
  import opened Draws

  /** The number of values of the source's index type. */
  const USIZE_VALUES: nat := 0x1_0000_0000_0000_0000

  datatype Range = Range(start: nat, end: nat)

  /** The difference of two lengths, wrapping around below zero. */
  function RangeDist(a: Range, b: Range): nat
    requires a.start <= a.end && b.start <= b.end
  {
    ((a.end - a.start) - (b.end - b.start)) % USIZE_VALUES
  }

  /** Although the difference may wrap, the index computed from it is the true one. */
  lemma {:induction false} WrappingIndexIsExact(a: Range, b: Range)
    requires b.start <= b.end <= a.start <= a.end < USIZE_VALUES
    ensures (a.start + RangeDist(a, b)) % USIZE_VALUES == a.end - (b.end - b.start)
  {
    var d := (a.end - a.start) - (b.end - b.start);
    if d >= 0 {
      assert RangeDist(a, b) == d;
    } else {
      assert RangeDist(a, b) == d + USIZE_VALUES;
    }
  }

  /** The ranges are where the words of the list stand. */
  predicate RangesOf(ts: seq<Token>, words: seq<Range>) {
    SplitCounts(ts);
    && |words| == |WordsOf(ts)|
    && forall k | 0 <= k < |words| :: RangeAt(WordsOf(ts), SpacesOf(ts), words[k], k)
  }

  predicate RangeAt(ws: seq<Word>, ss: seq<Token>, r: Range, k: nat)
    requires k < |ws| && k <= |ss|
  {
    r.start == |Lead(ws, ss, 0, k)| && r.end == r.start + |ws[k]|
  }

  /** The state of the collecting loop after i tokens: complete words ws with their whitespace ss, and a word
      under way since `start`. */
  ghost predicate Collecting(ts: seq<Token>, i: nat, start: nat, words: seq<Range>, ws: seq<Word>, ss: seq<Token>) {
    && start <= i <= |ts|
    && |words| == |ws| == |ss|
    && ts[..start] == Lead(ws, ss, 0, |ss|)
    && (forall k | 0 <= k < |words| :: RangeAt(ws, ss, words[k], k))
    && (forall w | w in ws :: IsWord(w))
    && (forall t | t in ss :: t.Whitespace?)
    && IsWord(ts[start..i])
  }

  lemma {:induction false} RangesStay(words: seq<Range>, ws: seq<Word>, ss: seq<Token>,
                                      ws': seq<Word>, ss': seq<Token>)
    requires |words| == |ws| == |ss| && ws <= ws' && ss <= ss'
    requires forall k | 0 <= k < |words| :: RangeAt(ws, ss, words[k], k)
    ensures forall k | 0 <= k < |words| :: RangeAt(ws', ss', words[k], k)
    ensures Lead(ws', ss', 0, |ss|) == Lead(ws, ss, 0, |ss|)
  {
    forall k | 0 <= k <= |ss|
      ensures Lead(ws, ss, 0, k) == Lead(ws', ss', 0, k)
    {
      LeadLocal(ws, ss, ws', ss', 0, k);
    }
  }

  lemma {:induction false} CollectSpace(ts: seq<Token>, i: nat, start: nat, words: seq<Range>,
                                        ws: seq<Word>, ss: seq<Token>)
    requires i < |ts| && ts[i].Whitespace? && Collecting(ts, i, start, words, ws, ss)
    ensures Collecting(ts, i + 1, i + 1, words + [Range(start, i)], ws + [ts[start..i]], ss + [ts[i]])
  {
    var ws', ss' := ws + [ts[start..i]], ss + [ts[i]];
    RangesStay(words, ws, ss, ws', ss');
    assert Lead(ws', ss', 0, |ss'|) == Lead(ws', ss', 0, |ss|) + ts[start..i] + [ts[i]];
    assert ts[..i + 1] == ts[..start] + ts[start..i] + [ts[i]];
  }

  lemma {:induction false} CollectLast(ts: seq<Token>, start: nat, words: seq<Range>, ws: seq<Word>, ss: seq<Token>)
    requires Collecting(ts, |ts|, start, words, ws, ss)
    ensures RangesOf(ts, words + [Range(start, |ts|)])
  {
    var ws' := ws + [ts[start..]];
    RangesStay(words, ws, ss, ws', ss);
    WeaveAround(ws', ss, |ss|);
    assert ts[start..|ts|] == ts[start..];
    assert ts == ts[..start] + ts[start..];
    assert Weave(ws', ss) == ts;
    WeaveSplitsBack(ws', ss);
  }

  method CollectWords(ts: seq<Token>) returns (words: seq<Range>)
    ensures RangesOf(ts, words)
  {
    words := [];
    var start := 0;
    ghost var ws: seq<Word>, ss: seq<Token> := [], [];
    for i := 0 to |ts|
      invariant Collecting(ts, i, start, words, ws, ss)
    {
      if ts[i].Whitespace? {
        CollectSpace(ts, i, start, words, ws, ss);
        words := words + [Range(start, i)];
        ws, ss := ws + [ts[start..i]], ss + [ts[i]];
        start := i + 1;
      }
    }
    CollectLast(ts, start, words, ws, ss);
    words := words + [Range(start, |ts|)];
  }

  /** Take the later range out, put it in the place of the earlier one, and put that behind what has been
      between them. */
  function ThreeSplices(ts: seq<Token>, a: Range, b: Range): seq<Token>
    requires a.start <= a.end <= b.start <= b.end <= |ts|
  {
    var t1 := ts[..b.start] + [] + ts[b.end..];
    var t2 := t1[..a.start] + ts[b.start..b.end] + t1[a.end..];
    var idx := b.end - (a.end - a.start);
    t2[..idx] + t1[a.start..a.end] + t2[idx..]
  }

  lemma {:induction false} ReplaceMiddle(a: seq<Token>, b: seq<Token>, c: seq<Token>, d: seq<Token>)
    ensures var s := a + b + c; s[|a|..|a| + |b|] == b && s[..|a|] + d + s[|a| + |b|..] == a + d + c
  {
    var s := a + b + c;
    assert s[..|a|] == a && s[|a| + |b|..] == c;
  }

  lemma {:induction false} FirstSplice(pre: seq<Token>, x: seq<Token>, mid: seq<Token>, y: seq<Token>,
                                       post: seq<Token>)
    ensures var s, k := pre + x + mid + y + post, |pre| + |x| + |mid|;
            s[k..k + |y|] == y && s[..k] + [] + s[k + |y|..] == pre + x + mid + post
  {
    ReplaceMiddle(pre + x + mid, y, post, []);
  }

  lemma {:induction false} SecondSplice(pre: seq<Token>, x: seq<Token>, mid: seq<Token>, y: seq<Token>,
                                        post: seq<Token>)
    ensures var s := pre + x + mid + post;
            && s[|pre|..|pre| + |x|] == x
            && s[..|pre|] + y + s[|pre| + |x|..] == pre + y + mid + post
  {
    assert pre + x + mid + post == pre + x + (mid + post);
    ReplaceMiddle(pre, x, mid + post, y);
  }

  lemma {:induction false} ThirdSplice(pre: seq<Token>, x: seq<Token>, mid: seq<Token>, y: seq<Token>,
                                       post: seq<Token>)
    ensures var s, k := pre + y + mid + post, |pre| + |y| + |mid|;
            s[..k] + x + s[k..] == pre + y + mid + x + post
  {
    assert pre + y + mid + post == (pre + y + mid) + [] + post;
    ReplaceMiddle(pre + y + mid, [], post, x);
  }

  lemma {:induction false} SplicesExchange(ts: seq<Token>, pre: seq<Token>, x: seq<Token>, mid: seq<Token>,
                                           y: seq<Token>, post: seq<Token>,
                                           a: Range, b: Range)
    requires ts == pre + x + mid + y + post
    requires a == Range(|pre|, |pre| + |x|) && b == Range(a.end + |mid|, a.end + |mid| + |y|)
    ensures a.start <= a.end <= b.start <= b.end <= |ts|
    ensures ThreeSplices(ts, a, b) == pre + y + mid + x + post
  {
    var t1 := ts[..b.start] + [] + ts[b.end..];
    FirstSplice(pre, x, mid, y, post);
    assert t1 == pre + x + mid + post;
    var t2 := t1[..a.start] + y + t1[a.end..];
    SecondSplice(pre, x, mid, y, post);
    assert t2 == pre + y + mid + post;
    ThirdSplice(pre, x, mid, y, post);
  }

  /** Where the three splices cut, in terms of the five pieces. */
  lemma {:induction false} PiecesAt(ts: seq<Token>, words: seq<Range>, from: nat, to: nat)
      returns (pre: seq<Token>, mid: seq<Token>, post: seq<Token>)
    requires RangesOf(ts, words) && from < to < |words|
    ensures var x, y := WordsOf(ts)[from], WordsOf(ts)[to];
            && ts == pre + x + mid + y + post
            && WordsSwapped(ts, from, to) == pre + y + mid + x + post
            && words[from] == Range(|pre|, |pre| + |x|)
            && words[to] == Range(|pre| + |x| + |mid|, |pre| + |x| + |mid| + |y|)
  {
    pre, mid, post := SwapWordsPieces(ts, from, to);
    assert RangeAt(WordsOf(ts), SpacesOf(ts), words[from], from);
    assert RangeAt(WordsOf(ts), SpacesOf(ts), words[to], to);
  }

  lemma {:induction false} SplicesSwapWords(ts: seq<Token>, words: seq<Range>, from: nat, to: nat)
    requires RangesOf(ts, words) && from < to < |words|
    ensures words[from].start <= words[from].end <= words[to].start <= words[to].end <= |ts|
    ensures ThreeSplices(ts, words[from], words[to]) == WordsSwapped(ts, from, to)
  {
    var pre, mid, post := PiecesAt(ts, words, from, to);
    SplicesExchange(ts, pre, WordsOf(ts)[from], mid, WordsOf(ts)[to], post, words[from], words[to]);
  }

  /** The three splices, for from < to. */
  method ExchangeRanges(stream: TokenStream, words: seq<Range>, from: nat, to: nat)
    requires RangesOf(stream.tokens, words) && from < to < |words|
    requires |stream.tokens| < USIZE_VALUES
    modifies stream
    ensures stream.tokens == WordsSwapped(old(stream.tokens), from, to)
  {
    SplicesSwapWords(stream.tokens, words, from, to);
    SpliceRanges(stream, words[from], words[to]);
  }

  method SpliceRanges(stream: TokenStream, a: Range, b: Range)
    requires a.start <= a.end <= b.start <= b.end <= |stream.tokens| < USIZE_VALUES
    modifies stream
    ensures stream.tokens == ThreeSplices(old(stream.tokens), a, b)
  {
    WrappingIndexIsExact(b, a);
    var toSlice := stream.tokens[b.start..b.end];
    stream.tokens := stream.tokens[..b.start] + [] + stream.tokens[b.end..];
    var fromSlice := stream.tokens[a.start..a.end];
    stream.tokens := stream.tokens[..a.start] + toSlice + stream.tokens[a.end..];
    var delta := RangeDist(b, a);
    var idx := (b.start + delta) % USIZE_VALUES;
    stream.tokens := stream.tokens[..idx] + fromSlice + stream.tokens[idx..];
  }

  lemma {:induction false} SwapIsSymmetric(ts: seq<Token>, i: nat, j: nat)
    requires i < |WordsOf(ts)| && j < |WordsOf(ts)|
    ensures WordsSwapped(ts, i, j) == WordsSwapped(ts, j, i)
  {
    assert Exchange(WordsOf(ts), i, j) == Exchange(WordsOf(ts), j, i);
  }

  method MutateSwapWords(rand: Rand, stream: TokenStream) returns (mutated: bool, ghost move: Move)
    requires |stream.tokens| < USIZE_VALUES
    modifies rand, stream
    ensures move.SwapWords? && Outcome(old(stream.tokens), stream.tokens, mutated, move, 0)
    ensures mutated <==> |old(stream.tokens)| >= 3 && move.from != move.to
    ensures DecidesSwapWords(rand.source, old(rand.pos), old(stream.tokens), Made(mutated, move), rand.pos)
    ensures !mutated ==> stream.tokens == old(stream.tokens)
  {
    move := SwapWords(0, 0);
    if |stream.tokens| < 3 {
      return false, move;
    }
    var words := CollectWords(stream.tokens);
    var from := rand.Between(0, |words| - 1);
    var to := rand.Between(0, |words| - 1);
    move := SwapWords(from, to);
    if from == to {
      return false, move;
    }
    SwapIsSymmetric(stream.tokens, from, to);
    if from > to {
      from, to := to, from;
    }
    ExchangeRanges(stream, words, from, to);
    mutated := true;
  }
}
