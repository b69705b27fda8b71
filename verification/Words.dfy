/** A token list as words separated by whitespace tokens, and the exchange of two words. */
module Words {
  import opened Bytes
  import opened Tokens

  type Word = seq<Token>

  predicate IsWord(w: Word) { forall t | t in w :: !t.Whitespace? }

  predicate WellSplit(words: seq<Word>, spaces: seq<Token>) {
    && |words| == |spaces| + 1
    && (forall w | w in words :: IsWord(w))
    && (forall t | t in spaces :: t.Whitespace?)
  }

  /** The maximal runs of tokens without whitespace, empty ones included. */
  function WordsOf(ts: seq<Token>): (ws: seq<Word>)
    ensures |ws| >= 1
  {
    if ts == [] then [[]]
    else
      var ws := WordsOf(ts[1..]);
      if ts[0].Whitespace? then [[]] + ws else [[ts[0]] + ws[0]] + ws[1..]
  }

  function SpacesOf(ts: seq<Token>): seq<Token> {
    if ts == [] then []
    else if ts[0].Whitespace? then [ts[0]] + SpacesOf(ts[1..])
    else SpacesOf(ts[1..])
  }

  /** words[0] spaces[0] words[1] spaces[1] ... words[last] */
  function Weave(words: seq<Word>, spaces: seq<Token>): seq<Token>
    requires |words| == |spaces| + 1
  {
    if spaces == [] then words[0] else words[0] + [spaces[0]] + Weave(words[1..], spaces[1..])
  }

  function Exchange<T>(s: seq<T>, i: nat, j: nat): (r: seq<T>)
    requires i < |s| && j < |s|
    ensures |r| == |s|
    ensures r[i] == s[j] && r[j] == s[i]
    ensures forall k | 0 <= k < |s| && k != i && k != j :: r[k] == s[k]
  {
    s[i := s[j]][j := s[i]]
  }

  /** The old words with two entries exchanged, between the old whitespace. */
  function WordsSwapped(ts: seq<Token>, i: nat, j: nat): seq<Token>
    requires i < |WordsOf(ts)| && j < |WordsOf(ts)|
  {
    SplitCounts(ts);
    Weave(Exchange(WordsOf(ts), i, j), SpacesOf(ts))
  }

  lemma {:induction false} SplitCounts(ts: seq<Token>)
    ensures |WordsOf(ts)| == |SpacesOf(ts)| + 1 <= |ts| + 1
  {
    if ts != [] {
      SplitCounts(ts[1..]);
    }
  }

  lemma {:induction false} SplitIsWellSplit(ts: seq<Token>)
    ensures WellSplit(WordsOf(ts), SpacesOf(ts))
    ensures Weave(WordsOf(ts), SpacesOf(ts)) == ts
  {
    if ts != [] {
      SplitIsWellSplit(ts[1..]);
      var ws, ss := WordsOf(ts[1..]), SpacesOf(ts[1..]);
      if ts[0].Whitespace? {
        assert WordsOf(ts)[1..] == ws && SpacesOf(ts)[1..] == ss;
      } else {
        assert WordsOf(ts)[1..] == ws[1..] && SpacesOf(ts) == ss;
        assert ws[0] in ws && IsWord([ts[0]] + ws[0]);
        if ss != [] {
          assert [ts[0]] + ws[0] + [ss[0]] + Weave(ws[1..], ss[1..])
              == [ts[0]] + (ws[0] + [ss[0]] + Weave(ws[1..], ss[1..]));
        }
      }
    }
  }

  lemma {:induction false} PushWord(w: Word, rest: seq<Token>)
    requires IsWord(w)
    ensures var ws := WordsOf(rest); WordsOf(w + rest) == [w + ws[0]] + ws[1..]
    ensures SpacesOf(w + rest) == SpacesOf(rest)
  {
    if w == [] {
      assert w + rest == rest;
      assert w + WordsOf(rest)[0] == WordsOf(rest)[0];
    } else {
      PushWord(w[1..], rest);
      assert (w + rest)[1..] == w[1..] + rest;
      assert [w[0]] + (w[1..] + WordsOf(rest)[0]) == w + WordsOf(rest)[0];
    }
  }

  /** The decomposition into words and whitespace is unique. */
  lemma {:induction false} WeaveSplitsBack(words: seq<Word>, spaces: seq<Token>)
    requires WellSplit(words, spaces)
    ensures WordsOf(Weave(words, spaces)) == words
    ensures SpacesOf(Weave(words, spaces)) == spaces
  {
    var w := words[0];
    assert w in words;
    if spaces == [] {
      PushWord(w, []);
      assert w + [] == w;
    } else {
      var rest := Weave(words[1..], spaces[1..]);
      WeaveSplitsBack(words[1..], spaces[1..]);
      assert spaces[0] in spaces;
      assert ([spaces[0]] + rest)[1..] == rest;
      PushWord(w, [spaces[0]] + rest);
      assert WordsOf([spaces[0]] + rest) == [[]] + words[1..];
      assert w + [] == w && [w] + words[1..] == words;
      assert w + [spaces[0]] + rest == w + ([spaces[0]] + rest);
    }
  }

  /** Exchanging words i and j keeps the whitespace, exchanges exactly these two entries of the word list,
      and undoes itself. */
  lemma {:induction false} SwapWordsLaw(ts: seq<Token>, i: nat, j: nat)
    requires i < |WordsOf(ts)| && j < |WordsOf(ts)|
    ensures WordsOf(WordsSwapped(ts, i, j)) == Exchange(WordsOf(ts), i, j)
    ensures SpacesOf(WordsSwapped(ts, i, j)) == SpacesOf(ts)
    ensures WordsSwapped(WordsSwapped(ts, i, j), i, j) == ts
  {
    SplitIsWellSplit(ts);
    var ws, ss := WordsOf(ts), SpacesOf(ts);
    var xs := Exchange(ws, i, j);
    assert forall w | w in xs :: w in ws;
    WeaveSplitsBack(xs, ss);
    assert Exchange(xs, i, j) == ws;
  }

  // ---------- The five pieces around two words ----------

  /** The words and spaces numbered lo up to hi, each word followed by its space. */
  function Lead(words: seq<Word>, spaces: seq<Token>, lo: nat, hi: nat): seq<Token>
    requires lo <= hi <= |spaces| && hi <= |words|
    decreases hi
  {
    if lo == hi then [] else Lead(words, spaces, lo, hi - 1) + words[hi - 1] + [spaces[hi - 1]]
  }

  /** What follows word number k. */
  function Trail(words: seq<Word>, spaces: seq<Token>, k: nat): seq<Token>
    requires |words| == |spaces| + 1 && k < |words|
    decreases |words| - k
  {
    if k == |spaces| then [] else [spaces[k]] + words[k + 1] + Trail(words, spaces, k + 1)
  }

  lemma {:induction false} WeaveFromFront(words: seq<Word>, spaces: seq<Token>)
    requires |words| == |spaces| + 1
    ensures Weave(words, spaces) == words[0] + Trail(words, spaces, 0)
  {
    if spaces != [] {
      WeaveFromFront(words[1..], spaces[1..]);
      TrailShift(words, spaces, 0);
    }
  }

  lemma {:induction false} TrailShift(words: seq<Word>, spaces: seq<Token>, k: nat)
    requires |words| == |spaces| + 1 && k < |spaces|
    ensures Trail(words, spaces, k + 1) == Trail(words[1..], spaces[1..], k)
    decreases |spaces| - k
  {
    if k + 1 < |spaces| {
      TrailShift(words, spaces, k + 1);
    }
  }

  lemma {:induction false} WeaveAround(words: seq<Word>, spaces: seq<Token>, k: nat)
    requires |words| == |spaces| + 1 && k < |words|
    ensures Weave(words, spaces) == Lead(words, spaces, 0, k) + words[k] + Trail(words, spaces, k)
  {
    if k == 0 {
      WeaveFromFront(words, spaces);
    } else {
      WeaveAround(words, spaces, k - 1);
    }
  }

  lemma {:induction false} LeadAround(words: seq<Word>, spaces: seq<Token>, lo: nat, k: nat, hi: nat)
    requires lo <= k < hi <= |spaces| && hi <= |words|
    ensures Lead(words, spaces, lo, hi)
         == Lead(words, spaces, lo, k) + words[k] + [spaces[k]] + Lead(words, spaces, k + 1, hi)
    decreases hi
  {
    if k + 1 < hi {
      LeadAround(words, spaces, lo, k, hi - 1);
    }
  }

  lemma {:induction false} LeadLocal(a: seq<Word>, sa: seq<Token>, b: seq<Word>, sb: seq<Token>, lo: nat, hi: nat)
    requires lo <= hi <= |sa| && hi <= |sb| && hi <= |a| && hi <= |b|
    requires forall k | lo <= k < hi :: a[k] == b[k] && sa[k] == sb[k]
    ensures Lead(a, sa, lo, hi) == Lead(b, sb, lo, hi)
    decreases hi
  {
    if lo < hi {
      LeadLocal(a, sa, b, sb, lo, hi - 1);
    }
  }

  lemma {:induction false} TrailLocal(a: seq<Word>, b: seq<Word>, spaces: seq<Token>, k: nat)
    requires |a| == |b| == |spaces| + 1 && k < |a|
    requires forall m | k < m < |a| :: a[m] == b[m]
    ensures Trail(a, spaces, k) == Trail(b, spaces, k)
    decreases |a| - k
  {
    if k < |spaces| {
      TrailLocal(a, b, spaces, k + 1);
    }
  }

  /** With i < j, the list is pre + word i + mid + word j + post, and the exchange only moves the two words. */
  lemma {:induction false} SwapWordsPieces(ts: seq<Token>, i: nat, j: nat)
      returns (pre: seq<Token>, mid: seq<Token>, post: seq<Token>)
    requires i < j < |WordsOf(ts)|
    ensures var ws := WordsOf(ts);
            && ts == pre + ws[i] + mid + ws[j] + post
            && WordsSwapped(ts, i, j) == pre + ws[j] + mid + ws[i] + post
            && |SpacesOf(ts)| == |ws| - 1
            && pre == Lead(ws, SpacesOf(ts), 0, i)
            && pre + ws[i] + mid == Lead(ws, SpacesOf(ts), 0, j)
  {
    SplitIsWellSplit(ts);
    var ws, ss := WordsOf(ts), SpacesOf(ts);
    var xs := Exchange(ws, i, j);
    pre := Lead(ws, ss, 0, i);
    mid := [ss[i]] + Lead(ws, ss, i + 1, j);
    post := Trail(ws, ss, j);
    WeavePieces(ws, ss, i, j);
    WeavePieces(xs, ss, i, j);
    LeadLocal(ws, ss, xs, ss, 0, i);
    LeadLocal(ws, ss, xs, ss, i + 1, j);
    TrailLocal(ws, xs, ss, j);
  }

  lemma {:induction false} WeavePieces(words: seq<Word>, spaces: seq<Token>, i: nat, j: nat)
    requires i < j < |words| == |spaces| + 1
    ensures var pre, mid := Lead(words, spaces, 0, i), [spaces[i]] + Lead(words, spaces, i + 1, j);
            && Weave(words, spaces) == pre + words[i] + mid + words[j] + Trail(words, spaces, j)
            && Lead(words, spaces, 0, j) == pre + words[i] + mid
  {
    WeaveAround(words, spaces, j);
    LeadAround(words, spaces, 0, i, j);
    Associative(Lead(words, spaces, 0, i) + words[i], [spaces[i]], Lead(words, spaces, i + 1, j));
  }

  /** No token is lost, made or duplicated. */
  lemma {:induction false} SwapWordsConserves(ts: seq<Token>, i: nat, j: nat)
    requires i < |WordsOf(ts)| && j < |WordsOf(ts)|
    ensures multiset(WordsSwapped(ts, i, j)) == multiset(ts)
    ensures |WordsSwapped(ts, i, j)| == |ts|
  {
    if i == j {
      SplitIsWellSplit(ts);
      assert Exchange(WordsOf(ts), i, j) == WordsOf(ts);
    } else {
      var lo, hi := Min(i, j), Max(i, j);
      assert Exchange(WordsOf(ts), i, j) == Exchange(WordsOf(ts), lo, hi);
      var pre, mid, post := SwapWordsPieces(ts, lo, hi);
      PiecesConserved(pre, WordsOf(ts)[lo], mid, WordsOf(ts)[hi], post);
    }
  }

  lemma {:induction false} PiecesConserved(pre: seq<Token>, x: seq<Token>, mid: seq<Token>, y: seq<Token>,
                                           post: seq<Token>)
    ensures multiset(pre + y + mid + x + post) == multiset(pre + x + mid + y + post)
    ensures |pre + y + mid + x + post| == |pre + x + mid + y + post|
  {
  }
}
