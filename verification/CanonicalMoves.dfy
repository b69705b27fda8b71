/** Exactly when a mutator keeps a token list canonical, so that the packet is read back as it was printed. */
module CanonicalMoves {
  import opened Bytes
  import opened Tokens
  import opened Random
  import opened Words
  import opened Moves
  import opened Runs
  import Scanner

  /** The tokens that meet where a ends and b begins are separated. */
  predicate Border(a: seq<Token>, b: seq<Token>) {
    a != [] && b != [] ==> Separates(a[|a| - 1], b[0])
  }

  /** Token t, in the place of token idx, is separated from both neighbours. */
  predicate JointsAround(ts: seq<Token>, idx: nat, t: Token)
    requires idx < |ts|
  {
    && (idx > 0 ==> Separates(ts[idx - 1], t))
    && (idx + 1 < |ts| ==> Separates(t, ts[idx + 1]))
  }

  /** A list from token `first` to token `last`, in front of token at, is separated from both neighbours. */
  predicate JointsBetween(ts: seq<Token>, at: nat, first: Token, last: Token)
    requires at <= |ts|
  {
    && (at > 0 ==> Separates(ts[at - 1], first))
    && (at < |ts| ==> Separates(last, ts[at]))
  }

  /** The tokens in front of and at position k are separated. */
  predicate JointAt(ts: seq<Token>, k: nat) {
    0 < k < |ts| ==> Separates(ts[k - 1], ts[k])
  }

  /** The token that a move on the data of one token leaves behind. */
  function NewToken(ts: seq<Token>, m: Move, max: nat): Token
    requires Enabled(ts, m, max)
    requires m.Flip? || m.Interesting? || m.SpecialInsert? || m.SpecialReplace? || m.Truncate?
  {
    var t := ts[m.idx];
    match m
    case Flip(_, pos, value) => t.(data := t.data[pos := value])
    case Interesting(_, word) => t.(data := word)
    case SpecialInsert(_, pos, value) => t.(data := t.data[..pos] + [value] + t.data[pos..])
    case SpecialReplace(_, pos, value) => t.(data := t.data[pos := value])
    case Truncate(_, newLen) => t.(data := t.data[..newLen])
  }

  /** The condition, on the list and the choices of the move, under which a canonical list stays canonical. */
  ghost predicate KeepsCanonical(ts: seq<Token>, m: Move, max: nat)
    requires Enabled(ts, m, max)
  {
    match m
    case Copy(lo, hi, at) => JointsBetween(ts, at, ts[lo], ts[hi - 1])
    case CrossoverInsert(other, lo, hi, at) =>
      Canonical(other[lo..hi]) && JointsBetween(ts, at, other[lo], other[hi - 1])
    case CrossoverReplace(other, lo, hi, dstLo, dstHi) =>
      && Canonical(other[lo..hi])
      && (dstLo > 0 ==> Separates(ts[dstLo - 1], other[lo]))
      && (dstHi < |ts| ==> Separates(other[hi - 1], ts[dstHi]))
    case Delete(lo, hi) => lo == 0 || hi == |ts| || Separates(ts[lo - 1], ts[hi])
    case Flip(idx, _, _) => JointsAround(ts, idx, NewToken(ts, m, max))
    case Interesting(idx, _) => JointsAround(ts, idx, NewToken(ts, m, max))
    case RandomInsert(at, token) => JointsBetween(ts, at, token, token)
    case RandomReplace(idx, token) => JointsAround(ts, idx, token)
    // a sign may stand only in front of a text token
    case RepeatChar(idx, pos, _) => !(ts[idx].Text? && IsSign(ts[idx].data[pos]))
    case SpecialInsert(idx, pos, value) =>
      && (if pos == 0 then ts[idx].data == [] || !IsSign(ts[idx].data[0]) else !IsSign(value))
      && JointsAround(ts, idx, NewToken(ts, m, max))
    case SpecialReplace(idx, pos, value) =>
      (pos == 0 || !IsSign(value)) && JointsAround(ts, idx, NewToken(ts, m, max))
    case Truncate(idx, _) => JointsAround(ts, idx, NewToken(ts, m, max))
    case RepeatToken(idx, _) => Separates(ts[idx], ts[idx])
    case Split(idx, pos, token) =>
      var t := ts[idx];
      Separates(t.(data := t.data[..pos]), token) && Separates(token, t.(data := t.data[pos..]))
    case SwapTokens(from, to) =>
      var us := Exchange(ts, from, to);
      JointAt(us, from) && JointAt(us, from + 1) && JointAt(us, to) && JointAt(us, to + 1)
    // an empty word may stand only at either end
    case SwapWords(from, to) =>
      var last := |WordsOf(ts)| - 1;
      && (WordsOf(ts)[from] == [] ==> to == 0 || to == last)
      && (WordsOf(ts)[to] == [] ==> from == 0 || from == last)
    // the dictionary mutators leave a constant, which no parse produces
    case DictInsert(_, _) => false
    case DictInsertPadded(_, _, _, _) => false
    case DictReplace(_, _) => false
    case SwapConstants(_, _) => false
  }

  // ---------- Splices ----------

  lemma {:induction false} ConcatCanonicalIff(a: seq<Token>, b: seq<Token>)
    ensures Canonical(a + b) <==> Canonical(a) && Canonical(b) && Border(a, b)
  {
    if Canonical(a + b) {
      PartsCanonical(a, b);
    }
    if a == [] {
      assert a + b == b;
    } else if b == [] {
      assert a + b == a;
    } else if Canonical(a) && Canonical(b) {
      Scanner.CanonicalConcat(a, b);
    }
  }

  lemma {:induction false} PartsCanonical(a: seq<Token>, b: seq<Token>)
    requires Canonical(a + b)
    ensures Canonical(a) && Canonical(b)
  {
    var ts := a + b;
    assert forall t | t in a :: t in ts;
    assert forall t | t in b :: t in ts;
    forall i, j | 0 <= i && j == i + 1 && j < |a|
      ensures Separates(a[i], a[j])
    {
      assert Separates(ts[i], ts[j]);
    }
    forall i, j | 0 <= i && j == i + 1 && j < |b|
      ensures Separates(b[i], b[j])
    {
      assert Separates(ts[|a| + i], ts[|a| + j]);
    }
  }

  /** A splice keeps a canonical list canonical exactly if what is spliced in is canonical and both new
      borders are separated. */
  lemma {:induction false} SpliceKeepsCanonicalIff(ts: seq<Token>, i: nat, j: nat, mid: seq<Token>)
    requires i <= j <= |ts| && Canonical(ts)
    ensures Canonical(Splice(ts, i, j, mid))
       <==> Canonical(mid) && Border(ts[..i], mid) && Border(ts[..i] + mid, ts[j..])
  {
    SliceCanonical(ts, 0, i);
    SliceCanonical(ts, j, |ts|);
    ConcatCanonicalIff(ts[..i] + mid, ts[j..]);
    ConcatCanonicalIff(ts[..i], mid);
  }

  lemma {:induction false} SliceCanonical(ts: seq<Token>, i: nat, j: nat)
    requires i <= j <= |ts| && Canonical(ts)
    ensures Canonical(ts[i..j])
  {
    assert ts == ts[..i] + (ts[i..j] + ts[j..]);
    PartsCanonical(ts[..i], ts[i..j] + ts[j..]);
    PartsCanonical(ts[i..j], ts[j..]);
  }

  lemma {:induction false} InsertKeepsCanonicalIff(ts: seq<Token>, at: nat, mid: seq<Token>)
    requires at <= |ts| && Canonical(ts) && mid != []
    ensures Canonical(Splice(ts, at, at, mid))
       <==> Canonical(mid) && JointsBetween(ts, at, mid[0], mid[|mid| - 1])
  {
    SpliceKeepsCanonicalIff(ts, at, at, mid);
  }

  lemma {:induction false} OneCanonicalIff(t: Token)
    ensures Canonical([t]) <==> Scanned(t)
  {
    assert t in [t];
  }

  lemma {:induction false} UpdateKeepsCanonicalIff(ts: seq<Token>, idx: nat, t: Token)
    requires idx < |ts| && Canonical(ts)
    ensures Canonical(ts[idx := t]) <==> Scanned(t) && JointsAround(ts, idx, t)
  {
    SpliceKeepsCanonicalIff(ts, idx, idx + 1, [t]);
    OneCanonicalIff(t);
    assert ts[idx := t] == Splice(ts, idx, idx + 1, [t]);
  }

  lemma {:induction false} FreshIsScanned(t: Token, max: nat)
    requires Fresh(t, max)
    ensures Scanned(t)
  {
    assert t.Text? ==> forall i | 1 <= i < |t.data| :: t.data[i] in t.data;
  }

  // ---------- Moves on one token ----------

  lemma {:induction false} DataMovesStayScanned(ts: seq<Token>, m: Move, max: nat)
    requires m.Flip? || m.Interesting? || m.Truncate?
    requires Enabled(ts, m, max) && Scanned(ts[m.idx])
    ensures Scanned(NewToken(ts, m, max))
  {
    InterestingAreNumbers();
  }

  /** The text scanner takes a sign only as its first byte. */
  lemma {:induction false} SpecialInsertScannedIff(t: Token, pos: nat, value: Byte)
    requires Scanned(t) && t.Text? && pos <= |t.data| && value in SPECIAL
    ensures Scanned(t.(data := t.data[..pos] + [value] + t.data[pos..]))
       <==> if pos == 0 then !IsSign(t.data[0]) else !IsSign(value)
  {
    SpecialsAreText();
    if pos == 0 {
      InsertInFront(t.data, value);
    } else {
      InsertBehindFirst(t.data, pos, value);
    }
  }

  lemma {:induction false} InsertInFront(s: seq<Byte>, value: Byte)
    requires Scanned(Text(s)) && IsTextByte(value)
    ensures Scanned(Text(s[..0] + [value] + s[0..])) <==> !IsSign(s[0])
  {
    var d := s[..0] + [value] + s[0..];
    assert d == [value] + s;
    assert forall i | 1 <= i < |d| :: d[i] == s[i - 1];
    assert d[1] == s[0] && s[0] in s;
  }

  lemma {:induction false} InsertBehindFirst(s: seq<Byte>, pos: nat, value: Byte)
    requires Scanned(Text(s)) && IsTextByte(value) && 1 <= pos <= |s|
    ensures Scanned(Text(s[..pos] + [value] + s[pos..])) <==> !IsSign(value)
  {
    var d := s[..pos] + [value] + s[pos..];
    assert d[pos] == value;
    assert forall i | 0 <= i < pos :: d[i] == s[i];
    assert forall i | pos < i < |d| :: d[i] == s[i - 1];
    assert forall b | b in d :: b == value || b in s;
  }

  lemma {:induction false} SpecialReplaceScannedIff(t: Token, pos: nat, value: Byte)
    requires Scanned(t) && t.Text? && pos < |t.data| && value in SPECIAL
    ensures Scanned(t.(data := t.data[pos := value])) <==> pos == 0 || !IsSign(value)
  {
    SpecialsAreText();
    var d := t.data[pos := value];
    assert d[pos] == value;
    assert forall b | b in d :: b == value || b in t.data;
  }

  lemma {:induction false} RepeatCharScannedIff(t: Token, pos: nat, n: nat)
    requires Scanned(t) && pos < |t.data| && n > 0 && !(pos == 0 && t.Number?)
    ensures Scanned(t.(data := t.data[..pos] + Repeat(t.data[pos], n) + t.data[pos..]))
       <==> !(t.Text? && IsSign(t.data[pos]))
  {
    var d := t.data[..pos] + Repeat(t.data[pos], n) + t.data[pos..];
    assert d[pos + n] == t.data[pos];
    assert forall b | b in d :: b in t.data;
    assert forall i | pos <= i < pos + n :: d[i] == t.data[pos];
    assert forall i | pos + n <= i < |d| :: d[i] == t.data[i - n];
    assert t.data[pos] in t.data;
  }

  /** The borders of a token depend on its kind, its first byte and whether it is a lone sign. */
  lemma {:induction false} SameJoints(ts: seq<Token>, idx: nat, t: Token)
    requires idx < |ts| && Canonical(ts)
    requires t == ts[idx].(data := t.data)
    requires t.data != [] && ts[idx].data != [] && t.data[0] == ts[idx].data[0]
    requires !LoneSign(t)
    ensures JointsAround(ts, idx, t)
  {
    assert Scanned(ts[idx]);
    assert idx > 0 ==> Separates(ts[idx - 1], ts[idx]);
    assert idx + 1 < |ts| ==> Separates(ts[idx], ts[idx + 1]);
  }

  lemma {:induction false} RepeatCharKeepsCanonicalIff(ts: seq<Token>, m: Move, max: nat)
    requires m.RepeatChar? && Enabled(ts, m, max) && Canonical(ts)
    ensures Canonical(Apply(ts, m, max)) <==> KeepsCanonical(ts, m, max)
  {
    var t := ts[m.idx];
    assert Scanned(t);
    var n := m.amount - |t.data|;
    var u := t.(data := t.data[..m.pos] + Repeat(t.data[m.pos], n) + t.data[m.pos..]);
    RepeatCharScannedIff(t, m.pos, n);
    UpdateKeepsCanonicalIff(ts, m.idx, u);
    assert |u.data| == m.amount && u.data[0] == t.data[0];
    SameJoints(ts, m.idx, u);
  }

  lemma {:induction false} SpecialMoveKeepsCanonicalIff(ts: seq<Token>, m: Move, max: nat)
    requires (m.SpecialInsert? || m.SpecialReplace?) && Enabled(ts, m, max) && Canonical(ts)
    ensures Canonical(Apply(ts, m, max)) <==> KeepsCanonical(ts, m, max)
  {
    var t := ts[m.idx];
    assert Scanned(t);
    if m.SpecialInsert? {
      SpecialInsertScannedIff(t, m.pos, m.value);
    } else {
      SpecialReplaceScannedIff(t, m.pos, m.value);
    }
    UpdateKeepsCanonicalIff(ts, m.idx, NewToken(ts, m, max));
  }

  lemma {:induction false} DataMoveKeepsCanonicalIff(ts: seq<Token>, m: Move, max: nat)
    requires (m.Flip? || m.Interesting? || m.Truncate?) && Enabled(ts, m, max) && Canonical(ts)
    ensures Canonical(Apply(ts, m, max)) <==> KeepsCanonical(ts, m, max)
  {
    assert Scanned(ts[m.idx]);
    DataMovesStayScanned(ts, m, max);
    UpdateKeepsCanonicalIff(ts, m.idx, NewToken(ts, m, max));
  }

  lemma {:induction false} SplitKeepsCanonicalIff(ts: seq<Token>, m: Move, max: nat)
    requires m.Split? && Enabled(ts, m, max) && Canonical(ts)
    ensures Canonical(Apply(ts, m, max)) <==> KeepsCanonical(ts, m, max)
  {
    var t := ts[m.idx];
    assert Scanned(t);
    var head, tail := t.(data := t.data[..m.pos]), t.(data := t.data[m.pos..]);
    var mid := [head, m.token, tail];
    HalvesScanned(t, m.pos);
    FreshIsScanned(m.token, 16);
    ThreeCanonicalIff(head, m.token, tail);
    SpliceKeepsCanonicalIff(ts, m.idx, m.idx + 1, mid);
    assert m.idx > 0 ==> Separates(ts[m.idx - 1], t);
    assert m.idx + 1 < |ts| ==> Separates(t, ts[m.idx + 1]);
    assert (ts[..m.idx] + mid)[m.idx + 2] == tail;
  }

  /** Both halves of a split token have its kind, the first half its first byte, and the second is no lone sign. */
  lemma {:induction false} HalvesScanned(t: Token, pos: nat)
    requires Scanned(t) && 1 <= pos < |t.data| && !(pos == 1 && t.Number?)
    ensures Scanned(t.(data := t.data[..pos])) && Scanned(t.(data := t.data[pos..]))
    ensures !LoneSign(t.(data := t.data[pos..]))
  {
    var d := t.data[pos..];
    assert forall i | 0 <= i < |d| :: d[i] == t.data[pos + i];
  }

  lemma {:induction false} ThreeCanonicalIff(a: Token, b: Token, c: Token)
    requires Scanned(a) && Scanned(b) && Scanned(c)
    ensures Canonical([a, b, c]) <==> Separates(a, b) && Separates(b, c)
  {
    var ts := [a, b, c];
    assert ts[0] == a && ts[1] == b && ts[2] == c;
  }

  lemma {:induction false} ConstantIsNotCanonical(ts: seq<Token>, i: nat)
    requires i < |ts| && ts[i].Constant?
    ensures !Canonical(ts)
  {
    assert ts[i] in ts && !Scanned(ts[i]);
  }

  // ---------- Moves on ranges of tokens ----------

  lemma {:induction false} RepeatCanonicalIff(t: Token, n: nat)
    requires Scanned(t) && n > 0
    ensures Canonical(Repeat(t, n)) <==> n == 1 || Separates(t, t)
  {
    var ts := Repeat(t, n);
    if n > 1 && Canonical(ts) {
      assert Separates(ts[0], ts[1]);
    }
  }

  lemma {:induction false} RepeatTokenKeepsCanonicalIff(ts: seq<Token>, m: Move, max: nat)
    requires m.RepeatToken? && Enabled(ts, m, max) && Canonical(ts)
    ensures Canonical(Apply(ts, m, max)) <==> KeepsCanonical(ts, m, max)
  {
    var t := ts[m.idx];
    assert Scanned(t);
    var n := Copies(ts, m.idx, m.amount, max);
    RepeatCanonicalIff(t, n);
    InsertKeepsCanonicalIff(ts, m.idx, Repeat(t, n));
    assert m.idx > 0 ==> Separates(ts[m.idx - 1], t);
  }

  lemma {:induction false} CopyKeepsCanonicalIff(ts: seq<Token>, m: Move, max: nat)
    requires m.Copy? && Enabled(ts, m, max) && Canonical(ts)
    ensures Canonical(Apply(ts, m, max)) <==> KeepsCanonical(ts, m, max)
  {
    SliceCanonical(ts, m.lo, m.hi);
    InsertKeepsCanonicalIff(ts, m.at, ts[m.lo..m.hi]);
  }

  lemma {:induction false} CrossoverInsertKeepsCanonicalIff(ts: seq<Token>, m: Move, max: nat)
    requires m.CrossoverInsert? && Enabled(ts, m, max) && Canonical(ts)
    ensures Canonical(Apply(ts, m, max)) <==> KeepsCanonical(ts, m, max)
  {
    InsertKeepsCanonicalIff(ts, m.at, m.other[m.lo..m.hi]);
  }

  lemma {:induction false} RandomInsertKeepsCanonicalIff(ts: seq<Token>, m: Move, max: nat)
    requires m.RandomInsert? && Enabled(ts, m, max) && Canonical(ts)
    ensures Canonical(Apply(ts, m, max)) <==> KeepsCanonical(ts, m, max)
  {
    FreshIsScanned(m.token, 16);
    OneCanonicalIff(m.token);
    InsertKeepsCanonicalIff(ts, m.at, [m.token]);
  }

  lemma {:induction false} DeleteKeepsCanonicalIff(ts: seq<Token>, m: Move, max: nat)
    requires m.Delete? && Enabled(ts, m, max) && Canonical(ts)
    ensures Canonical(Apply(ts, m, max)) <==> KeepsCanonical(ts, m, max)
  {
    SpliceKeepsCanonicalIff(ts, m.lo, m.hi, []);
    assert ts[..m.lo] + [] == ts[..m.lo];
  }

  lemma {:induction false} CrossoverReplaceKeepsCanonicalIff(ts: seq<Token>, m: Move, max: nat)
    requires m.CrossoverReplace? && Enabled(ts, m, max) && Canonical(ts)
    ensures Canonical(Apply(ts, m, max)) <==> KeepsCanonical(ts, m, max)
  {
    SpliceKeepsCanonicalIff(ts, m.dstLo, m.dstHi, m.other[m.lo..m.hi]);
  }

  lemma {:induction false} DictMoveIsNotCanonical(ts: seq<Token>, m: Move, max: nat)
    requires m.DictInsert? || m.DictInsertPadded? || m.DictReplace? || m.SwapConstants?
    requires Enabled(ts, m, max)
    ensures !Canonical(Apply(ts, m, max))
  {
    var at := match m
              case DictInsert(at, _) => at
              case DictInsertPadded(at, _, _, _) => at + 1
              case DictReplace(idx, _) => idx
              case SwapConstants(idx, _) => idx;
    ConstantIsNotCanonical(Apply(ts, m, max), at);
  }

  // ---------- The two swaps ----------

  lemma {:induction false} SwapTokensKeepsCanonicalIff(ts: seq<Token>, m: Move, max: nat)
    requires m.SwapTokens? && Enabled(ts, m, max) && Canonical(ts)
    ensures Canonical(Apply(ts, m, max)) <==> KeepsCanonical(ts, m, max)
  {
    var us := Exchange(ts, m.from, m.to);
    assert forall u | u in us :: u in ts;
    forall i, j | 0 <= i && j == i + 1 && j < |us| && j !in {m.from, m.from + 1, m.to, m.to + 1}
      ensures Separates(us[i], us[j])
    {
      assert Separates(ts[i], ts[j]);
    }
  }

  /** No word but the first and the last is empty. */
  predicate InnerWordsNonempty(words: seq<Word>) {
    forall k | 0 < k < |words| - 1 :: words[k] != []
  }

  /** A woven list is canonical exactly if its words are, its whitespace is, and no two spaces meet. */
  lemma {:induction false} WeaveCanonicalIff(words: seq<Word>, spaces: seq<Token>)
    requires WellSplit(words, spaces)
    ensures Canonical(Weave(words, spaces))
       <==> && (forall w | w in words :: Canonical(w))
            && (forall s | s in spaces :: Scanned(s))
            && InnerWordsNonempty(words)
  {
    var w := words[0];
    assert w in words;
    if spaces == [] {
      assert words == [w];
    } else {
      var s, rest := spaces[0], Weave(words[1..], spaces[1..]);
      assert s in spaces;
      assert words == [w] + words[1..] && spaces == [s] + spaces[1..];
      assert WellSplit(words[1..], spaces[1..]);
      WeaveCanonicalIff(words[1..], spaces[1..]);
      WeaveBegins(words[1..], spaces[1..]);
      Associative(w, [s], rest);
      ConcatCanonicalIff(w, [s] + rest);
      ConcatCanonicalIff([s], rest);
      OneCanonicalIff(s);
      WordThenSpace(w, s);
      InnerWordsStep(words);
    }
  }

  lemma {:induction false} WordThenSpace(w: Word, s: Token)
    requires IsWord(w) && s.Whitespace?
    ensures Border(w, [s])
  {
    if w != [] {
      assert w[|w| - 1] in w;
    }
  }

  lemma {:induction false} InnerWordsStep(words: seq<Word>)
    requires |words| >= 2
    ensures InnerWordsNonempty(words) <==> InnerWordsNonempty(words[1..]) && (|words| > 2 ==> words[1] != [])
  {
    var rest := words[1..];
    assert forall k | 0 < k < |words| :: words[k] == rest[k - 1];
    if InnerWordsNonempty(words) {
      assert forall k | 0 < k < |rest| - 1 :: rest[k] == words[k + 1];
    }
  }

  /** A woven list begins with its first word, or else with its first space. */
  lemma {:induction false} WeaveBegins(words: seq<Word>, spaces: seq<Token>)
    requires WellSplit(words, spaces)
    ensures var ts := Weave(words, spaces);
            if words[0] != [] then ts != [] && ts[0] == words[0][0] && !ts[0].Whitespace?
            else if spaces != [] then ts != [] && ts[0] == spaces[0] && ts[0].Whitespace?
            else ts == []
  {
    assert words[0] in words;
    assert words[0] != [] ==> words[0][0] in words[0];
    assert spaces != [] ==> spaces[0] in spaces;
  }

  lemma {:induction false} SwapWordsKeepsCanonicalIff(ts: seq<Token>, m: Move, max: nat)
    requires m.SwapWords? && Enabled(ts, m, max) && Canonical(ts)
    ensures Canonical(Apply(ts, m, max)) <==> KeepsCanonical(ts, m, max)
  {
    SplitIsWellSplit(ts);
    var ws, ss := WordsOf(ts), SpacesOf(ts);
    var xs := Exchange(ws, m.from, m.to);
    assert forall w | w in xs :: w in ws;
    assert forall w | w in ws :: w in xs by {
      assert Exchange(xs, m.from, m.to) == ws;
    }
    WeaveCanonicalIff(ws, ss);
    WeaveCanonicalIff(xs, ss);
    InnerAfterExchange(ws, m.from, m.to);
  }

  lemma {:induction false} InnerAfterExchange(ws: seq<Word>, i: nat, j: nat)
    requires i < |ws| && j < |ws| && InnerWordsNonempty(ws)
    ensures InnerWordsNonempty(Exchange(ws, i, j))
       <==> && (ws[i] == [] ==> j == 0 || j == |ws| - 1)
            && (ws[j] == [] ==> i == 0 || i == |ws| - 1)
  {
    var xs := Exchange(ws, i, j);
    assert xs[i] == ws[j] && xs[j] == ws[i];
  }

  // ---------- All moves, and runs ----------

  lemma {:induction false} RangeMoveKeepsCanonicalIff(ts: seq<Token>, m: Move, max: nat)
    requires TakesRange(m) && Enabled(ts, m, max) && Canonical(ts)
    ensures Canonical(Apply(ts, m, max)) <==> KeepsCanonical(ts, m, max)
  {
    match m
    case Copy(_, _, _) => CopyKeepsCanonicalIff(ts, m, max);
    case CrossoverInsert(_, _, _, _) => CrossoverInsertKeepsCanonicalIff(ts, m, max);
    case CrossoverReplace(_, _, _, _, _) => CrossoverReplaceKeepsCanonicalIff(ts, m, max);
    case Delete(_, _) => DeleteKeepsCanonicalIff(ts, m, max);
  }

  lemma {:induction false} ByteMoveKeepsCanonicalIff(ts: seq<Token>, m: Move, max: nat)
    requires ChangesData(m) && Enabled(ts, m, max) && Canonical(ts)
    ensures Canonical(Apply(ts, m, max)) <==> KeepsCanonical(ts, m, max)
  {
    if m.RepeatChar? {
      RepeatCharKeepsCanonicalIff(ts, m, max);
    } else if m.SpecialInsert? || m.SpecialReplace? {
      SpecialMoveKeepsCanonicalIff(ts, m, max);
    } else {
      DataMoveKeepsCanonicalIff(ts, m, max);
    }
  }

  lemma {:induction false} RandomReplaceKeepsCanonicalIff(ts: seq<Token>, m: Move, max: nat)
    requires m.RandomReplace? && Enabled(ts, m, max) && Canonical(ts)
    ensures Canonical(Apply(ts, m, max)) <==> KeepsCanonical(ts, m, max)
  {
    FreshIsScanned(m.token, 16);
    UpdateKeepsCanonicalIff(ts, m.idx, m.token);
  }

  /** A move keeps a canonical list canonical if and only if its condition holds. */
  lemma {:induction false} MoveKeepsCanonicalIff(ts: seq<Token>, m: Move, max: nat)
    requires Enabled(ts, m, max) && Canonical(ts)
    ensures Canonical(Apply(ts, m, max)) <==> KeepsCanonical(ts, m, max)
  {
    if TakesRange(m) {
      RangeMoveKeepsCanonicalIff(ts, m, max);
    } else if ChangesData(m) {
      ByteMoveKeepsCanonicalIff(ts, m, max);
    } else {
      match m
      case RandomInsert(_, _) => RandomInsertKeepsCanonicalIff(ts, m, max);
      case RandomReplace(_, _) => RandomReplaceKeepsCanonicalIff(ts, m, max);
      case RepeatToken(_, _) => RepeatTokenKeepsCanonicalIff(ts, m, max);
      case Split(_, _, _) => SplitKeepsCanonicalIff(ts, m, max);
      case SwapTokens(_, _) => SwapTokensKeepsCanonicalIff(ts, m, max);
      case SwapWords(_, _) => SwapWordsKeepsCanonicalIff(ts, m, max);
      case _ => DictMoveIsNotCanonical(ts, m, max);
    }
  }

  /** The list is canonical before and after every move of the run. */
  ghost predicate CanonicalThroughout(ts: seq<Token>, trace: seq<Move>, env: Env, end: seq<Token>)
    requires Reaches(ts, trace, env, end)
    decreases |trace|
  {
    && Canonical(ts)
    && (trace != [] ==> CanonicalThroughout(Apply(ts, trace[0], env.maxTokens), trace[1..], env, end))
  }

  /** Every move of the run meets its condition. */
  ghost predicate EveryMoveKeeps(ts: seq<Token>, trace: seq<Move>, env: Env, end: seq<Token>)
    requires Reaches(ts, trace, env, end)
    decreases |trace|
  {
    trace != [] ==>
      && KeepsCanonical(ts, trace[0], env.maxTokens)
      && EveryMoveKeeps(Apply(ts, trace[0], env.maxTokens), trace[1..], env, end)
  }

  /** A run from a canonical list stays canonical throughout if and only if every move meets its condition; the
      packet it ends in is then read back as it was printed. */
  lemma {:induction false} RunStaysCanonicalIff(ts: seq<Token>, trace: seq<Move>, env: Env, end: seq<Token>)
    requires Reaches(ts, trace, env, end) && Canonical(ts)
    ensures CanonicalThroughout(ts, trace, env, end) <==> EveryMoveKeeps(ts, trace, env, end)
    ensures EveryMoveKeeps(ts, trace, env, end) ==> Scanner.Parse(Flatten(end)) == Ok(end)
    decreases |trace|
  {
    if trace == [] {
      Scanner.PrintParses(end);
    } else {
      MoveKeepsCanonicalIff(ts, trace[0], env.maxTokens);
      var us := Apply(ts, trace[0], env.maxTokens);
      if Canonical(us) {
        RunStaysCanonicalIff(us, trace[1..], env, end);
      }
    }
  }

  /** A witness: deleting a word between two spaces makes them neighbours. */
  lemma {:induction false} CanonicalIsNotKept(max: nat)
    ensures var ts, m := [Whitespace([32]), Text([97]), Whitespace([32])], Delete(1, 2);
            Canonical(ts) && Enabled(ts, m, max) && !Canonical(Apply(ts, m, max))
  {
    var ts := [Whitespace([32]), Text([97]), Whitespace([32])];
    ThreeCanonicalIff(ts[0], ts[1], ts[2]);
    MoveKeepsCanonicalIff(ts, Delete(1, 2), max);
  }
}
