/** How long a packet may get: a bound for every run by the number of its special insertions, and when there is
    none that does not depend on it. */
module Growth {
  import opened Bytes
  import opened Tokens
  import opened Random
  import opened Moves
  import opened Runs

  predicate TokensWithin(ts: seq<Token>, b: nat) { forall t | t in ts :: |t.data| <= b }

  /** Everything that a run can put into a packet at once fits into b bytes. */
  predicate EnvWithin(env: Env, b: nat) {
    && (forall w | w in env.dict :: |w| <= b)
    && (forall o | o in env.others :: TokensWithin(o, b))
    && env.charAmount <= b
    && 20 <= b
  }

  /** The number of special characters that the run inserts. */
  function SpecialInserts(trace: seq<Move>): (n: nat)
    ensures n <= |trace|
  {
    if trace == [] then 0 else (if trace[0].SpecialInsert? then 1 else 0) + SpecialInserts(trace[1..])
  }

  lemma {:induction false} InterestingAreShort()
    ensures forall w | w in INTERESTING :: |w| <= 20
  {
    assert forall k | 0 <= k < |INTERESTING| :: |INTERESTING[k]| <= 20;
  }

  lemma {:induction false} SpliceWithin(ts: seq<Token>, i: nat, j: nat, mid: seq<Token>, b: nat)
    requires i <= j <= |ts| && TokensWithin(ts, b) && TokensWithin(mid, b)
    ensures TokensWithin(Splice(ts, i, j, mid), b)
  {
  }

  lemma {:induction false} UpdateWithin(ts: seq<Token>, idx: nat, t: Token, b: nat)
    requires idx < |ts| && TokensWithin(ts, b) && |t.data| <= b
    ensures TokensWithin(ts[idx := t], b)
  {
  }

  lemma {:induction false} RangeMovesStayWithin(ts: seq<Token>, m: Move, env: Env, b: nat)
    requires TakesRange(m) && TokensWithin(ts, b) && EnvWithin(env, b)
    requires Enabled(ts, m, env.maxTokens) && Sourced(m, ts, env)
    ensures TokensWithin(Apply(ts, m, env.maxTokens), b)
  {
    match m
    case Copy(lo, hi, at) => SpliceWithin(ts, at, at, ts[lo..hi], b);
    case CrossoverInsert(other, lo, hi, at) => SpliceWithin(ts, at, at, other[lo..hi], b);
    case CrossoverReplace(other, lo, hi, dstLo, dstHi) => SpliceWithin(ts, dstLo, dstHi, other[lo..hi], b);
    case Delete(lo, hi) => SpliceWithin(ts, lo, hi, [], b);
  }

  lemma {:induction false} CopiesStayWithin(ts: seq<Token>, idx: nat, n: nat, b: nat)
    requires idx < |ts| && TokensWithin(ts, b)
    ensures TokensWithin(Splice(ts, idx, idx, Repeat(ts[idx], n)), b)
  {
    SpliceWithin(ts, idx, idx, Repeat(ts[idx], n), b);
  }

  lemma {:induction false} SplitStaysWithin(ts: seq<Token>, idx: nat, pos: nat, token: Token, b: nat)
    requires idx < |ts| && pos <= |ts[idx].data| && TokensWithin(ts, b) && |token.data| <= b
    ensures var t := ts[idx];
            TokensWithin(Splice(ts, idx, idx + 1, [t.(data := t.data[..pos]), token, t.(data := t.data[pos..])]), b)
  {
    var t := ts[idx];
    assert t in ts;
    SpliceWithin(ts, idx, idx + 1, [t.(data := t.data[..pos]), token, t.(data := t.data[pos..])], b);
  }

  lemma {:induction false} InsertMovesStayWithin(ts: seq<Token>, m: Move, env: Env, b: nat)
    requires InsertsTokens(m) && TokensWithin(ts, b) && EnvWithin(env, b)
    requires Enabled(ts, m, env.maxTokens) && Sourced(m, ts, env)
    ensures TokensWithin(Apply(ts, m, env.maxTokens), b)
  {
    match m
    case RandomInsert(at, token) => SpliceWithin(ts, at, at, [token], b);
    case RepeatToken(idx, amount) => CopiesStayWithin(ts, idx, Copies(ts, idx, amount, env.maxTokens), b);
    case Split(idx, pos, token) => SplitStaysWithin(ts, idx, pos, token, b);
    case DictInsert(at, word) => SpliceWithin(ts, at, at, [Constant(word)], b);
    case DictInsertPadded(at, before, word, after) =>
      SpliceWithin(ts, at, at, [before, Constant(word), after], b);
  }

  lemma {:induction false} TokenMovesStayWithin(ts: seq<Token>, m: Move, env: Env, b: nat)
    requires PutsToken(m) && TokensWithin(ts, b) && EnvWithin(env, b)
    requires Enabled(ts, m, env.maxTokens) && Sourced(m, ts, env)
    ensures TokensWithin(Apply(ts, m, env.maxTokens), b)
  {
    match m
    case RandomReplace(idx, token) => UpdateWithin(ts, idx, token, b);
    case DictReplace(idx, word) => UpdateWithin(ts, idx, Constant(word), b);
    case SwapConstants(idx, word) => UpdateWithin(ts, idx, Constant(word), b);
  }

  lemma {:induction false} DataWithin(ts: seq<Token>, idx: nat, data: seq<Byte>, b: nat)
    requires idx < |ts| && TokensWithin(ts, b) && |data| <= b
    ensures TokensWithin(SetData(ts, idx, data), b)
  {
    UpdateWithin(ts, idx, ts[idx].(data := data), b);
  }

  lemma {:induction false} DataMovesStayWithin(ts: seq<Token>, m: Move, env: Env, b: nat)
    requires ChangesData(m) && !m.SpecialInsert? && TokensWithin(ts, b) && EnvWithin(env, b)
    requires Enabled(ts, m, env.maxTokens) && Sourced(m, ts, env)
    ensures TokensWithin(Apply(ts, m, env.maxTokens), b)
  {
    var d := ts[m.idx].data;
    assert ts[m.idx] in ts;
    match m
    case Flip(idx, pos, value) => DataWithin(ts, idx, d[pos := value], b);
    case SpecialReplace(idx, pos, value) => DataWithin(ts, idx, d[pos := value], b);
    case Interesting(idx, word) =>
      InterestingAreShort();
      DataWithin(ts, idx, word, b);
    case RepeatChar(idx, pos, amount) => DataWithin(ts, idx, d[..pos] + Repeat(d[pos], amount - |d|) + d[pos..], b);
    case Truncate(idx, newLen) => DataWithin(ts, idx, d[..newLen], b);
  }

  lemma {:induction false} SpecialInsertAddsOne(ts: seq<Token>, m: Move, max: nat, b: nat)
    requires m.SpecialInsert? && TokensWithin(ts, b) && Enabled(ts, m, max)
    ensures TokensWithin(Apply(ts, m, max), b + 1)
  {
    var d := ts[m.idx].data;
    assert ts[m.idx] in ts;
    DataWithin(ts, m.idx, d[..m.pos] + [m.value] + d[m.pos..], b + 1);
  }

  lemma {:induction false} MoveStaysWithin(ts: seq<Token>, m: Move, env: Env, b: nat)
    requires TokensWithin(ts, b) && EnvWithin(env, b)
    requires Enabled(ts, m, env.maxTokens) && Sourced(m, ts, env)
    ensures TokensWithin(Apply(ts, m, env.maxTokens), if m.SpecialInsert? then b + 1 else b)
  {
    if TakesRange(m) {
      RangeMovesStayWithin(ts, m, env, b);
    } else if InsertsTokens(m) {
      InsertMovesStayWithin(ts, m, env, b);
    } else if PutsToken(m) {
      TokenMovesStayWithin(ts, m, env, b);
    } else if m.SpecialInsert? {
      SpecialInsertAddsOne(ts, m, env.maxTokens, b);
    } else if ChangesData(m) {
      DataMovesStayWithin(ts, m, env, b);
    } else {
      SwapsKeepTokens(ts, m, env.maxTokens);
      var us := Apply(ts, m, env.maxTokens);
      assert forall t | t in us :: t in multiset(us);
    }
  }

  lemma {:induction false} RunStaysWithin(ts: seq<Token>, trace: seq<Move>, env: Env, end: seq<Token>, b: nat)
    requires Reaches(ts, trace, env, end)
    requires TokensWithin(ts, b) && EnvWithin(env, b)
    ensures TokensWithin(end, b + SpecialInserts(trace))
    decreases |trace|
  {
    if trace != [] {
      MoveStaysWithin(ts, trace[0], env, b);
      var b' := if trace[0].SpecialInsert? then b + 1 else b;
      RunStaysWithin(Apply(ts, trace[0], env.maxTokens), trace[1..], env, end, b');
    }
  }

  lemma {:induction false} BytesOfTokens(ts: seq<Token>, n: nat, b: nat)
    requires |ts| <= n && TokensWithin(ts, b)
    ensures |Flatten(ts)| <= n * b
    decreases n
  {
    if ts != [] {
      assert ts[0] in ts;
      BytesOfTokens(ts[1..], n - 1, b);
      OneMoreTime(n - 1, b);
    }
  }

  /** Over every run from at most n tokens, under a limit of at most n, the packet has at most n tokens, each of
      at most k bytes: b for the longest that the run can draw on, and one for every special character inserted. */
  lemma {:induction false} RunKeepsByteBound(ts: seq<Token>, trace: seq<Move>, env: Env, end: seq<Token>,
                                             n: nat, b: nat, k: nat)
    requires Reaches(ts, trace, env, end)
    requires |ts| <= n && env.maxTokens <= n
    requires TokensWithin(ts, b) && EnvWithin(env, b)
    requires b + SpecialInserts(trace) <= k
    ensures |end| <= n && TokensWithin(end, k) && |Flatten(end)| <= n * k
  {
    RunStaysWithin(ts, trace, env, end, b);
    RunKeepsBound(ts, trace, env, end);
    BytesOfTokens(end, n, k);
  }

  lemma {:induction false} OneMoreTime(n: nat, b: nat)
    ensures (n + 1) * b == n * b + b
  {
  }

  // ---------- No bound without counting the insertions ----------

  /** The run that puts n exclamation marks in front of the first token. */
  function Inserting(n: nat): (trace: seq<Move>)
    ensures |trace| == n
  {
    if n == 0 then [] else [SpecialInsert(0, 0, 33)] + Inserting(n - 1)
  }

  lemma {:induction false} OneInserted(ts: seq<Token>, max: nat) returns (us: seq<Token>)
    requires ts != [] && ts[0].Text?
    ensures var m := SpecialInsert(0, 0, 33); Enabled(ts, m, max) && us == Apply(ts, m, max)
    ensures us != [] && us[0].Text? && |us| == |ts| && |Flatten(us)| == |Flatten(ts)| + 1
  {
    assert SPECIAL[1] == 33;
    us := Apply(ts, SpecialInsert(0, 0, 33), max);
    assert us[1..] == ts[1..];
  }

  /** Nothing stops special insertions: n of them are a run, from any list that begins with a text token, and the
      packet grows by exactly n bytes. */
  lemma {:induction false} InsertingGrows(ts: seq<Token>, env: Env, n: nat) returns (end: seq<Token>)
    requires ts != [] && ts[0].Text?
    ensures Reaches(ts, Inserting(n), env, end)
    ensures |end| == |ts| && |Flatten(end)| == |Flatten(ts)| + n
    decreases n
  {
    if n == 0 {
      end := ts;
    } else {
      var us := OneInserted(ts, env.maxTokens);
      end := InsertingGrows(us, env, n - 1);
      assert Inserting(n)[1..] == Inserting(n - 1);
    }
  }

  /** A text token can be brought to the front of every list that is not empty, and into an empty one unless the
      limit is 0. */
  lemma {:induction false} TextToFront(ts: seq<Token>, max: nat) returns (m: Move)
    requires ts != [] || max > 0
    ensures Enabled(ts, m, max) && (m.RandomInsert? || m.RandomReplace?)
    ensures Apply(ts, m, max) != [] && Apply(ts, m, max)[0].Text?
  {
    var t := Text([33]);
    assert Fresh(t, 16);
    m := if ts == [] then RandomInsert(0, t) else RandomReplace(0, t);
  }

  /** No run from ts ends in a packet of more than `bound` bytes. */
  ghost predicate BytesBounded(ts: seq<Token>, env: Env, bound: nat) {
    forall trace, end | Reaches(ts, trace, env, end) :: |Flatten(end)| <= bound
  }

  /** One bound for all runs from ts exists if and only if no mutator can act at all: the packet is empty, and so
      is what the limit allows. */
  lemma {:induction false} BytesBoundedIff(ts: seq<Token>, env: Env)
    ensures (exists bound: nat :: BytesBounded(ts, env, bound)) <==> ts == [] && env.maxTokens == 0
  {
    if ts == [] && env.maxTokens == 0 {
      forall trace, end | Reaches(ts, trace, env, end)
        ensures |Flatten(end)| <= 0
      {
        NothingEnabled(trace, env, end);
      }
      assert BytesBounded(ts, env, 0);
    } else {
      forall bound: nat
        ensures !BytesBounded(ts, env, bound)
      {
        var trace, end := LongRun(ts, env, bound + 1);
      }
    }
  }

  lemma {:induction false} LongRun(ts: seq<Token>, env: Env, n: nat) returns (trace: seq<Move>, end: seq<Token>)
    requires ts != [] || env.maxTokens > 0
    ensures Reaches(ts, trace, env, end) && |Flatten(end)| >= n
  {
    var m := TextToFront(ts, env.maxTokens);
    end := InsertingGrows(Apply(ts, m, env.maxTokens), env, n);
    trace := [m] + Inserting(n);
    assert trace[1..] == Inserting(n);
  }

  lemma {:induction false} NothingEnabled(trace: seq<Move>, env: Env, end: seq<Token>)
    requires env.maxTokens == 0 && Reaches([], trace, env, end)
    ensures trace == [] && end == []
  {
    if trace != [] {
      assert false;
    }
  }
}
