/** Safety over every run: any mutators, in any order, with any outcomes of their random choices. */
module Runs {
  import opened Bytes
  import opened Tokens
  import opened Moves
  import Scanner

  /** The operands of a move come from the dictionary and the corpus of the run, or from a clone of the list
      that is being mutated; the amounts are those of the run. */
  predicate Sourced(m: Move, ts: seq<Token>, env: Env) {
    match m
    case CrossoverInsert(other, _, _, _) => other in env.others || other == ts
    case CrossoverReplace(other, _, _, _, _) => other in env.others || other == ts
    case DictInsert(_, word) => word in env.dict
    case DictInsertPadded(_, _, word, _) => word in env.dict
    case DictReplace(_, word) => word in env.dict
    case SwapConstants(_, word) => word in env.dict
    case RepeatChar(_, _, amount) => amount == env.charAmount
    case RepeatToken(_, amount) => amount == env.tokenAmount
    case _ => true
  }

  /** The moves of the trace, each enabled where it is made, lead from ts to end. */
  predicate Reaches(ts: seq<Token>, trace: seq<Move>, env: Env, end: seq<Token>)
    decreases |trace|
  {
    if trace == [] then ts == end
    else
      && Enabled(ts, trace[0], env.maxTokens)
      && Sourced(trace[0], ts, env)
      && Reaches(Apply(ts, trace[0], env.maxTokens), trace[1..], env, end)
  }

  lemma {:induction false} ReachesOneMore(ts: seq<Token>, trace: seq<Move>, env: Env, end: seq<Token>, m: Move)
    requires Reaches(ts, trace, env, end)
    requires Enabled(end, m, env.maxTokens) && Sourced(m, end, env)
    ensures Reaches(ts, trace + [m], env, Apply(end, m, env.maxTokens))
    decreases |trace|
  {
    if trace == [] {
      assert (trace + [m])[1..] == [];
    } else {
      ReachesOneMore(Apply(ts, trace[0], env.maxTokens), trace[1..], env, end, m);
      assert (trace + [m])[1..] == trace[1..] + [m];
    }
  }

  /** The corpus packets satisfy the invariant. */
  predicate OthersStrict(env: Env) { forall o | o in env.others :: AllStrict(o) }

  predicate EnvAscii(env: Env) {
    && (forall w | w in env.dict :: AllAscii(w))
    && (forall o | o in env.others :: ConstantsAscii(o))
  }

  /** No run ever produces an invalid token. */
  lemma {:induction false} RunKeepsStrict(ts: seq<Token>, trace: seq<Move>, env: Env, end: seq<Token>)
    requires Reaches(ts, trace, env, end)
    requires AllStrict(ts) && OthersStrict(env)
    ensures AllStrict(end)
    decreases |trace|
  {
    if trace != [] {
      MoveKeepsStrict(ts, trace[0], env.maxTokens);
      RunKeepsStrict(Apply(ts, trace[0], env.maxTokens), trace[1..], env, end);
    }
  }

  /** No run ever exceeds the larger of the token limit and the initial length. */
  lemma {:induction false} RunKeepsBound(ts: seq<Token>, trace: seq<Move>, env: Env, end: seq<Token>)
    requires Reaches(ts, trace, env, end)
    ensures |end| <= Max(|ts|, env.maxTokens)
    decreases |trace|
  {
    if trace != [] {
      MoveKeepsBound(ts, trace[0], env.maxTokens);
      RunKeepsBound(Apply(ts, trace[0], env.maxTokens), trace[1..], env, end);
    }
  }

  lemma {:induction false} SpliceAscii(ts: seq<Token>, i: nat, j: nat, mid: seq<Token>)
    requires i <= j <= |ts| && ConstantsAscii(ts) && ConstantsAscii(mid)
    ensures ConstantsAscii(Splice(ts, i, j, mid))
  {
  }

  lemma {:induction false} UpdateAscii(ts: seq<Token>, idx: nat, t: Token)
    requires idx < |ts| && ConstantsAscii(ts) && (t.Constant? ==> AllAscii(t.data))
    ensures ConstantsAscii(ts[idx := t])
  {
  }

  lemma {:induction false} RangeMovesKeepAscii(ts: seq<Token>, m: Move, env: Env)
    requires TakesRange(m) && ConstantsAscii(ts) && EnvAscii(env)
    requires Enabled(ts, m, env.maxTokens) && Sourced(m, ts, env)
    ensures ConstantsAscii(Apply(ts, m, env.maxTokens))
  {
    match m
    case Copy(lo, hi, at) => SpliceAscii(ts, at, at, ts[lo..hi]);
    case CrossoverInsert(other, lo, hi, at) => SpliceAscii(ts, at, at, other[lo..hi]);
    case CrossoverReplace(other, lo, hi, dstLo, dstHi) => SpliceAscii(ts, dstLo, dstHi, other[lo..hi]);
    case Delete(lo, hi) => SpliceAscii(ts, lo, hi, []);
  }

  lemma {:induction false} InsertMovesKeepAscii(ts: seq<Token>, m: Move, env: Env)
    requires InsertsTokens(m) && ConstantsAscii(ts) && EnvAscii(env)
    requires Enabled(ts, m, env.maxTokens) && Sourced(m, ts, env)
    ensures ConstantsAscii(Apply(ts, m, env.maxTokens))
  {
  }

  lemma {:induction false} TokenMovesKeepAscii(ts: seq<Token>, m: Move, env: Env)
    requires (PutsToken(m) || ChangesData(m)) && ConstantsAscii(ts) && EnvAscii(env)
    requires Enabled(ts, m, env.maxTokens) && Sourced(m, ts, env)
    ensures ConstantsAscii(Apply(ts, m, env.maxTokens))
  {
    var us := Apply(ts, m, env.maxTokens);
    assert us == ts[m.idx := us[m.idx]];
    UpdateAscii(ts, m.idx, us[m.idx]);
  }

  lemma {:induction false} MoveKeepsAscii(ts: seq<Token>, m: Move, env: Env)
    requires ConstantsAscii(ts) && EnvAscii(env)
    requires Enabled(ts, m, env.maxTokens) && Sourced(m, ts, env)
    ensures ConstantsAscii(Apply(ts, m, env.maxTokens))
  {
    if TakesRange(m) {
      RangeMovesKeepAscii(ts, m, env);
    } else if InsertsTokens(m) {
      InsertMovesKeepAscii(ts, m, env);
    } else if PutsToken(m) || ChangesData(m) {
      TokenMovesKeepAscii(ts, m, env);
    } else {
      SwapsKeepTokens(ts, m, env.maxTokens);
      SameTokens(ts, Apply(ts, m, env.maxTokens));
    }
  }

  lemma {:induction false} RunKeepsAscii(ts: seq<Token>, trace: seq<Move>, env: Env, end: seq<Token>)
    requires Reaches(ts, trace, env, end)
    requires ConstantsAscii(ts) && EnvAscii(env)
    ensures ConstantsAscii(end)
    decreases |trace|
  {
    if trace != [] {
      MoveKeepsAscii(ts, trace[0], env);
      RunKeepsAscii(Apply(ts, trace[0], env.maxTokens), trace[1..], env, end);
    }
  }

  /** A parsed stream is where a run may start. */
  lemma {:induction false} ParsedIsStrict(s: seq<Byte>)
    requires Scanner.Parse(s).Ok?
    ensures AllStrict(Scanner.Parse(s).value) && ConstantsAscii(Scanner.Parse(s).value)
  {
    Scanner.ParsePrints(s);
    assert forall t | t in Scanner.Parse(s).value :: Scanned(t);
  }

  /** Printing and parsing again keeps the bytes and reaches canonical form. */
  lemma {:induction false} Reparses(ts: seq<Token>)
    requires AllStrict(ts) && ConstantsAscii(ts)
    ensures var s := Flatten(ts);
            && Scanner.Parse(s).Ok?
            && Canonical(Scanner.Parse(s).value)
            && Flatten(Scanner.Parse(s).value) == s
  {
    StrictFlattenAscii(ts);
    Scanner.ParseOutcome(Flatten(ts));
    Scanner.ParsePrints(Flatten(ts));
  }

  /** From a valid packet with ASCII constants, over an ASCII dictionary and a valid corpus, every run ends in a
      packet that prints as a byte string which parses again, to a canonical list with the same bytes. */
  lemma {:induction false} MutatedPacketsReparse(ts: seq<Token>, trace: seq<Move>, env: Env, end: seq<Token>)
    requires AllStrict(ts) && ConstantsAscii(ts)
    requires Reaches(ts, trace, env, end)
    requires OthersStrict(env) && EnvAscii(env)
    ensures AllStrict(end)
    ensures Scanner.Parse(Flatten(end)).Ok?
    ensures Canonical(Scanner.Parse(Flatten(end)).value)
    ensures Flatten(Scanner.Parse(Flatten(end)).value) == Flatten(end)
  {
    RunKeepsStrict(ts, trace, env, end);
    RunKeepsAscii(ts, trace, env, end);
    Reparses(end);
  }
}
