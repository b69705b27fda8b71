/** `TokenStreamMutator::mutate_packet`: a stack of random token mutators on one packet. */
module PacketMutator {
  import opened Bytes
  import opened Tokens
  import opened Random
  import opened Moves
  import opened Draws
  import opened Runs
  import opened Stacks
  import opened Mutators
  import opened WordSwap

  /** The parts of the fuzzer state that mutators consult. A testcase of the corpus that cannot be loaded is None. */
  class FuzzState {
    const rand: Rand
    var dict: Option<seq<seq<Byte>>>
    var corpus: Corpus
    var current: Option<nat>

    constructor (rand: Rand, dict: Option<seq<seq<Byte>>>, corpus: Corpus, current: Option<nat>)
      ensures this.rand == rand && this.dict == dict && this.corpus == corpus && this.current == current
    {
      this.rand, this.dict, this.corpus, this.current := rand, dict, corpus, current;
    }
  }

  const STACKS: seq<nat> := [2, 4, 8, 32]

  /** How far `mutate_packet` lets a token grow by copies of a character, and about how many bytes of copies of a
      token it inserts. */
  const CHAR_AMOUNT: nat := 16
  const TOKEN_AMOUNT: nat := 4

  /** The two repeating mutators take the amounts that `mutate_packet` gives them. */
  predicate Amounts(m: Move) {
    && (m.RepeatChar? ==> m.amount == CHAR_AMOUNT)
    && (m.RepeatToken? ==> m.amount == TOKEN_AMOUNT)
  }

  function CorpusPackets(corpus: Corpus): seq<seq<Token>> {
    if corpus == [] then []
    else (if corpus[0].Some? then corpus[0].value else []) + CorpusPackets(corpus[1..])
  }

  lemma {:induction false} PacketInCorpus(corpus: Corpus, i: nat, k: nat)
    requires i < |corpus| && corpus[i].Some? && k < |corpus[i].value|
    ensures corpus[i].value[k] in CorpusPackets(corpus)
  {
    if i > 0 {
      PacketInCorpus(corpus[1..], i - 1, k);
    }
  }

  function Dictionary(dict: Option<seq<seq<Byte>>>): seq<seq<Byte>> {
    if dict.Some? then dict.value else []
  }

  /** The mutators that take no token limit make the same move under every limit. */
  lemma {:induction false} LimitFree(before: seq<Token>, after: seq<Token>, mutated: bool, m: Move, max: nat)
    requires Outcome(before, after, mutated, m, 0)
    requires m.Delete? || m.Flip? || m.Interesting? || m.RandomReplace? || m.RepeatChar? || m.SpecialInsert?
          || m.SpecialReplace? || m.SwapTokens? || m.SwapWords? || m.Truncate? || m.DictReplace? || m.SwapConstants?
    ensures Outcome(before, after, mutated, m, max)
  {
  }

  /** A packet of another testcase: None if the draw falls on the current testcase or on one without packets. */
  method PickOther(rand: Rand, state: FuzzState) returns (other: Option<seq<Token>>, aborted: bool)
    requires |state.corpus| > 0
    modifies rand
    ensures other.Some? ==> !aborted && other.value in CorpusPackets(state.corpus)
    ensures rand.pos == old(rand.pos) + if other.Some? then 2 else 1
    ensures var idx := rand.Draw(old(rand.pos), 0, |state.corpus| - 1);
            && (aborted <==> CannotLoad(state.corpus, state.current, idx))
            && (other.Some? <==>
                  !CannotLoad(state.corpus, state.current, idx) && !NoPartner(state.corpus, state.current, idx))
            && (other.Some? ==>
                  other.value == state.corpus[idx].value[
                    rand.Draw(old(rand.pos) + 1, 0, |state.corpus[idx].value| - 1)])
  {
    var idx := rand.Between(0, |state.corpus| - 1);
    if state.current == Some(idx) {
      return None, false;
    }
    var testcase := state.corpus[idx];
    if testcase == None {
      return None, true;
    }
    if |testcase.value| == 0 {
      return None, false;
    }
    var k := rand.Between(0, |testcase.value| - 1);
    PacketInCorpus(state.corpus, idx, k);
    other, aborted := Some(testcase.value[k]), false;
  }

  class TokenStreamMutator {
    const maxTokens: nat
    const rand: Rand

    constructor (maxTokens: nat, rand: Rand)
      ensures this.maxTokens == maxTokens && this.rand == rand
    {
      this.maxTokens, this.rand := maxTokens, rand;
    }

    ghost function EnvOf(state: FuzzState): Env
      reads state
    {
      Env(maxTokens, Dictionary(state.dict), CorpusPackets(state.corpus), CHAR_AMOUNT, TOKEN_AMOUNT)
    }

    ghost function WorldOf(state: FuzzState): World
      reads state
    {
      World(rand.source, EnvOf(state), state.dict, state.corpus, state.current)
    }

    /** The arms that observe the token limit. */
    method LimitedTurn(packet: TokenStream, choice: nat, ghost env: Env) returns (mutated: bool, ghost move: Move)
      requires choice in {0, 6, 9, 12} && env.maxTokens == maxTokens && env.tokenAmount == TOKEN_AMOUNT
      modifies rand, packet
      ensures Selector(move) == choice && Amounts(move)
      ensures Outcome(old(packet.tokens), packet.tokens, mutated, move, maxTokens)
      ensures Decides(choice, rand.source, old(rand.pos), old(packet.tokens), env, [], Made(mutated, move), rand.pos)
    {
      match choice {
        case 0 => mutated, move := MutateCopy(rand, packet, maxTokens);
        case 6 => mutated, move := MutateRandomInsert(rand, packet, maxTokens);
        case 9 => mutated, move := MutateRepeatToken(rand, packet, TOKEN_AMOUNT, maxTokens);
        case _ => mutated, move := MutateSplit(rand, packet, maxTokens);
      }
      AsChosen(choice, rand.source, old(rand.pos), old(packet.tokens), env, [], Made(mutated, move), rand.pos);
    }

    /** The arms that need nothing but the packet: those that rearrange the list, and those that change a token. */
    method ListTurn(packet: TokenStream, choice: nat, ghost env: Env) returns (mutated: bool, ghost move: Move)
      requires choice in {3, 13, 14}
      requires |packet.tokens| < USIZE_VALUES
      modifies rand, packet
      ensures Selector(move) == choice && Amounts(move)
      ensures Outcome(old(packet.tokens), packet.tokens, mutated, move, 0)
      ensures Decides(choice, rand.source, old(rand.pos), old(packet.tokens), env, [], Made(mutated, move), rand.pos)
    {
      match choice {
        case 3 => mutated, move := MutateDelete(rand, packet);
        case 13 => mutated, move := MutateSwapTokens(rand, packet);
        case _ => mutated, move := MutateSwapWords(rand, packet);
      }
      AsChosen(choice, rand.source, old(rand.pos), old(packet.tokens), env, [], Made(mutated, move), rand.pos);
    }

    method TokenTurn(packet: TokenStream, choice: nat, ghost env: Env) returns (mutated: bool, ghost move: Move)
      requires choice in {4, 5, 7, 8} && env.charAmount == CHAR_AMOUNT
      modifies rand, packet
      ensures Selector(move) == choice && Amounts(move)
      ensures Outcome(old(packet.tokens), packet.tokens, mutated, move, 0)
      ensures Decides(choice, rand.source, old(rand.pos), old(packet.tokens), env, [], Made(mutated, move), rand.pos)
    {
      match choice {
        case 4 => mutated, move := MutateFlip(rand, packet);
        case 5 => mutated, move := MutateInteresting(rand, packet);
        case 7 => mutated, move := MutateRandomReplace(rand, packet);
        case _ => mutated, move := MutateRepeatChar(rand, packet, CHAR_AMOUNT);
      }
      AsChosen(choice, rand.source, old(rand.pos), old(packet.tokens), env, [], Made(mutated, move), rand.pos);
    }

    method TextTurn(packet: TokenStream, choice: nat, ghost env: Env) returns (mutated: bool, ghost move: Move)
      requires choice in {10, 11, 15}
      modifies rand, packet
      ensures Selector(move) == choice && Amounts(move)
      ensures Outcome(old(packet.tokens), packet.tokens, mutated, move, 0)
      ensures Decides(choice, rand.source, old(rand.pos), old(packet.tokens), env, [], Made(mutated, move), rand.pos)
    {
      match choice {
        case 10 => mutated, move := MutateSpecialInsert(rand, packet);
        case 11 => mutated, move := MutateSpecialReplace(rand, packet);
        case _ => mutated, move := MutateTruncate(rand, packet);
      }
      AsChosen(choice, rand.source, old(rand.pos), old(packet.tokens), env, [], Made(mutated, move), rand.pos);
    }

    method CrossWith(packet: TokenStream, other: seq<Token>, choice: nat, ghost env: Env)
        returns (mutated: bool, ghost move: Move)
      requires (choice == 1 || choice == 2) && env.maxTokens == maxTokens
      modifies rand, packet
      ensures Selector(move) == choice && Amounts(move)
      ensures mutated ==> (move.CrossoverInsert? || move.CrossoverReplace?) && move.other == other
      ensures Outcome(old(packet.tokens), packet.tokens, mutated, move, maxTokens)
      ensures Decides(choice, rand.source, old(rand.pos), old(packet.tokens), env, other,
                      Made(mutated, move), rand.pos)
    {
      if choice == 1 {
        mutated, move := MutateCrossoverInsert(rand, packet, other, maxTokens);
      } else {
        mutated, move := MutateCrossoverReplace(rand, packet, other, maxTokens);
      }
      AsChosen(choice, rand.source, old(rand.pos), old(packet.tokens), env, other, Made(mutated, move), rand.pos);
    }

    /** The arms that take tokens from another packet, in a turn that begins with draw number `start`. */
    method CrossoverTurn(state: FuzzState, packet: TokenStream, choice: nat, ghost start: nat)
        returns (turn: Turn, ghost move: Move)
      requires choice in {1, 2} && choice == rand.Draw(start, 0, 18) && rand.pos == start + 1
      requires |state.corpus| > 0
      modifies rand, packet
      ensures TurnTaken(WorldOf(state), Taken(start, rand.pos, old(packet.tokens), packet.tokens, turn,
                                              Made(turn.Changed?, move)))
      ensures Amounts(move)
      ensures turn.Changed? ==>
                && Selector(move) == choice
                && Sourced(move, old(packet.tokens), EnvOf(state))
                && Outcome(old(packet.tokens), packet.tokens, true, move, maxTokens)
      ensures turn.Changed? ==>
                var testcase := state.corpus[rand.Draw(start + 1, 0, |state.corpus| - 1)];
                && testcase.Some? && testcase.value != []
                && (move.CrossoverInsert? || move.CrossoverReplace?)
                && move.other == testcase.value[rand.Draw(start + 2, 0, |testcase.value| - 1)]
    {
      ghost var w, before := WorldOf(state), packet.tokens;
      move := Delete(0, 0);
      var other, aborted := PickOther(rand, state);
      var mutated := false;
      if other.Some? {
        mutated, move := CrossWith(packet, other.value, choice, EnvOf(state));
      }
      turn := if aborted then Aborted else if mutated then Changed else Unchanged;
      CrossoverTaken(w, Taken(start, rand.pos, before, packet.tokens, turn, Made(turn.Changed?, move)), choice,
                     rand.Draw(start + 1, 0, |state.corpus| - 1));
    }

    /** The arms that need a dictionary. */
    method DictTurn(state: FuzzState, packet: TokenStream, choice: nat) returns (mutated: bool, ghost move: Move)
      requires 16 <= choice <= 18
      modifies rand, packet
      ensures Amounts(move)
      ensures mutated ==>
                && Selector(move) == choice
                && Sourced(move, old(packet.tokens), EnvOf(state))
                && Outcome(old(packet.tokens), packet.tokens, true, move, maxTokens)
      ensures !mutated ==> packet.tokens == old(packet.tokens)
      ensures if state.dict == None then !mutated && rand.pos == old(rand.pos)
              else Decides(choice, rand.source, old(rand.pos), old(packet.tokens), EnvOf(state), [],
                           Made(mutated, move), rand.pos)
    {
      move := Delete(0, 0);
      if state.dict == None {
        return false, move;
      }
      mutated, move := WordTurn(packet, state.dict.value, choice, EnvOf(state));
    }

    method WordTurn(packet: TokenStream, dict: seq<seq<Byte>>, choice: nat, ghost env: Env)
        returns (mutated: bool, ghost move: Move)
      requires 16 <= choice <= 18 && env.maxTokens == maxTokens && env.dict == dict
      modifies rand, packet
      ensures Selector(move) == choice && Amounts(move)
      ensures mutated ==> Sourced(move, old(packet.tokens), env)
      ensures Outcome(old(packet.tokens), packet.tokens, mutated, move, maxTokens)
      ensures Decides(choice, rand.source, old(rand.pos), old(packet.tokens), env, [], Made(mutated, move), rand.pos)
    {
      ghost var before := packet.tokens;
      if choice == 16 {
        mutated, move := MutateDictInsert(rand, packet, dict, maxTokens);
      } else if choice == 17 {
        mutated, move := MutateDictReplace(rand, packet, dict);
        LimitFree(before, packet.tokens, mutated, move, maxTokens);
      } else {
        mutated, move := MutateSwapConstants(rand, packet, dict);
        LimitFree(before, packet.tokens, mutated, move, maxTokens);
      }
      AsChosen(choice, rand.source, old(rand.pos), before, env, [], Made(mutated, move), rand.pos);
    }

    /** One turn of the loop: the mutator drawn is the one that acts, on the operands drawn, and it makes the move
        that its draws decide or none. */
    method MutateOnce(state: FuzzState, packet: TokenStream) returns (turn: Turn, ghost move: Move)
      requires |state.corpus| > 0 && |packet.tokens| < USIZE_VALUES
      modifies rand, packet
      ensures TurnTaken(WorldOf(state), Taken(old(rand.pos), rand.pos, old(packet.tokens), packet.tokens, turn,
                                              Made(turn.Changed?, move)))
      ensures turn.Changed? ==>
                && Selector(move) == rand.Draw(old(rand.pos), 0, 18)
                && Sourced(move, old(packet.tokens), EnvOf(state))
                && Outcome(old(packet.tokens), packet.tokens, true, move, maxTokens)
      ensures turn.Changed? && (move.CrossoverInsert? || move.CrossoverReplace?) ==>
                var p := old(rand.pos);
                var testcase := state.corpus[rand.Draw(p + 1, 0, |state.corpus| - 1)];
                && testcase.Some? && testcase.value != []
                && move.other == testcase.value[rand.Draw(p + 2, 0, |testcase.value| - 1)]
      ensures !turn.Changed? ==> packet.tokens == old(packet.tokens)
      ensures Amounts(move)
      ensures turn.Aborted? <==> AbortsAt(WorldOf(state), old(rand.pos))
    {
      ghost var start := rand.pos;
      var choice := rand.Between(0, 18);
      if choice == 1 || choice == 2 {
        turn, move := CrossoverTurn(state, packet, choice, start);
      } else {
        turn, move := OwnTurn(state, packet, choice, start);
      }
    }

    /** The arms that need no other packet, in a turn that begins with draw number `start`. */
    method OwnTurn(state: FuzzState, packet: TokenStream, choice: nat, ghost start: nat)
        returns (turn: Turn, ghost move: Move)
      requires choice !in {1, 2} && choice == rand.Draw(start, 0, 18) && rand.pos == start + 1
      requires |packet.tokens| < USIZE_VALUES
      modifies rand, packet
      ensures TurnTaken(WorldOf(state), Taken(start, rand.pos, old(packet.tokens), packet.tokens, turn,
                                              Made(turn.Changed?, move)))
      ensures Amounts(move)
      ensures turn.Changed? ==>
                && Selector(move) == choice
                && Sourced(move, old(packet.tokens), EnvOf(state))
                && Outcome(old(packet.tokens), packet.tokens, true, move, maxTokens)
    {
      ghost var w, before := WorldOf(state), packet.tokens;
      var mutated;
      mutated, move := OwnMutator(state, packet, choice);
      turn := if mutated then Changed else Unchanged;
      OwnTurnTaken(w, Taken(start, rand.pos, before, packet.tokens, turn, Made(mutated, move)), choice);
    }

    method OwnMutator(state: FuzzState, packet: TokenStream, choice: nat) returns (mutated: bool, ghost move: Move)
      requires choice <= 18 && choice !in {1, 2} && |packet.tokens| < USIZE_VALUES
      modifies rand, packet
      ensures Amounts(move)
      ensures mutated ==>
                && Selector(move) == choice
                && Sourced(move, old(packet.tokens), EnvOf(state))
                && Outcome(old(packet.tokens), packet.tokens, true, move, maxTokens)
      ensures !mutated ==> packet.tokens == old(packet.tokens)
      ensures if choice >= 16 && state.dict == None then !mutated && rand.pos == old(rand.pos)
              else Decides(choice, rand.source, old(rand.pos), old(packet.tokens), EnvOf(state), [],
                           Made(mutated, move), rand.pos)
    {
      ghost var before, env := packet.tokens, EnvOf(state);
      if choice >= 16 {
        mutated, move := DictTurn(state, packet, choice);
      } else if choice == 0 || choice == 6 || choice == 9 || choice == 12 {
        mutated, move := LimitedTurn(packet, choice, env);
      } else {
        if choice == 3 || choice == 13 || choice == 14 {
          mutated, move := ListTurn(packet, choice, env);
        } else if choice == 10 || choice == 11 || choice == 15 {
          mutated, move := TextTurn(packet, choice, env);
        } else {
          mutated, move := TokenTurn(packet, choice, env);
        }
        LimitFree(before, packet.tokens, mutated, move, maxTokens);
      }
    }

    /** The whole stack: exactly as many turns as drawn unless one gives up, each beginning where the previous one
        stopped. The turns that change the packet are a run of the state machine, and decide the result. */
    method MutatePacket(state: FuzzState, packet: TokenStream)
        returns (r: MutationResult, ghost trace: seq<Move>, ghost turns: seq<Taken>)
      requires |state.corpus| > 0 && state.rand != rand
      requires |packet.tokens| < USIZE_VALUES && maxTokens < USIZE_VALUES
      modifies rand, state.rand, packet
      ensures StackDone(WorldOf(state), turns, old(rand.pos), old(packet.tokens), rand.pos, packet.tokens,
                        StackSize(state.rand.source, old(state.rand.pos)), r)
      ensures state.rand.pos == old(state.rand.pos) + 1
      ensures trace == MovesOf(turns)
      ensures Reaches(old(packet.tokens), trace, EnvOf(state), packet.tokens)
      ensures |trace| <= StackSize(state.rand.source, old(state.rand.pos))
      ensures r == Skipped ==> trace == [] && packet.tokens == old(packet.tokens)
      ensures r == Mutated ==> trace != []
      ensures |packet.tokens| <= Max(|old(packet.tokens)|, maxTokens)
      ensures AllStrict(old(packet.tokens)) && OthersStrict(EnvOf(state)) ==> AllStrict(packet.tokens)
    {
      ghost var w, before, start := WorldOf(state), packet.tokens, rand.pos;
      var choice := state.rand.Between(0, 3);
      var aborted, mutated;
      var size := STACKS[choice];
      aborted, mutated, trace, turns := TakeTurns(state, packet, size);
      RunInvariants(before, trace, w.env, packet.tokens);
      ghost var result := StackFinished(w, turns, trace, mutated, start, before, rand.pos, packet.tokens, size);
      r := if aborted then Failed else if mutated then Mutated else Skipped;
    }

    /** The loop of `mutate_packet`, left early by a turn that gives up. */
    method TakeTurns(state: FuzzState, packet: TokenStream, size: nat)
        returns (aborted: bool, mutated: bool, ghost trace: seq<Move>, ghost turns: seq<Taken>)
      requires |state.corpus| > 0 && size > 0
      requires |packet.tokens| < USIZE_VALUES && maxTokens < USIZE_VALUES
      modifies rand, packet
      ensures Underway(WorldOf(state), turns, trace, mutated, old(rand.pos), old(packet.tokens),
                       rand.pos, packet.tokens)
      ensures 1 <= |turns| <= size && (|turns| < size ==> aborted)
      ensures aborted <==> turns[|turns| - 1].turn.Aborted?
    {
      ghost var w, before, start := WorldOf(state), packet.tokens, rand.pos;
      mutated, trace, turns := false, [], [];
      for i := 0 to size
        invariant Underway(w, turns, trace, mutated, start, before, rand.pos, packet.tokens)
        invariant |turns| == i && forall t | t in turns :: !t.turn.Aborted?
        invariant w == WorldOf(state)
      {
        var turn: Turn;
        ghost var p, end, move := rand.pos, packet.tokens, Delete(0, 0);
        turn, move := MutateOnce(state, packet);
        ghost var taken := Taken(p, rand.pos, end, packet.tokens, turn, Made(turn.Changed?, move));
        OneTurnMore(w, turns, trace, mutated, start, before, taken);
        turns := turns + [taken];
        trace := trace + MoveOf(taken);
        mutated := mutated || turn.Changed?;
        if turn.Aborted? {
          return true, mutated, trace, turns;
        }
      }
      aborted := false;
    }
  }

  lemma {:induction false} RunInvariants(ts: seq<Token>, trace: seq<Move>, env: Env, end: seq<Token>)
    requires Reaches(ts, trace, env, end)
    ensures |end| <= Max(|ts|, env.maxTokens)
    ensures AllStrict(ts) && OthersStrict(env) ==> AllStrict(end)
  {
    RunKeepsBound(ts, trace, env, end);
    if AllStrict(ts) && OthersStrict(env) {
      RunKeepsStrict(ts, trace, env, end);
    }
  }
}
