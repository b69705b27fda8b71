/** The stack of `mutate_packet`, turn by turn, as the draws and the state of the fuzzer decide it. */
module Stacks {
  import opened Bytes
  import opened Tokens
  import opened Random
  import opened Moves
  import opened Draws
  import opened Runs

  datatype MutationResult = Mutated | Skipped | Failed

  /** What one turn of the stack does: report a change or none, or give up with an error. */
  datatype Turn = Changed | Unchanged | Aborted

  /** One turn: the draws it begins and ends at, the list before and after, what it did, and the move it made. */
  datatype Taken = Taken(start: nat, stop: nat, before: seq<Token>, after: seq<Token>, turn: Turn, move: Option<Move>)

  /** The second turn begins where the first one stops, which has not given up. */
  predicate Follows(t: Taken, u: Taken) {
    t.stop == u.start && t.after == u.before && !t.turn.Aborted?
  }

  function MoveOf(t: Taken): seq<Move> { if t.move.Some? then [t.move.value] else [] }

  /** The moves of the turns that made one. */
  function MovesOf(turns: seq<Taken>): seq<Move> {
    if turns == [] then [] else MovesOf(turns[..|turns| - 1]) + MoveOf(turns[|turns| - 1])
  }

  /** The number of turns that draw number k selects. */
  function StackSize(src: Source, k: nat): nat {
    match Pick(src, k, 0, 3)
    case 0 => 2
    case 1 => 4
    case 2 => 8
    case _ => 32
  }

  /** A stack of `size` turns ends early only with a turn that gives up. It fails if and only if there is one, and
      else reports a change if and only if some turn has. */
  ghost predicate StackEnds(turns: seq<Taken>, size: nat, r: MutationResult) {
    && 1 <= |turns| <= size
    && (|turns| < size ==> turns[|turns| - 1].turn.Aborted?)
    && (r == Failed <==> turns[|turns| - 1].turn.Aborted?)
    && (r == Mutated <==> r != Failed && exists t | t in turns :: t.turn.Changed?)
  }

  /** The packets of each testcase; a testcase that cannot be loaded is None. */
  type Corpus = seq<Option<seq<seq<Token>>>>

  /** What decides a stack: the random numbers, what the mutators draw on, and the parts of the fuzzer state that
      are looked up. */
  datatype World = World(src: Source, env: Env, dict: Option<seq<seq<Byte>>>, corpus: Corpus, current: Option<nat>)

  /** Testcase idx of the corpus is asked for, but cannot be loaded. */
  predicate CannotLoad(corpus: Corpus, current: Option<nat>, idx: nat)
    requires idx < |corpus|
  {
    current != Some(idx) && corpus[idx] == None
  }

  /** Testcase idx of the corpus has no packet to offer, or is the current one. */
  predicate NoPartner(corpus: Corpus, current: Option<nat>, idx: nat)
    requires idx < |corpus|
  {
    current == Some(idx) || corpus[idx] == Some([])
  }

  /** A turn that begins with draw number k gives up: a crossover draws a testcase, not the current one, that
      cannot be loaded. */
  predicate AbortsAt(w: World, k: nat) {
    && Pick(w.src, k, 0, 18) in {1, 2}
    && |w.corpus| > 0
    && CannotLoad(w.corpus, w.current, Pick(w.src, k + 1, 0, |w.corpus| - 1))
  }

  /** A turn that begins with draw number k draws a crossover, but with the current testcase or one without
      packets. */
  predicate NoPartnerAt(w: World, k: nat) {
    && Pick(w.src, k, 0, 18) in {1, 2}
    && |w.corpus| > 0
    && NoPartner(w.corpus, w.current, Pick(w.src, k + 1, 0, |w.corpus| - 1))
  }

  /** The packet that a crossover takes whose turn begins with draw number k. */
  function Partner(w: World, k: nat): seq<Token> {
    if w.corpus == [] then []
    else
      var testcase := w.corpus[Pick(w.src, k + 1, 0, |w.corpus| - 1)];
      if testcase.Some? && testcase.value != [] then testcase.value[Pick(w.src, k + 2, 0, |testcase.value| - 1)]
      else []
  }

  /** What a turn is that begins with draw number t.start: it gives up, does nothing, or calls the mutator that
      the first draw selects, behind the two draws for the partner of a crossover. */
  ghost predicate TurnTaken(w: World, t: Taken) {
    var choice := Pick(w.src, t.start, 0, 18);
    && (t.turn.Changed? <==> t.move.Some?)
    && (t.turn.Aborted? <==> AbortsAt(w, t.start))
    && (if t.move.Some? then Outcome(t.before, t.after, true, t.move.value, w.env.maxTokens)
        else t.after == t.before)
    && if AbortsAt(w, t.start) || NoPartnerAt(w, t.start) then t.move == None && t.stop == t.start + 2
       else if choice >= 16 && w.dict == None then t.move == None && t.stop == t.start + 1
       else if choice in {1, 2} then
         Decides(choice, w.src, t.start + 3, t.before, w.env, Partner(w, t.start), t.move, t.stop)
       else
         Decides(choice, w.src, t.start + 1, t.before, w.env, [], t.move, t.stop)
  }

  /** A turn that needs no other packet. */
  lemma {:induction false} OwnTurnTaken(w: World, t: Taken, choice: nat)
    requires choice == Pick(w.src, t.start, 0, 18) && choice !in {1, 2}
    requires t.turn == if t.move.Some? then Changed else Unchanged
    requires if t.move.Some? then Outcome(t.before, t.after, true, t.move.value, w.env.maxTokens)
             else t.after == t.before
    requires if choice >= 16 && w.dict == None then t.move == None && t.stop == t.start + 1
             else Decides(choice, w.src, t.start + 1, t.before, w.env, [], t.move, t.stop)
    ensures TurnTaken(w, t)
  {
  }

  /** A turn that looks for a partner. */
  lemma {:induction false} CrossoverTaken(w: World, t: Taken, choice: nat, idx: nat)
    requires choice == Pick(w.src, t.start, 0, 18) && choice in {1, 2} && w.corpus != []
    requires idx == Pick(w.src, t.start + 1, 0, |w.corpus| - 1)
    requires t.turn.Changed? <==> t.move.Some?
    requires t.turn.Aborted? <==> CannotLoad(w.corpus, w.current, idx)
    requires if t.move.Some? then Outcome(t.before, t.after, true, t.move.value, w.env.maxTokens)
             else t.after == t.before
    requires if CannotLoad(w.corpus, w.current, idx) || NoPartner(w.corpus, w.current, idx) then
               t.move == None && t.stop == t.start + 2
             else
               Decides(choice, w.src, t.start + 3, t.before, w.env, Partner(w, t.start), t.move, t.stop)
    ensures TurnTaken(w, t)
  {
  }

  /** The turns follow one another, in the draws and in the list; only the last one may give up. */
  ghost predicate Stack(w: World, turns: seq<Taken>, start: nat, before: seq<Token>, stop: nat, after: seq<Token>) {
    && (forall t {:trigger TurnTaken(w, t)} | t in turns :: TurnTaken(w, t))
    && (forall i, j {:trigger Follows(turns[i], turns[j])} | 0 <= i && j == i + 1 && j < |turns| ::
          Follows(turns[i], turns[j]))
    && if turns == [] then start == stop && before == after
       else
         && turns[0].start == start && turns[0].before == before
         && turns[|turns| - 1].stop == stop && turns[|turns| - 1].after == after
  }

  /** A stack that has come to its end with result r: it was meant to have `size` turns, and failed only on a
      testcase that does not load. */
  ghost predicate StackDone(w: World, turns: seq<Taken>, start: nat, before: seq<Token>, stop: nat,
                            after: seq<Token>, size: nat, r: MutationResult)
  {
    && Stack(w, turns, start, before, stop, after)
    && StackEnds(turns, size, r)
    && (r == Failed ==> AbortsAt(w, turns[|turns| - 1].start))
  }

  /** The state of the loop: the turns so far, and the run of the state machine that they make. */
  ghost predicate Underway(w: World, turns: seq<Taken>, trace: seq<Move>, mutated: bool,
                           start: nat, before: seq<Token>, stop: nat, after: seq<Token>)
  {
    && Stack(w, turns, start, before, stop, after)
    && trace == MovesOf(turns) && |trace| <= |turns|
    && Reaches(before, trace, w.env, after)
    && |after| <= Max(|before|, w.env.maxTokens)
    && (mutated <==> trace != [])
    && (mutated <==> exists t | t in turns :: t.turn.Changed?)
  }

  lemma {:induction false} OneTurnMore(w: World, turns: seq<Taken>, trace: seq<Move>, mutated: bool,
                                       start: nat, before: seq<Token>, t: Taken)
    requires Underway(w, turns, trace, mutated, start, before, t.start, t.before)
    requires TurnTaken(w, t) && (t.move.Some? ==> Sourced(t.move.value, t.before, w.env))
    requires forall u | u in turns :: !u.turn.Aborted?
    ensures Underway(w, turns + [t], trace + MoveOf(t), mutated || t.move.Some?, start, before, t.stop, t.after)
  {
    assert (turns + [t])[..|turns|] == turns;
    RunGrows(trace, w.env, before, t);
    RunKeepsBound(before, trace + MoveOf(t), w.env, t.after);
    StackGrows(w, turns, start, before, t);
    SomeChange(turns, t);
  }

  lemma {:induction false} StackFinished(w: World, turns: seq<Taken>, trace: seq<Move>, mutated: bool, start: nat,
                                         before: seq<Token>, stop: nat, after: seq<Token>, size: nat)
      returns (r: MutationResult)
    requires Underway(w, turns, trace, mutated, start, before, stop, after) && 1 <= |turns| <= size
    requires |turns| < size ==> turns[|turns| - 1].turn.Aborted?
    ensures StackDone(w, turns, start, before, stop, after, size, r)
    ensures r == if turns[|turns| - 1].turn.Aborted? then Failed else if mutated then Mutated else Skipped
    ensures r == Skipped ==> trace == [] && after == before
  {
    var last := turns[|turns| - 1];
    assert last in turns && TurnTaken(w, last);
    r := if last.turn.Aborted? then Failed else if mutated then Mutated else Skipped;
  }

  lemma {:induction false} RunGrows(trace: seq<Move>, env: Env, before: seq<Token>, t: Taken)
    requires Reaches(before, trace, env, t.before)
    requires if t.move.Some? then Outcome(t.before, t.after, true, t.move.value, env.maxTokens)
                                  && Sourced(t.move.value, t.before, env)
             else t.after == t.before
    ensures Reaches(before, trace + MoveOf(t), env, t.after)
  {
    if t.move.Some? {
      ReachesOneMore(before, trace, env, t.before, t.move.value);
    } else {
      assert trace + [] == trace;
    }
  }

  lemma {:induction false} SomeChange(turns: seq<Taken>, t: Taken)
    ensures (exists u | u in turns + [t] :: u.turn.Changed?) <==>
            (exists u | u in turns :: u.turn.Changed?) || t.turn.Changed?
  {
    assert forall u | u in turns + [t] :: u in turns || u == t;
    assert t in turns + [t] && forall u | u in turns :: u in turns + [t];
  }

  lemma {:induction false} StackGrows(w: World, turns: seq<Taken>, start: nat, before: seq<Token>, t: Taken)
    requires Stack(w, turns, start, before, t.start, t.before) && TurnTaken(w, t)
    requires forall u | u in turns :: !u.turn.Aborted?
    ensures Stack(w, turns + [t], start, before, t.stop, t.after)
  {
    var more := turns + [t];
    forall i, j | 0 <= i && j == i + 1 && j < |more|
      ensures Follows(more[i], more[j])
    {
      if j < |turns| {
        assert Follows(turns[i], turns[j]);
      }
    }
  }

  /** A turn is decided by where it begins: the draws, the list and the state of the fuzzer leave no choice. */
  lemma {:induction false} TurnIsDetermined(w: World, t: Taken, u: Taken)
    requires TurnTaken(w, t) && TurnTaken(w, u)
    requires t.start == u.start && t.before == u.before
    ensures t == u
  {
    var choice := Pick(w.src, t.start, 0, 18);
    if AbortsAt(w, t.start) || NoPartnerAt(w, t.start) || (choice >= 16 && w.dict == None) {
    } else if choice in {1, 2} {
      CallIsDetermined(choice, w.src, t.start + 3, t.before, w.env, Partner(w, t.start),
                       t.move, t.stop, u.move, u.stop);
    } else {
      CallIsDetermined(choice, w.src, t.start + 1, t.before, w.env, [], t.move, t.stop, u.move, u.stop);
    }
  }

  /** And so is the whole stack, turn by turn: of two stacks that begin alike one is the beginning of the other. */
  lemma {:induction false} StackIsDetermined(w: World, ts: seq<Taken>, us: seq<Taken>, start: nat,
                                             before: seq<Token>, stop: nat, after: seq<Token>,
                                             stop': nat, after': seq<Token>, k: nat)
    requires Stack(w, ts, start, before, stop, after) && Stack(w, us, start, before, stop', after')
    requires k < |ts| && k < |us|
    ensures ts[k] == us[k]
  {
    assert ts[k] in ts && us[k] in us;
    if k > 0 {
      StackIsDetermined(w, ts, us, start, before, stop, after, stop', after', k - 1);
      assert Follows(ts[k - 1], ts[k]) && Follows(us[k - 1], us[k]);
    }
    TurnIsDetermined(w, ts[k], us[k]);
  }
}
