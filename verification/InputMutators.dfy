/** The packet mutators, which edit the packet vector of an input, as a second state machine on top of the
    token mutators. */
module InputMutators {
  import opened Bytes
  import opened Tokens
  import opened Random
  import opened TokenMakers
  import opened Moves
  import opened Runs
  import opened Framing
  import opened Stacks
  import opened PacketMutator
  import WordSwap
  import Templates
  import Words

  /** One change of the packet vector, with the outcomes of its random choices. */
  datatype InputMove =
    | CopyPacket(from: nat, to: nat)
    | DeletePacket(idx: nat)
    | RepeatPacket(idx: nat, count: nat)
    | SwapPackets(a: nat, b: nat)
    | MutateContent(idx: nat, trace: seq<Move>, result: seq<Token>)
    | InsertRandom(at: nat, tokens: seq<Token>)
    | CrossPacket(at: nat, tokens: seq<Token>)
    | Generate(at: nat, template: nat, packets: seq<seq<Token>>)

  /** The limits of the packet mutators, and what the token mutators draw on. */
  datatype Limits = Limits(minPackets: nat, maxPackets: nat, env: Env)

  function Streams(tss: seq<seq<Token>>): (ps: seq<Packet>)
    ensures |ps| == |tss|
    ensures forall i | 0 <= i < |tss| :: ps[i] == Stream(tss[i])
  {
    seq(|tss|, i requires 0 <= i < |tss| => Stream(tss[i]))
  }

  /** What `create_random_packet` returns: 1 to 16 fresh tokens of at most 8 bytes, whitespace of at most 4. */
  predicate RandomPacket(ts: seq<Token>) {
    1 <= |ts| <= 16 && forall t | t in ts :: Fresh(t, if t.Whitespace? then 4 else 8)
  }

  /** Part t is drawn from draw number k up to, and without, draw number next. */
  ghost predicate PartBetween(src: Source, k: nat, next: nat, t: Token) {
    PartDrawn(src, k, t) && next == k + DrawsOf(src, k, t)
  }

  /** The tokens are drawn one after the other: token i from draw number starts[i] on. */
  ghost predicate PartsDrawn(src: Source, starts: seq<nat>, ts: seq<Token>) {
    && |starts| == |ts| + 1
    && forall i, j | 0 <= i && j == i + 1 && j < |starts| :: PartBetween(src, starts[i], starts[j], ts[i])
  }

  ghost predicate InputEnabled(ps: seq<Packet>, m: InputMove, lim: Limits) {
    match m
    case CopyPacket(from, to) => |ps| < lim.maxPackets && from < |ps| && to <= |ps|
    case DeletePacket(idx) => idx < |ps| && lim.minPackets < |ps|
    case RepeatPacket(idx, count) => idx < |ps| && 1 <= count <= lim.maxPackets - |ps|
    case SwapPackets(a, b) => a < |ps| && b < |ps| && a != b
    case MutateContent(idx, trace, result) =>
      idx < |ps| && ps[idx].Stream? && Reaches(ps[idx].tokens, trace, lim.env, result)
    case InsertRandom(at, tokens) => at <= |ps| < lim.maxPackets && RandomPacket(tokens)
    case CrossPacket(at, tokens) => at <= |ps| < lim.maxPackets && tokens in lim.env.others
    case Generate(at, template, packets) =>
      at <= |ps| < lim.maxPackets && template <= 17 && Templates.ParsedFrom(packets, Templates.Template(template))
  }

  function Insert(ps: seq<Packet>, at: nat, more: seq<Packet>): (r: seq<Packet>)
    requires at <= |ps|
    ensures |r| == |ps| + |more|
  {
    ps[..at] + more + ps[at..]
  }

  ghost function InputApply(ps: seq<Packet>, m: InputMove, lim: Limits): seq<Packet>
    requires InputEnabled(ps, m, lim)
  {
    match m
    case CopyPacket(from, to) => Insert(ps, to, [ps[from]])
    case DeletePacket(idx) => ps[..idx] + ps[idx + 1..]
    case RepeatPacket(idx, count) => Insert(ps, idx, Repeat(ps[idx], count))
    case SwapPackets(a, b) => Words.Exchange(ps, a, b)
    case MutateContent(idx, _, result) => ps[idx := Stream(result)]
    case InsertRandom(at, tokens) => Insert(ps, at, [Stream(tokens)])
    case CrossPacket(at, tokens) => Insert(ps, at, [Stream(tokens)])
    case Generate(at, _, packets) => Insert(ps, at, Streams(packets))
  }

  ghost predicate InputReaches(ps: seq<Packet>, run: seq<InputMove>, lim: Limits, end: seq<Packet>)
    decreases |run|
  {
    if run == [] then ps == end
    else InputEnabled(ps, run[0], lim) && InputReaches(InputApply(ps, run[0], lim), run[1..], lim, end)
  }

  // ---------- Safety of whole runs ----------

  lemma {:induction false} CountStep(ps: seq<Packet>, m: InputMove, lim: Limits)
    requires InputEnabled(ps, m, lim)
    ensures |InputApply(ps, m, lim)| <= Max(|ps|, lim.maxPackets + 3)
    ensures |ps| >= lim.minPackets ==> |InputApply(ps, m, lim)| >= lim.minPackets
    ensures !m.Generate? ==> |InputApply(ps, m, lim)| <= Max(|ps|, lim.maxPackets)
  {
  }

  /** The packet count stays within the larger of its initial value and the limit plus three, and once it has
      reached the minimum it never falls below it. */
  lemma {:induction false} CountIsSafe(ps: seq<Packet>, run: seq<InputMove>, lim: Limits, end: seq<Packet>)
    requires InputReaches(ps, run, lim, end)
    ensures |end| <= Max(|ps|, lim.maxPackets + 3)
    ensures |ps| >= lim.minPackets ==> |end| >= lim.minPackets
    ensures (forall m | m in run :: !m.Generate?) ==> |end| <= Max(|ps|, lim.maxPackets)
    decreases |run|
  {
    if run != [] {
      CountStep(ps, run[0], lim);
      CountIsSafe(InputApply(ps, run[0], lim), run[1..], lim, end);
    }
  }

  /** The count never exceeds the limit on the way. */
  ghost predicate StaysWithin(ps: seq<Packet>, run: seq<InputMove>, lim: Limits, end: seq<Packet>)
    requires InputReaches(ps, run, lim, end)
    decreases |run|
  {
    && |ps| <= lim.maxPackets
    && (run != [] ==> StaysWithin(InputApply(ps, run[0], lim), run[1..], lim, end))
  }

  /** Wherever the run generates packets, the template has no more of them than there is room for. */
  ghost predicate TemplatesFit(ps: seq<Packet>, run: seq<InputMove>, lim: Limits, end: seq<Packet>)
    requires InputReaches(ps, run, lim, end)
    decreases |run|
  {
    run != [] ==>
      && (run[0].Generate? ==> |ps| + |Templates.Template(run[0].template)| <= lim.maxPackets)
      && TemplatesFit(InputApply(ps, run[0], lim), run[1..], lim, end)
  }

  /** The limit itself holds throughout a run exactly if every generation on the way fits: the check in front
      of the generation does not see how many packets are coming. */
  lemma {:induction false} LimitHoldsIffTemplatesFit(ps: seq<Packet>, run: seq<InputMove>, lim: Limits,
                                                     end: seq<Packet>)
    requires InputReaches(ps, run, lim, end) && |ps| <= lim.maxPackets
    ensures StaysWithin(ps, run, lim, end) <==> TemplatesFit(ps, run, lim, end)
    decreases |run|
  {
    if run != [] {
      CountStep(ps, run[0], lim);
      var qs := InputApply(ps, run[0], lim);
      if |qs| <= lim.maxPackets {
        LimitHoldsIffTemplatesFit(qs, run[1..], lim, end);
      }
    }
  }

  /** The limit holds whichever template the draw selects, exactly if there is room for four packets; the check
      in front of the generation asks for room for one. */
  lemma {:induction false} EveryTemplateFitsIff(count: nat, max: nat)
    ensures (forall t: nat | t <= 17 :: count + |Templates.Template(t)| <= max) <==> count + 4 <= max
  {
    assert |Templates.Template(12)| == 4;
  }

  /** Over all generations enabled at ps: none exceeds the limit exactly if the check turns all of them down or
      there is room for four packets. */
  lemma {:induction false} GenerationKeepsLimitIff(ps: seq<Packet>, lim: Limits)
    ensures (forall m: InputMove | m.Generate? && InputEnabled(ps, m, lim) ::
               |InputApply(ps, m, lim)| <= lim.maxPackets)
       <==> |ps| >= lim.maxPackets || |ps| + 4 <= lim.maxPackets
  {
    EveryTemplateFitsIff(|ps|, lim.maxPackets);
    if |ps| < lim.maxPackets {
      forall t: nat | t <= 17
        ensures exists m: InputMove :: m.Generate? && InputEnabled(ps, m, lim)
                  && |InputApply(ps, m, lim)| == |ps| + |Templates.Template(t)|
      {
        var m := GenerationOf(ps, lim, t);
      }
    }
  }

  /** Below the limit every template can be generated. */
  lemma {:induction false} GenerationOf(ps: seq<Packet>, lim: Limits, t: nat) returns (m: InputMove)
    requires |ps| < lim.maxPackets && t <= 17
    ensures m.Generate? && InputEnabled(ps, m, lim)
    ensures |InputApply(ps, m, lim)| == |ps| + |Templates.Template(t)|
  {
    var packets := Templates.PacketsOf(Templates.Template(t));
    m := Generate(0, t, packets);
  }

  /** The generation of the four-packet template is enabled below the limit, and adds four packets. With one place
      left this overshoots by three, the most that CountIsSafe allows. */
  lemma {:induction false} FourPacketGeneration(ps: seq<Packet>, lim: Limits) returns (m: InputMove)
    requires |ps| < lim.maxPackets
    ensures m.Generate? && InputEnabled(ps, m, lim)
    ensures |InputApply(ps, m, lim)| == |ps| + 4
    ensures |ps| + 1 == lim.maxPackets ==> |InputApply(ps, m, lim)| == lim.maxPackets + 3
  {
    m := GenerationOf(ps, lim, 12);
  }

  /** Wherever the run generates packets, there is room for four. */
  ghost predicate RoomForFour(ps: seq<Packet>, run: seq<InputMove>, lim: Limits, end: seq<Packet>)
    requires InputReaches(ps, run, lim, end)
    decreases |run|
  {
    run != [] ==>
      && (run[0].Generate? ==> |ps| + 4 <= lim.maxPackets)
      && RoomForFour(InputApply(ps, run[0], lim), run[1..], lim, end)
  }

  /** The limit holds throughout a run whose generations all start with room for four packets. */
  lemma {:induction false} RoomForFourKeepsLimit(ps: seq<Packet>, run: seq<InputMove>, lim: Limits, end: seq<Packet>)
    requires InputReaches(ps, run, lim, end) && |ps| <= lim.maxPackets
    requires RoomForFour(ps, run, lim, end)
    ensures StaysWithin(ps, run, lim, end)
    decreases |run|
  {
    if run != [] {
      CountStep(ps, run[0], lim);
      RoomForFourKeepsLimit(InputApply(ps, run[0], lim), run[1..], lim, end);
    }
  }

  /** Every packet is a token stream that keeps the strict invariant, with ASCII constants. */
  predicate StrictPacket(p: Packet) {
    p.Stream? && AllStrict(p.tokens) && ConstantsAscii(p.tokens)
  }

  predicate AllStrictPackets(ps: seq<Packet>) { forall p | p in ps :: StrictPacket(p) }

  lemma {:induction false} FreshIsStrict(ts: seq<Token>)
    requires RandomPacket(ts)
    ensures StrictPacket(Stream(ts))
  {
  }

  lemma {:induction false} GeneratedIsStrict(packets: seq<seq<Token>>, lines: seq<Templates.Line>)
    requires Templates.ParsedFrom(packets, lines)
    ensures AllStrictPackets(Streams(packets))
  {
    forall i | 0 <= i < |packets|
      ensures StrictPacket(Stream(packets[i]))
    {
      ParsedIsStrict(Ascii(lines[i]));
    }
  }

  lemma {:induction false} InsertStrict(ps: seq<Packet>, at: nat, more: seq<Packet>)
    requires at <= |ps| && AllStrictPackets(ps) && AllStrictPackets(more)
    ensures AllStrictPackets(Insert(ps, at, more))
  {
  }

  lemma {:induction false} StrictStep(ps: seq<Packet>, m: InputMove, lim: Limits)
    requires InputEnabled(ps, m, lim)
    requires AllStrictPackets(ps) && OthersStrict(lim.env) && EnvAscii(lim.env)
    ensures AllStrictPackets(InputApply(ps, m, lim))
  {
    match m
    case CopyPacket(from, to) => InsertStrict(ps, to, [ps[from]]);
    case RepeatPacket(idx, count) => InsertStrict(ps, idx, Repeat(ps[idx], count));
    case MutateContent(idx, trace, result) =>
      assert StrictPacket(ps[idx]);
      RunKeepsStrict(ps[idx].tokens, trace, lim.env, result);
      RunKeepsAscii(ps[idx].tokens, trace, lim.env, result);
    case InsertRandom(at, tokens) =>
      FreshIsStrict(tokens);
      InsertStrict(ps, at, [Stream(tokens)]);
    case CrossPacket(at, tokens) => InsertStrict(ps, at, [Stream(tokens)]);
    case Generate(at, template, packets) =>
      GeneratedIsStrict(packets, Templates.Template(template));
      InsertStrict(ps, at, Streams(packets));
    case _ =>
  }

  /** No run of packet and token mutators ever leaves an invalid packet. */
  lemma {:induction false} InputRunKeepsStrict(ps: seq<Packet>, run: seq<InputMove>, lim: Limits, end: seq<Packet>)
    requires InputReaches(ps, run, lim, end)
    requires AllStrictPackets(ps) && OthersStrict(lim.env) && EnvAscii(lim.env)
    ensures AllStrictPackets(end)
    decreases |run|
  {
    if run != [] {
      StrictStep(ps, run[0], lim);
      InputRunKeepsStrict(InputApply(ps, run[0], lim), run[1..], lim, end);
    }
  }

  /** After any run, every packet's bytes decode, to a packet with the same bytes. */
  lemma {:induction false} InputRunDecodes(ps: seq<Packet>, run: seq<InputMove>, lim: Limits, end: seq<Packet>, i: nat)
    requires InputReaches(ps, run, lim, end)
    requires AllStrictPackets(ps) && OthersStrict(lim.env) && EnvAscii(lim.env)
    requires i < |end|
    ensures Decode(TokenText, Content(end[i])).Some?
    ensures Content(Decode(TokenText, Content(end[i])).value) == Content(end[i])
  {
    InputRunKeepsStrict(ps, run, lim, end);
    assert StrictPacket(end[i]);
    Reparses(end[i].tokens);
  }

  // ---------- The mutators ----------

  /** The contract shared by the mutators: a change is an enabled move that has been applied. */
  ghost predicate InputOutcome(before: seq<Packet>, after: seq<Packet>, r: MutationResult, m: InputMove, lim: Limits) {
    && (r.Skipped? ==> after == before)
    && (r.Mutated? ==> InputEnabled(before, m, lim) && after == InputApply(before, m, lim))
  }

  method CopyMutate(rand: Rand, input: PacketInput, lim: Limits)
      returns (r: MutationResult, ghost move: InputMove)
    modifies rand, input
    ensures InputOutcome(old(input.packets), input.packets, r, move, lim) && !r.Failed?
    ensures r.Mutated? <==> 0 < |old(input.packets)| < lim.maxPackets
    ensures var n, p := |old(input.packets)|, old(rand.pos);
            r.Mutated? ==> move == CopyPacket(rand.Draw(p + 1, 0, n - 1), rand.Draw(p, 0, n))
    ensures rand.pos == old(rand.pos) + if r.Mutated? then 2 else 0
  {
    move := CopyPacket(0, 0);
    var len := |input.packets|;
    if len == 0 || len >= lim.maxPackets {
      return Skipped, move;
    }
    var to := rand.Between(0, len);
    var from := rand.Between(0, len - 1);
    move := CopyPacket(from, to);
    var packet := input.packets[from];
    input.packets := input.packets[..to] + [packet] + input.packets[to..];
    r := Mutated;
  }

  method DeleteMutate(rand: Rand, input: PacketInput, lim: Limits)
      returns (r: MutationResult, ghost move: InputMove)
    modifies rand, input
    ensures InputOutcome(old(input.packets), input.packets, r, move, lim) && !r.Failed?
    ensures r.Mutated? <==> |old(input.packets)| > 0 && |old(input.packets)| > lim.minPackets
    ensures r.Mutated? ==> move == DeletePacket(rand.Draw(old(rand.pos), 0, |old(input.packets)| - 1))
    ensures rand.pos == old(rand.pos) + if r.Mutated? then 1 else 0
  {
    move := DeletePacket(0);
    var len := |input.packets|;
    if len == 0 || len <= lim.minPackets {
      return Skipped, move;
    }
    var idx := rand.Between(0, len - 1);
    move := DeletePacket(idx);
    input.packets := input.packets[..idx] + input.packets[idx + 1..];
    r := Mutated;
  }

  method RepeatMutate(rand: Rand, input: PacketInput, lim: Limits)
      returns (r: MutationResult, ghost move: InputMove)
    modifies rand, input
    ensures InputOutcome(old(input.packets), input.packets, r, move, lim) && !r.Failed?
    ensures r.Mutated? <==> 0 < |old(input.packets)| < lim.maxPackets
    ensures var n, p := |old(input.packets)|, old(rand.pos);
            r.Mutated? ==> move == RepeatPacket(rand.Draw(p, 0, n - 1), 1 + rand.Draw(p + 1, 0, lim.maxPackets - n - 1))
    ensures rand.pos == old(rand.pos) + if r.Mutated? then 2 else 0
  {
    move := RepeatPacket(0, 0);
    var len := |input.packets|;
    if len == 0 || len >= lim.maxPackets {
      return Skipped, move;
    }
    var idx := rand.Between(0, len - 1);
    var room := lim.maxPackets - len;
    var extra := rand.Between(0, if room < 1 then 0 else room - 1);
    var n := 1 + extra;
    move := RepeatPacket(idx, n);
    var packet := input.packets[idx];
    input.packets := input.packets[..idx] + Repeat(packet, n) + input.packets[idx..];
    r := Mutated;
  }

  method SwapMutate(rand: Rand, input: PacketInput, lim: Limits)
      returns (r: MutationResult, ghost move: InputMove)
    modifies rand, input
    ensures InputOutcome(old(input.packets), input.packets, r, move, lim) && !r.Failed?
    ensures var n, p := |old(input.packets)|, old(rand.pos);
            if n <= 1 then r.Skipped? && rand.pos == p
            else
              && rand.pos == p + 2
              && move == SwapPackets(rand.Draw(p, 0, n - 1), rand.Draw(p + 1, 0, n - 1))
              && (r.Mutated? <==> move.a != move.b)
  {
    move := SwapPackets(0, 0);
    var len := |input.packets|;
    if len <= 1 {
      return Skipped, move;
    }
    var to := rand.Between(0, len - 1);
    var from := rand.Between(0, len - 1);
    move := SwapPackets(to, from);
    if to == from {
      return Skipped, move;
    }
    var x, y := input.packets[to], input.packets[from];
    input.packets := input.packets[to := y][from := x];
    r := Mutated;
  }

  /** A stack of token mutators has been at work on one packet: it is the move, and the result tells its end. */
  ghost predicate ContentMutated(w: World, lim: Limits, ps: seq<Packet>, qs: seq<Packet>, move: InputMove,
                                 turns: seq<Taken>, start: nat, stop: nat, size: nat, r: MutationResult)
  {
    && move.MutateContent? && InputEnabled(ps, move, lim)
    && qs == InputApply(ps, move, lim)
    && StackDone(w, turns, start, ps[move.idx].tokens, stop, move.result, size, r)
    && move.trace == MovesOf(turns)
    && (r.Skipped? ==> move.trace == [] && qs == ps)
    && (r.Mutated? ==> move.trace != [])
  }

  lemma {:induction false} ContentIsMutated(w: World, lim: Limits, ps: seq<Packet>, move: InputMove,
                                            turns: seq<Taken>, start: nat, stop: nat, size: nat, r: MutationResult)
    requires move.MutateContent? && move.idx < |ps| && ps[move.idx].Stream?
    requires StackDone(w, turns, start, ps[move.idx].tokens, stop, move.result, size, r)
    requires move.trace == MovesOf(turns) && Reaches(ps[move.idx].tokens, move.trace, lim.env, move.result)
    requires r == Skipped ==> move.trace == [] && move.result == ps[move.idx].tokens
    requires r == Mutated ==> move.trace != []
    ensures ContentMutated(w, lim, ps, ps[move.idx := Stream(move.result)], move, turns, start, stop, size, r)
  {
  }

  /** One packet is borrowed, mutated in place and put back; the other packets are framed. */
  method ContentMutate(mutator: TokenStreamMutator, state: FuzzState, input: PacketInput, lim: Limits)
      returns (r: MutationResult, ghost move: InputMove, ghost turns: seq<Taken>)
    requires |state.corpus| > 0 && mutator.maxTokens < WordSwap.USIZE_VALUES && state.rand != mutator.rand
    requires forall p | p in input.packets :: p.Stream? && |p.tokens| < WordSwap.USIZE_VALUES
    requires lim.env == mutator.EnvOf(state)
    modifies mutator.rand, state.rand, input
    ensures r.Skipped? ==> input.packets == old(input.packets)
    ensures old(input.packets) == [] ==> r.Skipped? && turns == []
    ensures old(input.packets) != [] ==>
              && move.MutateContent?
              && move.idx == state.rand.Draw(old(state.rand.pos), 0, |old(input.packets)| - 1)
              && ContentMutated(mutator.WorldOf(state), lim, old(input.packets), input.packets, move, turns,
                                old(mutator.rand.pos), mutator.rand.pos,
                                StackSize(state.rand.source, old(state.rand.pos) + 1), r)
  {
    move := MutateContent(0, [], []);
    var len := |input.packets|;
    if len == 0 {
      return Skipped, move, [];
    }
    var idx := state.rand.Between(0, len - 1);
    var packets;
    r, packets, move, turns := MutateAt(mutator, state, input.packets, idx, lim);
    input.packets := packets;
  }

  /** The stack of token mutators on packet idx: taken out, mutated in place, and put back. */
  method MutateAt(mutator: TokenStreamMutator, state: FuzzState, ps: seq<Packet>, idx: nat, ghost lim: Limits)
      returns (r: MutationResult, qs: seq<Packet>, ghost move: InputMove, ghost turns: seq<Taken>)
    requires |state.corpus| > 0 && mutator.maxTokens < WordSwap.USIZE_VALUES && state.rand != mutator.rand
    requires idx < |ps| && ps[idx].Stream? && |ps[idx].tokens| < WordSwap.USIZE_VALUES
    requires lim.env == mutator.EnvOf(state)
    modifies mutator.rand, state.rand
    ensures move.MutateContent? && move.idx == idx && (r.Skipped? ==> qs == ps)
    ensures ContentMutated(mutator.WorldOf(state), lim, ps, qs, move, turns, old(mutator.rand.pos),
                           mutator.rand.pos, StackSize(state.rand.source, old(state.rand.pos)), r)
  {
    ghost var w, start, size := mutator.WorldOf(state), mutator.rand.pos, StackSize(state.rand.source, state.rand.pos);
    var packet := new TokenStream(ps[idx].tokens);
    ghost var trace;
    r, trace, turns := mutator.MutatePacket(state, packet);
    move := MutateContent(idx, trace, packet.tokens);
    ContentIsMutated(w, lim, ps, move, turns, start, mutator.rand.pos, size, r);
    qs := ps[idx := Stream(packet.tokens)];
  }

  method CreatePart(rand: Rand) returns (token: Token)
    modifies rand
    ensures Fresh(token, if token.Whitespace? then 4 else 8)
    ensures PartBetween(rand.source, old(rand.pos), rand.pos, token)
  {
    var kind := rand.Between(0, 2);
    if kind == 0 {
      token := RandomText(rand, 1, 8);
    } else if kind == 1 {
      token := RandomWhitespace(rand, 1, 4);
    } else {
      token := RandomNumber(rand, 8);
    }
  }

  /** `create_random_packet`. */
  method CreateRandomPacket(rand: Rand) returns (tokens: seq<Token>, ghost starts: seq<nat>)
    modifies rand
    ensures RandomPacket(tokens)
    ensures |tokens| == 1 + rand.Draw(old(rand.pos), 0, 15)
    ensures PartsDrawn(rand.source, starts, tokens)
    ensures starts[0] == old(rand.pos) + 1 && starts[|tokens|] == rand.pos
  {
    ghost var p := rand.pos;
    var extra := rand.Between(0, 15);
    var n := 1 + extra;
    tokens, starts := [], [rand.pos];
    for i := 0 to n
      invariant |tokens| == i
      invariant forall t | t in tokens :: Fresh(t, if t.Whitespace? then 4 else 8)
      invariant PartsDrawn(rand.source, starts, tokens)
      invariant starts[0] == p + 1 && starts[i] == rand.pos
    {
      var token := CreatePart(rand);
      OnePartMore(rand.source, starts, tokens, rand.pos, token);
      tokens, starts := tokens + [token], starts + [rand.pos];
    }
  }

  lemma {:induction false} OnePartMore(src: Source, starts: seq<nat>, ts: seq<Token>, next: nat, t: Token)
    requires PartsDrawn(src, starts, ts) && PartBetween(src, starts[|ts|], next, t)
    ensures PartsDrawn(src, starts + [next], ts + [t])
  {
    var more, us := starts + [next], ts + [t];
    forall i, j | 0 <= i && j == i + 1 && j < |more|
      ensures PartBetween(src, more[i], more[j], us[i])
    {
      if j < |starts| {
        assert PartBetween(src, starts[i], starts[j], ts[i]);
      }
    }
  }

  method RandomInsertMutate(rand: Rand, input: PacketInput, lim: Limits)
      returns (r: MutationResult, ghost move: InputMove)
    modifies rand, input
    ensures InputOutcome(old(input.packets), input.packets, r, move, lim) && !r.Failed?
    ensures r.Mutated? <==> |old(input.packets)| < lim.maxPackets
    ensures r.Mutated? ==>
              && move.InsertRandom?
              && move.at == rand.Draw(old(rand.pos), 0, |old(input.packets)|)
              && |move.tokens| == 1 + rand.Draw(old(rand.pos) + 1, 0, 15)
              && exists starts :: && PartsDrawn(rand.source, starts, move.tokens)
                                  && starts[0] == old(rand.pos) + 2 && starts[|move.tokens|] == rand.pos
  {
    move := InsertRandom(0, []);
    var len := |input.packets|;
    if len >= lim.maxPackets {
      return Skipped, move;
    }
    var idx := rand.Between(0, len);
    var newPacket;
    ghost var starts;
    newPacket, starts := CreateRandomPacket(rand);
    move := InsertRandom(idx, newPacket);
    input.packets := input.packets[..idx] + [Stream(newPacket)] + input.packets[idx..];
    r := Mutated;
  }

  method CrossoverMutate(rand: Rand, state: FuzzState, input: PacketInput, lim: Limits)
      returns (r: MutationResult, ghost move: InputMove)
    requires |state.corpus| > 0
    requires lim.env.others == CorpusPackets(state.corpus)
    modifies rand, input
    ensures InputOutcome(old(input.packets), input.packets, r, move, lim)
    ensures r.Failed? ==> input.packets == old(input.packets)
    ensures var n, idx := |old(input.packets)|, rand.Draw(old(rand.pos), 0, |state.corpus| - 1);
            && (r.Mutated? <==> n < lim.maxPackets && state.current != Some(idx)
                                && state.corpus[idx].Some? && state.corpus[idx].value != [])
            && (r.Failed? <==> n < lim.maxPackets && state.current != Some(idx) && state.corpus[idx] == None)
            && rand.pos == old(rand.pos) + (if n >= lim.maxPackets then 0 else if r.Mutated? then 3 else 1)
            && (r.Mutated? ==>
                  && move.CrossPacket?
                  && move.at == rand.Draw(old(rand.pos) + 2, 0, n)
                  && move.tokens == state.corpus[idx].value[
                       rand.Draw(old(rand.pos) + 1, 0, |state.corpus[idx].value| - 1)])
  {
    move := CrossPacket(0, []);
    if |input.packets| >= lim.maxPackets {
      return Skipped, move;
    }
    var other, aborted := PickOther(rand, state);
    if other == None {
      return if aborted then Failed else Skipped, move;
    }
    var idx := rand.Between(0, |input.packets|);
    move := CrossPacket(idx, other.value);
    input.packets := input.packets[..idx] + [Stream(other.value)] + input.packets[idx..];
    r := Mutated;
  }

  method GenerateMutate(rand: Rand, input: PacketInput, lim: Limits)
      returns (r: MutationResult, ghost move: InputMove)
    modifies rand, input
    ensures InputOutcome(old(input.packets), input.packets, r, move, lim) && !r.Failed?
    ensures r.Mutated? <==> |old(input.packets)| < lim.maxPackets
    ensures r.Mutated? ==>
              && move.Generate?
              && move.at == rand.Draw(old(rand.pos), 0, |old(input.packets)|)
              && move.template == rand.Draw(old(rand.pos) + 1, 0, 17)
    ensures rand.pos == old(rand.pos) + if r.Mutated? then 2 else 0
  {
    move := Generate(0, 0, []);
    var len := |input.packets|;
    if len >= lim.maxPackets {
      return Skipped, move;
    }
    var idx := rand.Between(0, len);
    ghost var template := rand.Draw(rand.pos, 0, 17);
    var newPackets := Templates.GeneratePackets(rand);
    move := Generate(idx, template, newPackets);
    input.packets := input.packets[..idx] + Streams(newPackets) + input.packets[idx..];
    r := Mutated;
  }
}
