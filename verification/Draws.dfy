/** What the draws decide: whether a token mutator makes a move, which one, and which draw is the next. Each
    predicate speaks of a mutator whose first draw is number p, on the list ts. */
module Draws {
  import opened Bytes
  import opened Tokens
  import opened Random
  import opened Words
  import opened Moves

  /** The move that has been made, if any. */
  function Made(mutated: bool, move: Move): Option<Move> { if mutated then Some(move) else None }

  predicate Refused(move: Option<Move>, next: nat, at: nat) { move == None && next == at }

  /** The byte that `mutate_flip` writes at position pos of t, from draw k on. */
  ghost predicate FlipDraws(src: Source, k: nat, t: Token, pos: nat, value: Byte) {
    match t
    case Constant(_) => false
    case Whitespace(_) => value == WHITESPACE[Pick(src, k, 0, 5)]
    case Number(d) =>
      if pos == 0 && |d| > 1 then
        value == (match Pick(src, k, 0, 2)
                  case 0 => DASH
                  case 1 => PLUS
                  case _ => DIGITS[Pick(src, k + 1, 0, 9)])
      else value == DIGITS[Pick(src, k, 0, 9)]
    case Text(_) =>
      && IsTextTail(value) && Pick(src, k, 0, 127) <= value
      && forall b: Byte | Pick(src, k, 0, 127) <= b < value :: !IsTextTail(b)
  }

  /** Draw number k among `kinds` kinds, of which the first is a number, the second whitespace and the others
      text, decides the kind of t; the draws that follow decide its bytes. */
  ghost predicate TokenDrawn(src: Source, k: nat, kinds: nat, t: Token)
    requires kinds >= 3
  {
    match t
    case Constant(_) => false
    case Number(d) => Pick(src, k, 0, kinds - 1) == 0 && NumberDrawn(src, k + 1, 16, d)
    case Whitespace(d) => Pick(src, k, 0, kinds - 1) == 1 && SpaceDrawn(src, k + 1, 1, 16, d)
    case Text(d) => Pick(src, k, 0, kinds - 1) >= 2 && TextDrawn(src, k + 1, 1, 16, d)
  }

  /** How many draws decide the byte. */
  function FlipUses(src: Source, k: nat, t: Token, pos: nat): nat {
    if t.Number? && pos == 0 && |t.data| > 1 && Pick(src, k, 0, 2) == 2 then 2 else 1
  }

  /** The range lo..hi, of at most `size` of the n positions, drawn from draw k on. */
  predicate RangeDrawn(src: Source, k: nat, n: nat, size: nat, lo: nat, hi: nat)
    requires 0 < n && 0 < size
  {
    lo == Pick(src, k, 0, n - 1) && hi == lo + 1 + Pick(src, k + 1, 0, Min(n - lo, size) - 1)
  }

  /** A word of the dictionary, drawn by draw k. */
  predicate WordDrawn(src: Source, k: nat, dict: seq<seq<Byte>>, word: seq<Byte>) {
    dict != [] && word == dict[Pick(src, k, 0, |dict| - 1)]
  }

  ghost predicate DecidesCopy(src: Source, p: nat, ts: seq<Token>, max: nat, move: Option<Move>, next: nat) {
    var n := |ts|;
    if n == 0 || n >= max then Refused(move, next, p)
    else
      && move.Some? && move.value.Copy? && next == p + 3
      && RangeDrawn(src, p, n, max - n, move.value.lo, move.value.hi)
      && move.value.at == Pick(src, p + 2, 0, n)
  }

  ghost predicate DecidesCrossoverInsert(src: Source, p: nat, ts: seq<Token>, other: seq<Token>, max: nat,
                                         move: Option<Move>, next: nat)
  {
    var n := |ts|;
    if n == 0 || n >= max || other == [] then Refused(move, next, p)
    else
      && move.Some? && move.value.CrossoverInsert? && move.value.other == other && next == p + 3
      && move.value.at == Pick(src, p, 0, n)
      && RangeDrawn(src, p + 1, |other|, max - n, move.value.lo, move.value.hi)
  }

  ghost predicate DecidesCrossoverReplace(src: Source, p: nat, ts: seq<Token>, other: seq<Token>, max: nat,
                                          move: Option<Move>, next: nat)
  {
    var n := |ts|;
    if n == 0 || n >= max || other == [] then Refused(move, next, p)
    else
      && move.Some? && move.value.CrossoverReplace? && move.value.other == other && next == p + 4
      && RangeDrawn(src, p, n, n, move.value.dstLo, move.value.dstHi)
      && RangeDrawn(src, p + 2, |other|, max - n + (move.value.dstHi - move.value.dstLo),
                    move.value.lo, move.value.hi)
  }

  ghost predicate DecidesDelete(src: Source, p: nat, ts: seq<Token>, move: Option<Move>, next: nat) {
    if ts == [] then Refused(move, next, p)
    else
      && move.Some? && move.value.Delete? && next == p + 2
      && RangeDrawn(src, p, |ts|, |ts|, move.value.lo, move.value.hi)
  }

  ghost predicate DecidesFlip(src: Source, p: nat, ts: seq<Token>, move: Option<Move>, next: nat) {
    if ts == [] then Refused(move, next, p)
    else
      var idx := Pick(src, p, 0, |ts| - 1);
      var t := ts[idx];
      if t.Constant? || t.data == [] then Refused(move, next, p + 1)
      else
        && move.Some? && move.value.Flip? && move.value.idx == idx
        && move.value.pos == Pick(src, p + 1, 0, |t.data| - 1)
        && FlipDraws(src, p + 2, t, move.value.pos, move.value.value)
        && next == p + 2 + FlipUses(src, p + 2, t, move.value.pos)
  }

  ghost predicate DecidesInteresting(src: Source, p: nat, ts: seq<Token>, move: Option<Move>, next: nat) {
    if ts == [] then Refused(move, next, p)
    else
      var idx := FirstFrom(ts, Pick(src, p, 0, |ts| - 1), IsNumber);
      if idx == |ts| then Refused(move, next, p + 1)
      else move == Some(Interesting(idx, INTERESTING[Pick(src, p + 1, 0, 32)])) && next == p + 2
  }

  ghost predicate DecidesRandomInsert(src: Source, p: nat, ts: seq<Token>, max: nat, move: Option<Move>, next: nat) {
    if |ts| >= max then Refused(move, next, p)
    else
      && move.Some? && move.value.RandomInsert?
      && move.value.at == Pick(src, p, 0, |ts|)
      && TokenDrawn(src, p + 1, 5, move.value.token)
      && next == p + 1 + DrawsOf(src, p + 1, move.value.token)
  }

  ghost predicate DecidesRandomReplace(src: Source, p: nat, ts: seq<Token>, move: Option<Move>, next: nat) {
    if ts == [] then Refused(move, next, p)
    else
      && move.Some? && move.value.RandomReplace?
      && move.value.idx == Pick(src, p, 0, |ts| - 1)
      && TokenDrawn(src, p + 1, 5, move.value.token)
      && next == p + 1 + DrawsOf(src, p + 1, move.value.token)
  }

  ghost predicate DecidesRepeatChar(src: Source, p: nat, ts: seq<Token>, amount: nat, move: Option<Move>, next: nat) {
    if ts == [] then Refused(move, next, p)
    else
      var idx := Pick(src, p, 0, |ts| - 1);
      var t := ts[idx];
      if t.Constant? || t.data == [] || |t.data| >= amount then Refused(move, next, p + 1)
      else
        var pos := Pick(src, p + 1, 0, |t.data| - 1);
        if pos == 0 && t.Number? then Refused(move, next, p + 2)
        else move == Some(RepeatChar(idx, pos, amount)) && next == p + 2
  }

  ghost predicate DecidesRepeatToken(src: Source, p: nat, ts: seq<Token>, amount: nat, max: nat,
                                     move: Option<Move>, next: nat)
  {
    if ts == [] || |ts| >= max then Refused(move, next, p)
    else
      var idx := Pick(src, p, 0, |ts| - 1);
      if ts[idx].data == [] then Refused(move, next, p + 1)
      else move == Some(RepeatToken(idx, amount)) && next == p + 1
  }

  ghost predicate DecidesSpecialInsert(src: Source, p: nat, ts: seq<Token>, move: Option<Move>, next: nat) {
    if ts == [] then Refused(move, next, p)
    else
      var idx := FirstFrom(ts, Pick(src, p, 0, |ts| - 1), IsText);
      if idx == |ts| then Refused(move, next, p + 1)
      else
        && move == Some(SpecialInsert(idx, Pick(src, p + 2, 0, |ts[idx].data|), SPECIAL[Pick(src, p + 1, 0, 32)]))
        && next == p + 3
  }

  ghost predicate DecidesSpecialReplace(src: Source, p: nat, ts: seq<Token>, move: Option<Move>, next: nat) {
    if ts == [] then Refused(move, next, p)
    else
      var idx := FirstFrom(ts, Pick(src, p, 0, |ts| - 1), IsNonemptyText);
      if idx == |ts| then Refused(move, next, p + 1)
      else
        && move == Some(SpecialReplace(idx, Pick(src, p + 2, 0, |ts[idx].data| - 1), SPECIAL[Pick(src, p + 1, 0, 32)]))
        && next == p + 3
  }

  ghost predicate DecidesSplit(src: Source, p: nat, ts: seq<Token>, max: nat, move: Option<Move>, next: nat) {
    if ts == [] || |ts| + 2 > max then Refused(move, next, p)
    else
      var idx := Pick(src, p, 0, |ts| - 1);
      var t := ts[idx];
      if t.Constant? || |t.data| <= 1 then Refused(move, next, p + 1)
      else
        var pos := 1 + Pick(src, p + 1, 0, |t.data| - 2);
        if t.Number? && pos == 1 then Refused(move, next, p + 2)
        else
          && move.Some? && move.value.Split? && move.value.idx == idx && move.value.pos == pos
          && TokenDrawn(src, p + 2, 4, move.value.token)
          && next == p + 2 + DrawsOf(src, p + 2, move.value.token)
  }

  ghost predicate DecidesSwapTokens(src: Source, p: nat, ts: seq<Token>, move: Option<Move>, next: nat) {
    if ts == [] then Refused(move, next, p)
    else
      var from, to := Pick(src, p, 0, |ts| - 1), Pick(src, p + 1, 0, |ts| - 1);
      if from == to then Refused(move, next, p + 2)
      else move == Some(SwapTokens(from, to)) && next == p + 2
  }

  ghost predicate DecidesSwapWords(src: Source, p: nat, ts: seq<Token>, move: Option<Move>, next: nat) {
    if |ts| < 3 then Refused(move, next, p)
    else
      var from, to := Pick(src, p, 0, |WordsOf(ts)| - 1), Pick(src, p + 1, 0, |WordsOf(ts)| - 1);
      if from == to then Refused(move, next, p + 2)
      else move == Some(SwapWords(from, to)) && next == p + 2
  }

  ghost predicate DecidesTruncate(src: Source, p: nat, ts: seq<Token>, move: Option<Move>, next: nat) {
    if ts == [] then Refused(move, next, p)
    else
      var idx := Pick(src, p, 0, |ts| - 1);
      var t := ts[idx];
      if t.Constant? || |t.data| < 2 then Refused(move, next, p + 1)
      else
        var newLen := 1 + Pick(src, p + 1, 0, |t.data| - 2);
        if newLen == 1 && t.Number? && IsSign(t.data[0]) then Refused(move, next, p + 2)
        else move == Some(Truncate(idx, newLen)) && next == p + 2
  }

  ghost predicate DecidesDictInsert(src: Source, p: nat, ts: seq<Token>, dict: seq<seq<Byte>>, max: nat,
                                    move: Option<Move>, next: nat)
  {
    var n := |ts|;
    if dict == [] || n >= max then Refused(move, next, p)
    else if max - n >= 3 && Pick(src, p + 2, 0, 1) == 1 then
      && move.Some? && move.value.DictInsertPadded? && next == p + 7
      && move.value.at == Pick(src, p, 0, n)
      && WordDrawn(src, p + 1, dict, move.value.word)
      && move.value.before.Whitespace? && SpaceDrawn(src, p + 3, 1, 1, move.value.before.data)
      && move.value.after.Whitespace? && SpaceDrawn(src, p + 5, 1, 1, move.value.after.data)
    else
      && move.Some? && move.value.DictInsert? && next == p + (if max - n >= 3 then 3 else 2)
      && move.value.at == Pick(src, p, 0, n)
      && WordDrawn(src, p + 1, dict, move.value.word)
  }

  ghost predicate DecidesDictReplace(src: Source, p: nat, ts: seq<Token>, dict: seq<seq<Byte>>,
                                     move: Option<Move>, next: nat)
  {
    if ts == [] || dict == [] then Refused(move, next, p)
    else
      var idx := FirstFrom(ts, Pick(src, p, 0, |ts| - 1), IsNotWhitespace);
      if idx == |ts| then Refused(move, next, p + 2)
      else
        && move.Some? && move.value.DictReplace? && move.value.idx == idx && next == p + 2
        && WordDrawn(src, p + 1, dict, move.value.word)
  }

  ghost predicate DecidesSwapConstants(src: Source, p: nat, ts: seq<Token>, dict: seq<seq<Byte>>,
                                       move: Option<Move>, next: nat)
  {
    if ts == [] || dict == [] then Refused(move, next, p)
    else
      var idx := FirstFrom(ts, Pick(src, p, 0, |ts| - 1), IsConstant);
      if idx == |ts| then Refused(move, next, p + 1)
      else
        && move.Some? && move.value.SwapConstants? && move.value.idx == idx && next == p + 2
        && WordDrawn(src, p + 1, dict, move.value.word)
  }

  /** The number under which `mutate_packet` selects the mutator of a move. */
  function Selector(m: Move): nat {
    match m
    case Copy(_, _, _) => 0
    case CrossoverInsert(_, _, _, _) => 1
    case CrossoverReplace(_, _, _, _, _) => 2
    case Delete(_, _) => 3
    case Flip(_, _, _) => 4
    case Interesting(_, _) => 5
    case RandomInsert(_, _) => 6
    case RandomReplace(_, _) => 7
    case RepeatChar(_, _, _) => 8
    case RepeatToken(_, _) => 9
    case SpecialInsert(_, _, _) => 10
    case SpecialReplace(_, _, _) => 11
    case Split(_, _, _) => 12
    case SwapTokens(_, _) => 13
    case SwapWords(_, _) => 14
    case Truncate(_, _) => 15
    case DictInsert(_, _) => 16
    case DictInsertPadded(_, _, _, _) => 16
    case DictReplace(_, _) => 17
    case SwapConstants(_, _) => 18
  }

  /** Mutator number `choice`, in the environment env, with the partner `other` if it is a crossover. The trigger
      keeps the nineteen cases away from proofs that do not mention `Chosen`. */
  ghost predicate Decides(choice: nat, src: Source, p: nat, ts: seq<Token>, env: Env, other: seq<Token>,
                          move: Option<Move>, next: nat)
  {
    forall k {:trigger Chosen(k)} | k == choice :: DecidesAs(k, src, p, ts, env, other, move, next)
  }

  predicate Chosen(choice: nat) { true }

  ghost predicate DecidesAs(choice: nat, src: Source, p: nat, ts: seq<Token>, env: Env, other: seq<Token>,
                            move: Option<Move>, next: nat)
  {
    var max, dict := env.maxTokens, env.dict;
    match choice
    case 0 => DecidesCopy(src, p, ts, max, move, next)
    case 1 => DecidesCrossoverInsert(src, p, ts, other, max, move, next)
    case 2 => DecidesCrossoverReplace(src, p, ts, other, max, move, next)
    case 3 => DecidesDelete(src, p, ts, move, next)
    case 4 => DecidesFlip(src, p, ts, move, next)
    case 5 => DecidesInteresting(src, p, ts, move, next)
    case 6 => DecidesRandomInsert(src, p, ts, max, move, next)
    case 7 => DecidesRandomReplace(src, p, ts, move, next)
    case 8 => DecidesRepeatChar(src, p, ts, env.charAmount, move, next)
    case 9 => DecidesRepeatToken(src, p, ts, env.tokenAmount, max, move, next)
    case 10 => DecidesSpecialInsert(src, p, ts, move, next)
    case 11 => DecidesSpecialReplace(src, p, ts, move, next)
    case 12 => DecidesSplit(src, p, ts, max, move, next)
    case 13 => DecidesSwapTokens(src, p, ts, move, next)
    case 14 => DecidesSwapWords(src, p, ts, move, next)
    case 15 => DecidesTruncate(src, p, ts, move, next)
    case 16 => DecidesDictInsert(src, p, ts, dict, max, move, next)
    case 17 => DecidesDictReplace(src, p, ts, dict, move, next)
    case _ => DecidesSwapConstants(src, p, ts, dict, move, next)
  }

  lemma {:induction false} AsChosen(choice: nat, src: Source, p: nat, ts: seq<Token>, env: Env, other: seq<Token>,
                                    move: Option<Move>, next: nat)
    requires DecidesAs(choice, src, p, ts, env, other, move, next)
    ensures Decides(choice, src, p, ts, env, other, move, next)
  {
  }

  // ---------- The draws leave no choice ----------

  lemma {:induction false} TokenIsDetermined(src: Source, k: nat, kinds: nat, t: Token, u: Token)
    requires kinds >= 3 && TokenDrawn(src, k, kinds, t) && TokenDrawn(src, k, kinds, u)
    ensures t == u
  {
    assert |t.data| == |u.data|;
    assert forall i | 1 <= i < |t.data| :: t.data[i] == u.data[i];
    assert t.data == u.data;
  }

  lemma {:induction false} FlipIsDetermined(src: Source, p: nat, ts: seq<Token>, m: Option<Move>, next: nat,
                                            m': Option<Move>, next': nat)
    requires DecidesFlip(src, p, ts, m, next) && DecidesFlip(src, p, ts, m', next')
    ensures m == m' && next == next'
  {
  }

  lemma {:induction false} DictInsertIsDetermined(src: Source, p: nat, ts: seq<Token>, dict: seq<seq<Byte>>, max: nat,
                                                  m: Option<Move>, next: nat, m': Option<Move>, next': nat)
    requires DecidesDictInsert(src, p, ts, dict, max, m, next) && DecidesDictInsert(src, p, ts, dict, max, m', next')
    ensures m == m' && next == next'
  {
    if m.Some? && m.value.DictInsertPadded? {
      assert m.value.before.data == m'.value.before.data && m.value.after.data == m'.value.after.data;
    }
  }

  lemma {:induction false} FreshIsDetermined(choice: nat, src: Source, p: nat, ts: seq<Token>, env: Env,
                                             other: seq<Token>, m: Option<Move>, next: nat,
                                             m': Option<Move>, next': nat)
    requires choice in {6, 7, 12}
    requires DecidesAs(choice, src, p, ts, env, other, m, next)
    requires DecidesAs(choice, src, p, ts, env, other, m', next')
    ensures m == m' && next == next'
  {
    if m.Some? {
      if choice == 12 {
        TokenIsDetermined(src, p + 2, 4, m.value.token, m'.value.token);
      } else {
        TokenIsDetermined(src, p + 1, 5, m.value.token, m'.value.token);
      }
    }
  }

  lemma {:induction false} CutIsDetermined(choice: nat, src: Source, p: nat, ts: seq<Token>, env: Env,
                                            other: seq<Token>, m: Option<Move>, next: nat,
                                            m': Option<Move>, next': nat)
    requires choice == 0 || choice == 3
    requires DecidesAs(choice, src, p, ts, env, other, m, next)
    requires DecidesAs(choice, src, p, ts, env, other, m', next')
    ensures m == m' && next == next'
  {
  }

  lemma {:induction false} CrossoverIsDetermined(choice: nat, src: Source, p: nat, ts: seq<Token>, env: Env,
                                            other: seq<Token>, m: Option<Move>, next: nat,
                                            m': Option<Move>, next': nat)
    requires choice == 1 || choice == 2
    requires DecidesAs(choice, src, p, ts, env, other, m, next)
    requires DecidesAs(choice, src, p, ts, env, other, m', next')
    ensures m == m' && next == next'
  {
  }

  lemma {:induction false} SwapIsDetermined(choice: nat, src: Source, p: nat, ts: seq<Token>, env: Env,
                                            other: seq<Token>, m: Option<Move>, next: nat,
                                            m': Option<Move>, next': nat)
    requires choice in {9, 13, 14}
    requires DecidesAs(choice, src, p, ts, env, other, m, next)
    requires DecidesAs(choice, src, p, ts, env, other, m', next')
    ensures m == m' && next == next'
  {
  }

  lemma {:induction false} TextIsDetermined(choice: nat, src: Source, p: nat, ts: seq<Token>, env: Env,
                                            other: seq<Token>, m: Option<Move>, next: nat,
                                            m': Option<Move>, next': nat)
    requires choice in {5, 8, 10, 11, 15} || choice > 16
    requires DecidesAs(choice, src, p, ts, env, other, m, next)
    requires DecidesAs(choice, src, p, ts, env, other, m', next')
    ensures m == m' && next == next'
  {
  }

  /** One source of random numbers, one list, one outcome: no call of a mutator can end in two ways. */
  lemma {:induction false} CallIsDetermined(choice: nat, src: Source, p: nat, ts: seq<Token>, env: Env,
                                            other: seq<Token>, m: Option<Move>, next: nat,
                                            m': Option<Move>, next': nat)
    requires Decides(choice, src, p, ts, env, other, m, next)
    requires Decides(choice, src, p, ts, env, other, m', next')
    ensures m == m' && next == next'
  {
    assert Chosen(choice);
    if choice == 4 {
      FlipIsDetermined(src, p, ts, m, next, m', next');
    } else if choice == 16 {
      DictInsertIsDetermined(src, p, ts, env.dict, env.maxTokens, m, next, m', next');
    } else if choice in {6, 7, 12} {
      FreshIsDetermined(choice, src, p, ts, env, other, m, next, m', next');
    } else if choice == 0 || choice == 3 {
      CutIsDetermined(choice, src, p, ts, env, other, m, next, m', next');
    } else if choice == 1 || choice == 2 {
      CrossoverIsDetermined(choice, src, p, ts, env, other, m, next, m', next');
    } else if choice in {9, 13, 14} {
      SwapIsDetermined(choice, src, p, ts, env, other, m, next, m', next');
    } else {
      TextIsDetermined(choice, src, p, ts, env, other, m, next, m', next');
    }
  }
}
