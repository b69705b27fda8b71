/** The moves of the state machine are exactly what the draws can make the mutators do. */
module Exactness {
  import opened Bytes
  import opened Tokens
  import opened Random
  import opened Words
  import opened Moves
  import opened Draws
  import opened TokenMakers

  /** What a move takes from outside is the partner, a word of the dictionary, or an amount of the environment. */
  predicate Supplied(m: Move, env: Env, other: seq<Token>) {
    match m
    case CrossoverInsert(o, _, _, _) => o == other
    case CrossoverReplace(o, _, _, _, _) => o == other
    case RepeatChar(_, _, amount) => amount == env.charAmount
    case RepeatToken(_, amount) => amount == env.tokenAmount
    case DictInsert(_, word) => word in env.dict
    case DictInsertPadded(_, _, word, _) => word in env.dict
    case DictReplace(_, word) => word in env.dict
    case SwapConstants(_, word) => word in env.dict
    case _ => true
  }

  // ---------- Every move can be drawn ----------

  function FlipVals(t: Token, pos: nat, value: Byte): seq<nat>
    requires FlipValue(t, pos, value)
  {
    match t
    case Whitespace(_) => [SpaceIndex(value)]
    case Number(d) =>
      if pos > 0 || |d| <= 1 then [DigitVal(value)]
      else if IsSign(value) then [SignVal(value)]
      else [2, DigitVal(value)]
    case _ => [value]
  }

  lemma {:induction false} FlipMade(src: Source, k: nat, t: Token, pos: nat, value: Byte)
    requires FlipValue(t, pos, value) && Supplies(src, k, FlipVals(t, pos, value))
    ensures FlipDraws(src, k, t, pos, value)
  {
    var v := FlipVals(t, pos, value);
    match t
    case Whitespace(_) => Picked(src, k, v, 0, 0, 5);
    case Text(_) => Picked(src, k, v, 0, 0, 127);
    case Number(d) =>
      if pos > 0 || |d| <= 1 {
        Picked(src, k, v, 0, 0, 9);
      } else {
        Picked(src, k, v, 0, 0, 2);
        if !IsSign(value) {
          Picked(src, k, v, 1, 0, 9);
        }
      }
  }

  lemma {:induction false} OnePick(p: nat, a: nat, ha: nat) returns (src: Source)
    requires a <= ha
    ensures Pick(src, p, 0, ha) == a
  {
    src := Supply(p, [a]);
    Picked(src, p, [a], 0, 0, ha);
  }

  lemma {:induction false} TwoPicks(p: nat, a: nat, ha: nat, b: nat, hb: nat) returns (src: Source)
    requires a <= ha && b <= hb
    ensures Pick(src, p, 0, ha) == a && Pick(src, p + 1, 0, hb) == b
  {
    src := Supply(p, [a, b]);
    Picked(src, p, [a, b], 0, 0, ha);
    Picked(src, p, [a, b], 1, 0, hb);
  }

  lemma {:induction false} ThreePicks(p: nat, a: nat, ha: nat, b: nat, hb: nat, c: nat, hc: nat) returns (src: Source)
    requires a <= ha && b <= hb && c <= hc
    ensures Pick(src, p, 0, ha) == a && Pick(src, p + 1, 0, hb) == b && Pick(src, p + 2, 0, hc) == c
  {
    src := Supply(p, [a, b, c]);
    Picked(src, p, [a, b, c], 0, 0, ha);
    Picked(src, p, [a, b, c], 1, 0, hb);
    Picked(src, p, [a, b, c], 2, 0, hc);
  }

  lemma {:induction false} FourPicks(p: nat, a: nat, ha: nat, b: nat, hb: nat, c: nat, hc: nat, d: nat, hd: nat)
      returns (src: Source)
    requires a <= ha && b <= hb && c <= hc && d <= hd
    ensures Pick(src, p, 0, ha) == a && Pick(src, p + 1, 0, hb) == b
    ensures Pick(src, p + 2, 0, hc) == c && Pick(src, p + 3, 0, hd) == d
  {
    src := Supply(p, [a, b, c, d]);
    Picked(src, p, [a, b, c, d], 0, 0, ha);
    Picked(src, p, [a, b, c, d], 1, 0, hb);
    Picked(src, p, [a, b, c, d], 2, 0, hc);
    Picked(src, p, [a, b, c, d], 3, 0, hd);
  }

  lemma {:induction false} TokenScript(k: nat, kinds: nat, t: Token) returns (vals: seq<nat>)
    requires kinds >= 3 && Fresh(t, 16)
    ensures forall src | Supplies(src, k, vals) :: TokenDrawn(src, k, kinds, t)
  {
    vals := TokenVals(t);
    forall src | Supplies(src, k, vals)
      ensures TokenDrawn(src, k, kinds, t)
    {
      TokenMade(src, k, kinds, t);
    }
  }

  lemma {:induction false} PickThenToken(p: nat, a: nat, ha: nat, kinds: nat, t: Token) returns (src: Source)
    requires a <= ha && kinds >= 3 && Fresh(t, 16)
    ensures Pick(src, p, 0, ha) == a && TokenDrawn(src, p + 1, kinds, t)
  {
    var w := TokenScript(p + 1, kinds, t);
    src := Supply(p, [a] + w);
    SuppliesBehind(src, p, [a], w);
    Picked(src, p, [a], 0, 0, ha);
  }

  lemma {:induction false} PicksThenToken(p: nat, a: nat, ha: nat, b: nat, hb: nat, kinds: nat, t: Token)
      returns (src: Source)
    requires a <= ha && b <= hb && kinds >= 3 && Fresh(t, 16)
    ensures Pick(src, p, 0, ha) == a && Pick(src, p + 1, 0, hb) == b && TokenDrawn(src, p + 2, kinds, t)
  {
    var w := TokenScript(p + 2, kinds, t);
    src := Supply(p, [a, b] + w);
    SuppliesBehind(src, p, [a, b], w);
    Picked(src, p, [a, b], 0, 0, ha);
    Picked(src, p, [a, b], 1, 0, hb);
  }

  lemma {:induction false} FlipScript(k: nat, t: Token, pos: nat, value: Byte) returns (vals: seq<nat>)
    requires FlipValue(t, pos, value)
    ensures forall src | Supplies(src, k, vals) :: FlipDraws(src, k, t, pos, value)
  {
    vals := FlipVals(t, pos, value);
    forall src | Supplies(src, k, vals)
      ensures FlipDraws(src, k, t, pos, value)
    {
      FlipMade(src, k, t, pos, value);
    }
  }

  lemma {:induction false} PicksThenFlip(p: nat, a: nat, ha: nat, pos: nat, hb: nat, t: Token, value: Byte)
      returns (src: Source)
    requires a <= ha && pos <= hb && FlipValue(t, pos, value)
    ensures Pick(src, p, 0, ha) == a && Pick(src, p + 1, 0, hb) == pos && FlipDraws(src, p + 2, t, pos, value)
  {
    var w := FlipScript(p + 2, t, pos, value);
    src := Supply(p, [a, pos] + w);
    SuppliesBehind(src, p, [a, pos], w);
    Picked(src, p, [a, pos], 0, 0, ha);
    Picked(src, p, [a, pos], 1, 0, hb);
  }

  lemma {:induction false} SpaceScript(k: nat, d: seq<Byte>) returns (vals: seq<nat>)
    requires |d| == 1 && IsSpace(d[0])
    ensures |vals| == 2
    ensures forall src | Supplies(src, k, vals) :: SpaceDrawn(src, k, 1, 1, d)
  {
    vals := SpaceVals(d, 1);
    forall src | Supplies(src, k, vals)
      ensures SpaceDrawn(src, k, 1, 1, d)
    {
      SpaceMade(src, k, 1, 1, d);
    }
  }

  lemma {:induction false} PicksThenSpaces(p: nat, a: nat, ha: nat, b: nat, hb: nat, c: nat, hc: nat,
                                           d: seq<Byte>, e: seq<Byte>) returns (src: Source)
    requires a <= ha && b <= hb && c <= hc
    requires |d| == |e| == 1 && IsSpace(d[0]) && IsSpace(e[0])
    ensures Pick(src, p, 0, ha) == a && Pick(src, p + 1, 0, hb) == b && Pick(src, p + 2, 0, hc) == c
    ensures SpaceDrawn(src, p + 3, 1, 1, d) && SpaceDrawn(src, p + 5, 1, 1, e)
  {
    var w := SpacesScript(p + 3, d, e);
    src := Supply(p, [a, b, c] + w);
    SuppliesBehind(src, p, [a, b, c], w);
    Picked(src, p, [a, b, c], 0, 0, ha);
    Picked(src, p, [a, b, c], 1, 0, hb);
    Picked(src, p, [a, b, c], 2, 0, hc);
  }

  lemma {:induction false} SpacesScript(k: nat, d: seq<Byte>, e: seq<Byte>) returns (vals: seq<nat>)
    requires |d| == |e| == 1 && IsSpace(d[0]) && IsSpace(e[0])
    ensures forall src | Supplies(src, k, vals) :: SpaceDrawn(src, k, 1, 1, d) && SpaceDrawn(src, k + 2, 1, 1, e)
  {
    var v := SpaceScript(k, d);
    var w := SpaceScript(k + 2, e);
    vals := v + w;
    forall src | Supplies(src, k, vals)
      ensures SpaceDrawn(src, k, 1, 1, d) && SpaceDrawn(src, k + 2, 1, 1, e)
    {
      SuppliesBehind(src, k, v, w);
    }
  }

  /** An entry of a table, drawn by its index. */
  lemma {:induction false} IndexOf<T>(table: seq<T>, x: T) returns (k: nat)
    requires x in table
    ensures k < |table| && table[k] == x
  {
    k :| 0 <= k < |table| && table[k] == x;
  }

  lemma {:induction false} CopyDrawn(p: nat, ts: seq<Token>, m: Move, env: Env, other: seq<Token>)
      returns (src: Source, next: nat)
    requires m.Copy? && Enabled(ts, m, env.maxTokens) && Supplied(m, env, other)
    ensures DecidesCopy(src, p, ts, env.maxTokens, Some(m), next)
  {
    var size := Min(|ts| - m.lo, env.maxTokens - |ts|);
    src := ThreePicks(p, m.lo, |ts| - 1, m.hi - m.lo - 1, size - 1, m.at, |ts|);
    next := p + 3;
  }

  lemma {:induction false} CrossoverInsertDrawn(p: nat, ts: seq<Token>, m: Move, env: Env, other: seq<Token>)
      returns (src: Source, next: nat)
    requires m.CrossoverInsert? && Enabled(ts, m, env.maxTokens) && Supplied(m, env, other)
    ensures DecidesCrossoverInsert(src, p, ts, other, env.maxTokens, Some(m), next)
  {
    var size := Min(|other| - m.lo, env.maxTokens - |ts|);
    src := ThreePicks(p, m.at, |ts|, m.lo, |other| - 1, m.hi - m.lo - 1, size - 1);
    next := p + 3;
  }

  lemma {:induction false} CrossoverReplaceDrawn(p: nat, ts: seq<Token>, m: Move, env: Env, other: seq<Token>)
      returns (src: Source, next: nat)
    requires m.CrossoverReplace? && Enabled(ts, m, env.maxTokens) && Supplied(m, env, other)
    ensures DecidesCrossoverReplace(src, p, ts, other, env.maxTokens, Some(m), next)
  {
    var room := env.maxTokens - |ts| + (m.dstHi - m.dstLo);
    src := FourPicks(p, m.dstLo, |ts| - 1, m.dstHi - m.dstLo - 1, Min(|ts| - m.dstLo, |ts|) - 1,
                     m.lo, |other| - 1, m.hi - m.lo - 1, Min(|other| - m.lo, room) - 1);
    next := p + 4;
  }

  lemma {:induction false} DeleteDrawn(p: nat, ts: seq<Token>, m: Move, env: Env, other: seq<Token>)
      returns (src: Source, next: nat)
    requires m.Delete? && Enabled(ts, m, env.maxTokens) && Supplied(m, env, other)
    ensures DecidesDelete(src, p, ts, Some(m), next)
  {
    src := TwoPicks(p, m.lo, |ts| - 1, m.hi - m.lo - 1, Min(|ts| - m.lo, |ts|) - 1);
    next := p + 2;
  }

  lemma {:induction false} FlipDrawn(p: nat, ts: seq<Token>, m: Move, env: Env, other: seq<Token>)
      returns (src: Source, next: nat)
    requires m.Flip? && Enabled(ts, m, env.maxTokens) && Supplied(m, env, other)
    ensures DecidesFlip(src, p, ts, Some(m), next)
  {
    src := PicksThenFlip(p, m.idx, |ts| - 1, m.pos, |ts[m.idx].data| - 1, ts[m.idx], m.value);
    next := p + 2 + FlipUses(src, p + 2, ts[m.idx], m.pos);
  }

  lemma {:induction false} InterestingDrawn(p: nat, ts: seq<Token>, m: Move, env: Env, other: seq<Token>)
      returns (src: Source, next: nat)
    requires m.Interesting? && Enabled(ts, m, env.maxTokens) && Supplied(m, env, other)
    ensures DecidesInteresting(src, p, ts, Some(m), next)
  {
    var k := IndexOf(INTERESTING, m.word);
    src := TwoPicks(p, m.idx, |ts| - 1, k, 32);
    next := p + 2;
  }

  lemma {:induction false} RandomInsertDrawn(p: nat, ts: seq<Token>, m: Move, env: Env, other: seq<Token>)
      returns (src: Source, next: nat)
    requires m.RandomInsert? && Enabled(ts, m, env.maxTokens) && Supplied(m, env, other)
    ensures DecidesRandomInsert(src, p, ts, env.maxTokens, Some(m), next)
  {
    src := PickThenToken(p, m.at, |ts|, 5, m.token);
    next := p + 1 + DrawsOf(src, p + 1, m.token);
  }

  lemma {:induction false} RandomReplaceDrawn(p: nat, ts: seq<Token>, m: Move, env: Env, other: seq<Token>)
      returns (src: Source, next: nat)
    requires m.RandomReplace? && Enabled(ts, m, env.maxTokens) && Supplied(m, env, other)
    ensures DecidesRandomReplace(src, p, ts, Some(m), next)
  {
    src := PickThenToken(p, m.idx, |ts| - 1, 5, m.token);
    next := p + 1 + DrawsOf(src, p + 1, m.token);
  }

  lemma {:induction false} RepeatCharDrawn(p: nat, ts: seq<Token>, m: Move, env: Env, other: seq<Token>)
      returns (src: Source, next: nat)
    requires m.RepeatChar? && Enabled(ts, m, env.maxTokens) && Supplied(m, env, other)
    ensures DecidesRepeatChar(src, p, ts, env.charAmount, Some(m), next)
  {
    src := TwoPicks(p, m.idx, |ts| - 1, m.pos, |ts[m.idx].data| - 1);
    next := p + 2;
  }

  lemma {:induction false} RepeatTokenDrawn(p: nat, ts: seq<Token>, m: Move, env: Env, other: seq<Token>)
      returns (src: Source, next: nat)
    requires m.RepeatToken? && Enabled(ts, m, env.maxTokens) && Supplied(m, env, other)
    ensures DecidesRepeatToken(src, p, ts, env.tokenAmount, env.maxTokens, Some(m), next)
  {
    src := OnePick(p, m.idx, |ts| - 1);
    next := p + 1;
  }

  lemma {:induction false} SpecialInsertDrawn(p: nat, ts: seq<Token>, m: Move, env: Env, other: seq<Token>)
      returns (src: Source, next: nat)
    requires m.SpecialInsert? && Enabled(ts, m, env.maxTokens) && Supplied(m, env, other)
    ensures DecidesSpecialInsert(src, p, ts, Some(m), next)
  {
    var k := IndexOf(SPECIAL, m.value);
    src := ThreePicks(p, m.idx, |ts| - 1, k, 32, m.pos, |ts[m.idx].data|);
    next := p + 3;
  }

  lemma {:induction false} SpecialReplaceDrawn(p: nat, ts: seq<Token>, m: Move, env: Env, other: seq<Token>)
      returns (src: Source, next: nat)
    requires m.SpecialReplace? && Enabled(ts, m, env.maxTokens) && Supplied(m, env, other)
    ensures DecidesSpecialReplace(src, p, ts, Some(m), next)
  {
    var k := IndexOf(SPECIAL, m.value);
    src := ThreePicks(p, m.idx, |ts| - 1, k, 32, m.pos, |ts[m.idx].data| - 1);
    next := p + 3;
  }

  lemma {:induction false} SplitDrawn(p: nat, ts: seq<Token>, m: Move, env: Env, other: seq<Token>)
      returns (src: Source, next: nat)
    requires m.Split? && Enabled(ts, m, env.maxTokens) && Supplied(m, env, other)
    ensures DecidesSplit(src, p, ts, env.maxTokens, Some(m), next)
  {
    src := PicksThenToken(p, m.idx, |ts| - 1, m.pos - 1, |ts[m.idx].data| - 2, 4, m.token);
    next := p + 2 + DrawsOf(src, p + 2, m.token);
  }

  lemma {:induction false} SwapTokensDrawn(p: nat, ts: seq<Token>, m: Move, env: Env, other: seq<Token>)
      returns (src: Source, next: nat)
    requires m.SwapTokens? && Enabled(ts, m, env.maxTokens) && Supplied(m, env, other)
    ensures DecidesSwapTokens(src, p, ts, Some(m), next)
  {
    src := TwoPicks(p, m.from, |ts| - 1, m.to, |ts| - 1);
    next := p + 2;
  }

  lemma {:induction false} SwapWordsDrawn(p: nat, ts: seq<Token>, m: Move, env: Env, other: seq<Token>)
      returns (src: Source, next: nat)
    requires m.SwapWords? && Enabled(ts, m, env.maxTokens) && Supplied(m, env, other)
    ensures DecidesSwapWords(src, p, ts, Some(m), next)
  {
    src := TwoPicks(p, m.from, |WordsOf(ts)| - 1, m.to, |WordsOf(ts)| - 1);
    next := p + 2;
  }

  lemma {:induction false} TruncateDrawn(p: nat, ts: seq<Token>, m: Move, env: Env, other: seq<Token>)
      returns (src: Source, next: nat)
    requires m.Truncate? && Enabled(ts, m, env.maxTokens) && Supplied(m, env, other)
    ensures DecidesTruncate(src, p, ts, Some(m), next)
  {
    src := TwoPicks(p, m.idx, |ts| - 1, m.newLen - 1, |ts[m.idx].data| - 2);
    next := p + 2;
  }

  lemma {:induction false} DictInsertDrawn(p: nat, ts: seq<Token>, m: Move, env: Env, other: seq<Token>)
      returns (src: Source, next: nat)
    requires m.DictInsert? && Enabled(ts, m, env.maxTokens) && Supplied(m, env, other)
    ensures DecidesDictInsert(src, p, ts, env.dict, env.maxTokens, Some(m), next)
  {
    var k := IndexOf(env.dict, m.word);
    src := ThreePicks(p, m.at, |ts|, k, |env.dict| - 1, 0, 1);
    next := p + if env.maxTokens - |ts| >= 3 then 3 else 2;
  }

  lemma {:induction false} PaddedDrawn(p: nat, ts: seq<Token>, m: Move, env: Env, other: seq<Token>)
      returns (src: Source, next: nat)
    requires m.DictInsertPadded? && Enabled(ts, m, env.maxTokens) && Supplied(m, env, other)
    ensures DecidesDictInsert(src, p, ts, env.dict, env.maxTokens, Some(m), next)
  {
    var k := IndexOf(env.dict, m.word);
    src := PicksThenSpaces(p, m.at, |ts|, k, |env.dict| - 1, 1, 1, m.before.data, m.after.data);
    next := p + 7;
  }

  lemma {:induction false} DictReplaceDrawn(p: nat, ts: seq<Token>, m: Move, env: Env, other: seq<Token>)
      returns (src: Source, next: nat)
    requires m.DictReplace? && Enabled(ts, m, env.maxTokens) && Supplied(m, env, other)
    ensures DecidesDictReplace(src, p, ts, env.dict, Some(m), next)
  {
    var k := IndexOf(env.dict, m.word);
    src := TwoPicks(p, m.idx, |ts| - 1, k, |env.dict| - 1);
    next := p + 2;
  }

  lemma {:induction false} SwapConstantsDrawn(p: nat, ts: seq<Token>, m: Move, env: Env, other: seq<Token>)
      returns (src: Source, next: nat)
    requires m.SwapConstants? && Enabled(ts, m, env.maxTokens) && Supplied(m, env, other)
    ensures DecidesSwapConstants(src, p, ts, env.dict, Some(m), next)
  {
    var k := IndexOf(env.dict, m.word);
    src := TwoPicks(p, m.idx, |ts| - 1, k, |env.dict| - 1);
    next := p + 2;
  }

  lemma {:induction false} TokenMoveIsDrawn(p: nat, ts: seq<Token>, m: Move, env: Env, other: seq<Token>)
      returns (src: Source, next: nat)
    requires (PutsToken(m) || ChangesData(m)) && Enabled(ts, m, env.maxTokens) && Supplied(m, env, other)
    ensures DecidesAs(Selector(m), src, p, ts, env, other, Some(m), next)
  {
    match m
    case Flip(_, _, _) => src, next := FlipDrawn(p, ts, m, env, other);
    case Interesting(_, _) => src, next := InterestingDrawn(p, ts, m, env, other);
    case RandomReplace(_, _) => src, next := RandomReplaceDrawn(p, ts, m, env, other);
    case RepeatChar(_, _, _) => src, next := RepeatCharDrawn(p, ts, m, env, other);
    case SpecialInsert(_, _, _) => src, next := SpecialInsertDrawn(p, ts, m, env, other);
    case SpecialReplace(_, _, _) => src, next := SpecialReplaceDrawn(p, ts, m, env, other);
    case Truncate(_, _) => src, next := TruncateDrawn(p, ts, m, env, other);
    case DictReplace(_, _) => src, next := DictReplaceDrawn(p, ts, m, env, other);
    case SwapConstants(_, _) => src, next := SwapConstantsDrawn(p, ts, m, env, other);
  }

  lemma {:induction false} ListMoveIsDrawn(p: nat, ts: seq<Token>, m: Move, env: Env, other: seq<Token>)
      returns (src: Source, next: nat)
    requires !PutsToken(m) && !ChangesData(m) && Enabled(ts, m, env.maxTokens) && Supplied(m, env, other)
    ensures DecidesAs(Selector(m), src, p, ts, env, other, Some(m), next)
  {
    match m
    case Copy(_, _, _) => src, next := CopyDrawn(p, ts, m, env, other);
    case CrossoverInsert(_, _, _, _) => src, next := CrossoverInsertDrawn(p, ts, m, env, other);
    case CrossoverReplace(_, _, _, _, _) => src, next := CrossoverReplaceDrawn(p, ts, m, env, other);
    case Delete(_, _) => src, next := DeleteDrawn(p, ts, m, env, other);
    case RandomInsert(_, _) => src, next := RandomInsertDrawn(p, ts, m, env, other);
    case RepeatToken(_, _) => src, next := RepeatTokenDrawn(p, ts, m, env, other);
    case Split(_, _, _) => src, next := SplitDrawn(p, ts, m, env, other);
    case SwapTokens(_, _) => src, next := SwapTokensDrawn(p, ts, m, env, other);
    case SwapWords(_, _) => src, next := SwapWordsDrawn(p, ts, m, env, other);
    case DictInsert(_, _) => src, next := DictInsertDrawn(p, ts, m, env, other);
    case DictInsertPadded(_, _, _, _) => src, next := PaddedDrawn(p, ts, m, env, other);
  }

  lemma {:induction false} MoveIsDrawn(p: nat, ts: seq<Token>, m: Move, env: Env, other: seq<Token>)
      returns (src: Source, next: nat)
    requires Enabled(ts, m, env.maxTokens) && Supplied(m, env, other)
    ensures Decides(Selector(m), src, p, ts, env, other, Some(m), next)
  {
    if PutsToken(m) || ChangesData(m) {
      src, next := TokenMoveIsDrawn(p, ts, m, env, other);
    } else {
      src, next := ListMoveIsDrawn(p, ts, m, env, other);
    }
  }

  // ---------- Only moves can be drawn ----------

  lemma {:induction false} FlipDrawsValue(src: Source, k: nat, t: Token, pos: nat, value: Byte)
    requires FlipDraws(src, k, t, pos, value)
    ensures FlipValue(t, pos, value)
  {
  }

  lemma {:induction false} RangeIsEnabled(choice: nat, src: Source, p: nat, ts: seq<Token>, env: Env,
                                          other: seq<Token>, m: Move, next: nat)
    requires choice <= 3 && DecidesAs(choice, src, p, ts, env, other, Some(m), next)
    ensures Enabled(ts, m, env.maxTokens) && Supplied(m, env, other)
  {
  }

  lemma {:induction false} FlipIsEnabled(src: Source, p: nat, ts: seq<Token>, m: Move, max: nat, next: nat)
    requires DecidesFlip(src, p, ts, Some(m), next)
    ensures Enabled(ts, m, max)
  {
    FlipDrawsValue(src, p + 2, ts[m.idx], m.pos, m.value);
  }

  lemma {:induction false} FreshIsEnabled(choice: nat, src: Source, p: nat, ts: seq<Token>, env: Env,
                                          other: seq<Token>, m: Move, next: nat)
    requires choice in {6, 7, 12} && DecidesAs(choice, src, p, ts, env, other, Some(m), next)
    ensures Enabled(ts, m, env.maxTokens) && Supplied(m, env, other)
  {
    if choice == 12 {
      DrawnIsFresh(src, p + 2, 4, m.token);
    } else {
      DrawnIsFresh(src, p + 1, 5, m.token);
    }
  }

  lemma {:induction false} TokenMoveIsEnabled(choice: nat, src: Source, p: nat, ts: seq<Token>, env: Env,
                                              other: seq<Token>, m: Move, next: nat)
    requires choice in {5, 8, 9, 10, 11, 13, 14, 15} && DecidesAs(choice, src, p, ts, env, other, Some(m), next)
    ensures Enabled(ts, m, env.maxTokens) && Supplied(m, env, other)
  {
  }

  lemma {:induction false} DictMoveIsEnabled(choice: nat, src: Source, p: nat, ts: seq<Token>, env: Env,
                                             other: seq<Token>, m: Move, next: nat)
    requires choice >= 16 && DecidesAs(choice, src, p, ts, env, other, Some(m), next)
    ensures Enabled(ts, m, env.maxTokens) && Supplied(m, env, other)
  {
    if m.DictInsertPadded? {
      SpaceRange(p + 3, 1, 1, m.before.data);
      SpaceRange(p + 5, 1, 1, m.after.data);
    }
  }

  lemma {:induction false} DrawnIsEnabled(choice: nat, src: Source, p: nat, ts: seq<Token>, env: Env,
                                          other: seq<Token>, m: Move, next: nat)
    requires Decides(choice, src, p, ts, env, other, Some(m), next)
    ensures Enabled(ts, m, env.maxTokens) && Supplied(m, env, other)
  {
    assert Chosen(choice);
    if choice <= 3 {
      RangeIsEnabled(choice, src, p, ts, env, other, m, next);
    } else if choice == 4 {
      FlipIsEnabled(src, p, ts, m, env.maxTokens, next);
    } else if choice in {6, 7, 12} {
      FreshIsEnabled(choice, src, p, ts, env, other, m, next);
    } else if choice >= 16 {
      DictMoveIsEnabled(choice, src, p, ts, env, other, m, next);
    } else {
      TokenMoveIsEnabled(choice, src, p, ts, env, other, m, next);
    }
  }

  /** The state machine is exact: a move is one that the mutator can make, for some random numbers, if and only if
      it is enabled and takes what it takes from its partner and the environment. */
  lemma {:induction false} MovesAreTheDrawn(p: nat, ts: seq<Token>, m: Move, env: Env, other: seq<Token>)
    ensures (exists src, next :: Decides(Selector(m), src, p, ts, env, other, Some(m), next))
       <==> Enabled(ts, m, env.maxTokens) && Supplied(m, env, other)
  {
    if Enabled(ts, m, env.maxTokens) && Supplied(m, env, other) {
      var src, next := MoveIsDrawn(p, ts, m, env, other);
    }
    forall src, next | Decides(Selector(m), src, p, ts, env, other, Some(m), next)
      ensures Enabled(ts, m, env.maxTokens) && Supplied(m, env, other)
    {
      DrawnIsEnabled(Selector(m), src, p, ts, env, other, m, next);
    }
  }
}
