/** The nineteen token mutators. Each edits the token vector in place and is proved against one move of the
    state machine, whose choices are the draws that the source makes, in the source's order. */
module Mutators {
  import opened Bytes
  import opened Tokens
  import opened Random
  import opened Moves
  import opened Draws

  method MutateCopy(rand: Rand, stream: TokenStream, maxLen: nat) returns (mutated: bool, ghost move: Move)
    modifies rand, stream
    ensures move.Copy? && Outcome(old(stream.tokens), stream.tokens, mutated, move, maxLen)
    ensures mutated <==> 0 < |old(stream.tokens)| < maxLen
    ensures DecidesCopy(rand.source, old(rand.pos), old(stream.tokens), maxLen, Made(mutated, move), rand.pos)
  {
    move := Copy(0, 0, 0);
    if |stream.tokens| == 0 || |stream.tokens| >= maxLen {
      return false, move;
    }
    var start, end := RandomRange(rand, |stream.tokens|, maxLen - |stream.tokens|);
    var newElems := stream.tokens[start..end];
    var idx := rand.Between(0, |stream.tokens|);
    move := Copy(start, end, idx);
    stream.tokens := stream.tokens[..idx] + newElems + stream.tokens[idx..];
    mutated := true;
  }

  method MutateCrossoverReplace(rand: Rand, stream: TokenStream, other: seq<Token>, maxLen: nat)
      returns (mutated: bool, ghost move: Move)
    modifies rand, stream
    ensures move.CrossoverReplace? && Outcome(old(stream.tokens), stream.tokens, mutated, move, maxLen)
    ensures mutated <==> 0 < |old(stream.tokens)| < maxLen && other != []
    ensures DecidesCrossoverReplace(rand.source, old(rand.pos), old(stream.tokens), other, maxLen,
                                    Made(mutated, move), rand.pos)
  {
    move := CrossoverReplace(other, 0, 0, 0, 0);
    if |stream.tokens| == 0 || |other| == 0 || |stream.tokens| >= maxLen {
      return false, move;
    }
    var dstStart, dstEnd := RandomRange(rand, |stream.tokens|, |stream.tokens|);
    var srcStart, srcEnd := RandomRange(rand, |other|, maxLen - |stream.tokens| + dstEnd - dstStart);
    move := CrossoverReplace(other, srcStart, srcEnd, dstStart, dstEnd);
    stream.tokens := stream.tokens[..dstStart] + other[srcStart..srcEnd] + stream.tokens[dstEnd..];
    mutated := true;
  }

  method MutateCrossoverInsert(rand: Rand, stream: TokenStream, other: seq<Token>, maxLen: nat)
      returns (mutated: bool, ghost move: Move)
    modifies rand, stream
    ensures move.CrossoverInsert? && Outcome(old(stream.tokens), stream.tokens, mutated, move, maxLen)
    ensures mutated <==> 0 < |old(stream.tokens)| < maxLen && other != []
    ensures DecidesCrossoverInsert(rand.source, old(rand.pos), old(stream.tokens), other, maxLen,
                                   Made(mutated, move), rand.pos)
  {
    move := CrossoverInsert(other, 0, 0, 0);
    if |stream.tokens| == 0 || |other| == 0 || |stream.tokens| >= maxLen {
      return false, move;
    }
    var dstIndex := rand.Between(0, |stream.tokens|);
    var srcStart, srcEnd := RandomRange(rand, |other|, maxLen - |stream.tokens|);
    move := CrossoverInsert(other, srcStart, srcEnd, dstIndex);
    stream.tokens := stream.tokens[..dstIndex] + other[srcStart..srcEnd] + stream.tokens[dstIndex..];
    mutated := true;
  }

  method MutateDelete(rand: Rand, stream: TokenStream) returns (mutated: bool, ghost move: Move)
    modifies rand, stream
    ensures move.Delete? && Outcome(old(stream.tokens), stream.tokens, mutated, move, 0)
    ensures mutated <==> old(stream.tokens) != []
    ensures DecidesDelete(rand.source, old(rand.pos), old(stream.tokens), Made(mutated, move), rand.pos)
  {
    move := Delete(0, 0);
    if |stream.tokens| == 0 {
      return false, move;
    }
    var start, end := RandomRange(rand, |stream.tokens|, |stream.tokens|);
    move := Delete(start, end);
    stream.tokens := stream.tokens[..start] + [] + stream.tokens[end..];
    mutated := true;
  }

  /** The first allowed byte from c0 on, counting past 255 to 0. */
  method FindValidByte(c0: Byte) returns (c: Byte)
    ensures IsTextTail(c)
    ensures c0 < 128 ==> c0 <= c && forall b: Byte | c0 <= b < c :: !IsTextTail(b)
    ensures c0 >= 128 ==> c == 0
  {
    c := c0;
    var allowed := LookUp(c);
    while !allowed
      invariant allowed == IsTextTail(c)
      invariant c0 < 128 ==> c0 <= c <= 127 && forall b: Byte | c0 <= b < c :: !IsTextTail(b)
      invariant c0 >= 128 ==> c >= 128 || c == 0
      decreases if c == 0 then 0 else 256 - c
    {
      assert c < 255 ==> (c + 1) % 256 == c + 1;
      c := (c + 1) % 256;
      allowed := LookUp(c);
    }
  }

  method MutateFlip(rand: Rand, stream: TokenStream) returns (mutated: bool, ghost move: Move)
    modifies rand, stream
    ensures move.Flip? && Outcome(old(stream.tokens), stream.tokens, mutated, move, 0)
    ensures DecidesFlip(rand.source, old(rand.pos), old(stream.tokens), Made(mutated, move), rand.pos)
  {
    move := Flip(0, 0, 0);
    if |stream.tokens| == 0 {
      return false, move;
    }
    var idx := rand.Between(0, |stream.tokens| - 1);
    move := Flip(idx, 0, 0);
    var token := stream.tokens[idx];
    if token.Constant? || |token.data| == 0 {
      return false, move;
    }
    var pos := rand.Between(0, |token.data| - 1);
    var value: Byte;
    match token {
      case Whitespace(_) =>
        var c := rand.Between(0, 5);
        value := WHITESPACE[c];
      case Number(data) =>
        if pos == 0 && |data| > 1 {
          var kind := rand.Between(0, 2);
          if kind == 0 {
            value := DASH;
          } else if kind == 1 {
            value := PLUS;
          } else {
            var c := rand.Between(0, 9);
            value := DIGITS[c];
          }
        } else {
          var c := rand.Between(0, 9);
          value := DIGITS[c];
        }
      case Text(_) =>
        var newValue := rand.Between(0, 127);
        value := FindValidByte(newValue);
    }
    move := Flip(idx, pos, value);
    stream.tokens := stream.tokens[idx := token.(data := token.data[pos := value])];
    mutated := true;
  }

  method MutateInteresting(rand: Rand, stream: TokenStream) returns (mutated: bool, ghost move: Move)
    modifies rand, stream
    ensures move.Interesting? && Outcome(old(stream.tokens), stream.tokens, mutated, move, 0)
    ensures DecidesInteresting(rand.source, old(rand.pos), old(stream.tokens), Made(mutated, move), rand.pos)
  {
    move := Interesting(|stream.tokens|, []);
    if |stream.tokens| == 0 {
      return false, move;
    }
    var start := rand.Between(0, |stream.tokens| - 1);
    ghost var ts := stream.tokens;
    for i := start to |stream.tokens|
      invariant FirstFrom(ts, start, IsNumber) >= i
      invariant stream.tokens == ts && rand.pos == old(rand.pos) + 1
    {
      var token := stream.tokens[i];
      if token.Number? {
        var k := rand.Between(0, |INTERESTING| - 1);
        move := Interesting(i, INTERESTING[k]);
        stream.tokens := stream.tokens[i := token.(data := INTERESTING[k])];
        return true, move;
      }
    }
    mutated := false;
  }

  /** A random token of a random kind. */
  method RandomToken(rand: Rand, kinds: nat) returns (token: Token)
    requires kinds >= 3
    modifies rand
    ensures Fresh(token, 16) && TokenDrawn(rand.source, old(rand.pos), kinds, token)
    ensures rand.pos == old(rand.pos) + DrawsOf(rand.source, old(rand.pos), token)
  {
    var kind := rand.Between(0, kinds - 1);
    if kind == 0 {
      token := RandomNumber(rand, 16);
    } else if kind == 1 {
      token := RandomWhitespace(rand, 1, 16);
    } else {
      token := RandomText(rand, 1, 16);
    }
  }

  method MutateRandomInsert(rand: Rand, stream: TokenStream, maxLen: nat) returns (mutated: bool, ghost move: Move)
    modifies rand, stream
    ensures move.RandomInsert? && Outcome(old(stream.tokens), stream.tokens, mutated, move, maxLen)
    ensures mutated <==> |old(stream.tokens)| < maxLen
    ensures DecidesRandomInsert(rand.source, old(rand.pos), old(stream.tokens), maxLen, Made(mutated, move), rand.pos)
  {
    move := RandomInsert(0, Constant([]));
    if |stream.tokens| >= maxLen {
      return false, move;
    }
    var idx := rand.Between(0, |stream.tokens|);
    var newElem := RandomToken(rand, 5);
    move := RandomInsert(idx, newElem);
    stream.tokens := stream.tokens[..idx] + [newElem] + stream.tokens[idx..];
    mutated := true;
  }

  method MutateRandomReplace(rand: Rand, stream: TokenStream) returns (mutated: bool, ghost move: Move)
    modifies rand, stream
    ensures move.RandomReplace? && Outcome(old(stream.tokens), stream.tokens, mutated, move, 0)
    ensures mutated <==> old(stream.tokens) != []
    ensures DecidesRandomReplace(rand.source, old(rand.pos), old(stream.tokens), Made(mutated, move), rand.pos)
  {
    move := RandomReplace(0, Constant([]));
    if |stream.tokens| == 0 {
      return false, move;
    }
    var idx := rand.Between(0, |stream.tokens| - 1);
    var newElem := RandomToken(rand, 5);
    move := RandomReplace(idx, newElem);
    stream.tokens := stream.tokens[idx := newElem];
    mutated := true;
  }

  method MutateRepeatToken(rand: Rand, stream: TokenStream, amount: nat, maxLen: nat)
      returns (mutated: bool, ghost move: Move)
    modifies rand, stream
    ensures move.RepeatToken? && Outcome(old(stream.tokens), stream.tokens, mutated, move, maxLen)
    ensures move.amount == amount
    ensures mutated ==>
              var ts := old(stream.tokens);
              && move.idx < |ts|
              && LeastCopies(|stream.tokens| - |ts|, |ts[move.idx].data|, amount, maxLen - |ts|)
    ensures DecidesRepeatToken(rand.source, old(rand.pos), old(stream.tokens), amount, maxLen,
                               Made(mutated, move), rand.pos)
  {
    move := RepeatToken(|stream.tokens|, amount);
    if |stream.tokens| == 0 || |stream.tokens| >= maxLen {
      return false, move;
    }
    var idx := rand.Between(0, |stream.tokens| - 1);
    move := RepeatToken(idx, amount);
    var elem := stream.tokens[idx];
    if |elem.data| == 0 {
      return false, move;
    }
    var n := 1 + amount / |elem.data|;
    n := Min(n, maxLen - |stream.tokens|);
    CopiesAreLeast(stream.tokens, idx, amount, maxLen);
    stream.tokens := stream.tokens[..idx] + Repeat(elem, n) + stream.tokens[idx..];
    mutated := true;
  }

  method MutateRepeatChar(rand: Rand, stream: TokenStream, amount: nat) returns (mutated: bool, ghost move: Move)
    modifies rand, stream
    ensures move.RepeatChar? && Outcome(old(stream.tokens), stream.tokens, mutated, move, 0)
    ensures move.amount == amount
    ensures DecidesRepeatChar(rand.source, old(rand.pos), old(stream.tokens), amount, Made(mutated, move), rand.pos)
  {
    move := RepeatChar(|stream.tokens|, 0, amount);
    if |stream.tokens| == 0 {
      return false, move;
    }
    var idx := rand.Between(0, |stream.tokens| - 1);
    move := RepeatChar(idx, 0, amount);
    var elem := stream.tokens[idx];
    if elem.Constant? {
      return false, move;
    }
    var elemLen := |elem.data|;
    if elemLen == 0 || elemLen >= amount {
      return false, move;
    }
    var n := amount - elemLen;
    var pos := rand.Between(0, elemLen - 1);
    move := RepeatChar(idx, pos, amount);
    if pos == 0 && elem.Number? {
      return false, move;
    }
    var c := elem.data[pos];
    stream.tokens := stream.tokens[idx := elem.(data := elem.data[..pos] + Repeat(c, n) + elem.data[pos..])];
    mutated := true;
  }

  /** A special character, drawn from the table. */
  method DrawSpecial(rand: Rand) returns (value: Byte)
    modifies rand
    ensures rand.pos == old(rand.pos) + 1
    ensures value == SPECIAL[rand.Draw(old(rand.pos), 0, 32)] && value in SPECIAL
  {
    var k := rand.Between(0, |SPECIAL| - 1);
    value := SPECIAL[k];
  }

  method MutateSpecialInsert(rand: Rand, stream: TokenStream) returns (mutated: bool, ghost move: Move)
    modifies rand, stream
    ensures move.SpecialInsert? && Outcome(old(stream.tokens), stream.tokens, mutated, move, 0)
    ensures DecidesSpecialInsert(rand.source, old(rand.pos), old(stream.tokens), Made(mutated, move), rand.pos)
  {
    move := SpecialInsert(|stream.tokens|, 0, 0);
    if |stream.tokens| == 0 {
      return false, move;
    }
    var start := rand.Between(0, |stream.tokens| - 1);
    ghost var ts := stream.tokens;
    for i := start to |stream.tokens|
      invariant FirstFrom(ts, start, IsText) >= i
      invariant stream.tokens == ts && rand.pos == old(rand.pos) + 1
    {
      var token := stream.tokens[i];
      if token.Text? {
        var value := DrawSpecial(rand);
        var pos := rand.Between(0, |token.data|);
        move := SpecialInsert(i, pos, value);
        stream.tokens := stream.tokens[i := token.(data := token.data[..pos] + [value] + token.data[pos..])];
        return true, move;
      }
    }
    mutated := false;
  }

  /** Overwrite a drawn byte of token idx, a nonempty text, with a drawn special character. */
  method OverwriteSpecial(rand: Rand, stream: TokenStream, idx: nat) returns (ghost move: Move)
    requires idx < |stream.tokens| && IsNonemptyText(stream.tokens[idx])
    modifies rand, stream
    ensures move.SpecialReplace? && Outcome(old(stream.tokens), stream.tokens, true, move, 0)
    ensures var p, n := old(rand.pos), |old(stream.tokens)[idx].data|;
            move == SpecialReplace(idx, rand.Draw(p + 1, 0, n - 1), SPECIAL[rand.Draw(p, 0, 32)])
    ensures rand.pos == old(rand.pos) + 2
  {
    var token := stream.tokens[idx];
    var value := DrawSpecial(rand);
    var pos := rand.Between(0, |token.data| - 1);
    move := SpecialReplace(idx, pos, value);
    stream.tokens := stream.tokens[idx := token.(data := token.data[pos := value])];
  }

  /** Overwrite a byte of the first nonempty text token from `start` on. */
  method OverwriteFrom(rand: Rand, stream: TokenStream, start: nat) returns (mutated: bool, ghost move: Move)
    requires start < |stream.tokens|
    modifies rand, stream
    ensures move.SpecialReplace? && Outcome(old(stream.tokens), stream.tokens, mutated, move, 0)
    ensures var ts, p := old(stream.tokens), old(rand.pos);
            && move.idx == FirstFrom(ts, start, IsNonemptyText)
            && mutated == (move.idx < |ts|)
            && (mutated ==> move.value == SPECIAL[rand.Draw(p, 0, 32)]
                            && move.pos == rand.Draw(p + 1, 0, |ts[move.idx].data| - 1))
            && rand.pos == p + if mutated then 2 else 0
  {
    move := SpecialReplace(|stream.tokens|, 0, 0);
    ghost var ts := stream.tokens;
    for i := start to |stream.tokens|
      invariant FirstFrom(ts, start, IsNonemptyText) >= i
      invariant stream.tokens == ts && rand.pos == old(rand.pos)
    {
      var token := stream.tokens[i];
      if token.Text? {
        if |token.data| == 0 {
          continue;
        }
        move := OverwriteSpecial(rand, stream, i);
        return true, move;
      }
    }
    mutated := false;
  }

  method MutateSpecialReplace(rand: Rand, stream: TokenStream) returns (mutated: bool, ghost move: Move)
    modifies rand, stream
    ensures move.SpecialReplace? && Outcome(old(stream.tokens), stream.tokens, mutated, move, 0)
    ensures DecidesSpecialReplace(rand.source, old(rand.pos), old(stream.tokens), Made(mutated, move), rand.pos)
  {
    move := SpecialReplace(|stream.tokens|, 0, 0);
    if |stream.tokens| == 0 {
      return false, move;
    }
    var start := rand.Between(0, |stream.tokens| - 1);
    mutated, move := OverwriteFrom(rand, stream, start);
  }

  lemma {:induction false} InsertBehind(ts: seq<Token>, idx: nat, t: Token, x: Token, y: Token)
    requires idx < |ts|
    ensures var us := ts[idx := t]; us[..idx + 1] + [x, y] + us[idx + 1..] == Splice(ts, idx, idx + 1, [t, x, y])
  {
  }

  /** Cut token idx in two at pos, and put a random token between the halves. */
  method SplitAt(rand: Rand, stream: TokenStream, idx: nat, pos: nat) returns (ghost move: Move)
    requires idx < |stream.tokens| && pos <= |stream.tokens[idx].data|
    modifies rand, stream
    ensures move.Split? && move.idx == idx && move.pos == pos
    ensures Fresh(move.token, 16) && TokenDrawn(rand.source, old(rand.pos), 4, move.token)
    ensures rand.pos == old(rand.pos) + DrawsOf(rand.source, old(rand.pos), move.token)
    ensures var t := old(stream.tokens)[idx];
            stream.tokens == Splice(old(stream.tokens), idx, idx + 1,
                                    [t.(data := t.data[..pos]), move.token, t.(data := t.data[pos..])])
  {
    var token := stream.tokens[idx];
    var splitElem := token.(data := []);
    splitElem := splitElem.(data := token.data[pos..]);
    stream.tokens := stream.tokens[idx := token.(data := token.data[..pos])];
    var newElem := RandomToken(rand, 4);
    move := Split(idx, pos, newElem);
    InsertBehind(old(stream.tokens), idx, token.(data := token.data[..pos]), newElem, splitElem);
    stream.tokens := stream.tokens[..idx + 1] + [newElem, splitElem] + stream.tokens[idx + 1..];
  }

  lemma {:induction false} SplitOutcome(ts: seq<Token>, idx: nat, pos: nat, x: Token, max: nat)
    requires idx < |ts| && |ts| + 2 <= max && !ts[idx].Constant?
    requires 1 <= pos < |ts[idx].data| && !(pos == 1 && ts[idx].Number?) && Fresh(x, 16)
    ensures var t := ts[idx];
            var after := Splice(ts, idx, idx + 1, [t.(data := t.data[..pos]), x, t.(data := t.data[pos..])]);
            Outcome(ts, after, true, Split(idx, pos, x), max)
  {
  }

  method MutateSplit(rand: Rand, stream: TokenStream, maxLen: nat) returns (mutated: bool, ghost move: Move)
    modifies rand, stream
    ensures move.Split? && Outcome(old(stream.tokens), stream.tokens, mutated, move, maxLen)
    ensures DecidesSplit(rand.source, old(rand.pos), old(stream.tokens), maxLen, Made(mutated, move), rand.pos)
  {
    move := Split(|stream.tokens|, 0, Constant([]));
    if |stream.tokens| == 0 || maxLen - |stream.tokens| < 2 {
      return false, move;
    }
    var idx := rand.Between(0, |stream.tokens| - 1);
    move := Split(idx, 0, Constant([]));
    var token := stream.tokens[idx];
    if |token.data| <= 1 || token.Constant? {
      return false, move;
    }
    var extra := rand.Between(0, |token.data| - 2);
    var pos := 1 + extra;
    move := Split(idx, pos, Constant([]));
    if token.Number? && pos == 1 {
      return false, move;
    }
    ghost var ts := stream.tokens;
    move := SplitAt(rand, stream, idx, pos);
    SplitOutcome(ts, idx, pos, move.token, maxLen);
    mutated := true;
  }

  method MutateSwapTokens(rand: Rand, stream: TokenStream) returns (mutated: bool, ghost move: Move)
    modifies rand, stream
    ensures move.SwapTokens? && Outcome(old(stream.tokens), stream.tokens, mutated, move, 0)
    ensures mutated <==> old(stream.tokens) != [] && move.from != move.to
    ensures DecidesSwapTokens(rand.source, old(rand.pos), old(stream.tokens), Made(mutated, move), rand.pos)
  {
    move := SwapTokens(0, 0);
    if |stream.tokens| == 0 {
      return false, move;
    }
    var from := rand.Between(0, |stream.tokens| - 1);
    var to := rand.Between(0, |stream.tokens| - 1);
    move := SwapTokens(from, to);
    if from == to {
      return false, move;
    }
    var x, y := stream.tokens[from], stream.tokens[to];
    stream.tokens := stream.tokens[from := y][to := x];
    mutated := true;
  }

  method MutateTruncate(rand: Rand, stream: TokenStream) returns (mutated: bool, ghost move: Move)
    modifies rand, stream
    ensures move.Truncate? && Outcome(old(stream.tokens), stream.tokens, mutated, move, 0)
    ensures DecidesTruncate(rand.source, old(rand.pos), old(stream.tokens), Made(mutated, move), rand.pos)
  {
    move := Truncate(|stream.tokens|, 0);
    if |stream.tokens| == 0 {
      return false, move;
    }
    var idx := rand.Between(0, |stream.tokens| - 1);
    move := Truncate(idx, 0);
    var elem := stream.tokens[idx];
    if elem.Constant? || |elem.data| < 2 {
      return false, move;
    }
    var extra := rand.Between(0, |elem.data| - 2);
    var newLen := 1 + extra;
    move := Truncate(idx, newLen);
    if newLen == 1 && elem.Number? && (elem.data[0] == DASH || elem.data[0] == PLUS) {
      return false, move;
    }
    stream.tokens := stream.tokens[idx := elem.(data := elem.data[..newLen])];
    mutated := true;
  }

  /** Insert a word at idx between two whitespace tokens. */
  method InsertPadded(rand: Rand, stream: TokenStream, idx: nat, word: seq<Byte>) returns (ghost move: Move)
    requires idx <= |stream.tokens|
    modifies rand, stream
    ensures move.DictInsertPadded? && move.at == idx && move.word == word
    ensures Fresh(move.before, 1) && move.before.Whitespace? && Fresh(move.after, 1) && move.after.Whitespace?
    ensures SpaceDrawn(rand.source, old(rand.pos), 1, 1, move.before.data)
    ensures SpaceDrawn(rand.source, old(rand.pos) + 2, 1, 1, move.after.data)
    ensures rand.pos == old(rand.pos) + 4
    ensures stream.tokens == Splice(old(stream.tokens), idx, idx, [move.before, Constant(word), move.after])
  {
    var before := RandomWhitespace(rand, 1, 1);
    var after := RandomWhitespace(rand, 1, 1);
    move := DictInsertPadded(idx, before, word, after);
    stream.tokens := stream.tokens[..idx] + [before, Constant(word), after] + stream.tokens[idx..];
  }

  method MutateDictInsert(rand: Rand, stream: TokenStream, dict: seq<seq<Byte>>, maxLen: nat)
      returns (mutated: bool, ghost move: Move)
    modifies rand, stream
    ensures move.DictInsert? || move.DictInsertPadded?
    ensures Outcome(old(stream.tokens), stream.tokens, mutated, move, maxLen)
    ensures mutated <==> dict != [] && |old(stream.tokens)| < maxLen
    ensures DecidesDictInsert(rand.source, old(rand.pos), old(stream.tokens), dict, maxLen,
                              Made(mutated, move), rand.pos)
  {
    move := DictInsert(|stream.tokens| + 1, []);
    if |dict| == 0 || |stream.tokens| >= maxLen {
      return false, move;
    }
    var cap := maxLen - |stream.tokens|;
    var idx := rand.Between(0, |stream.tokens|);
    var item := rand.Between(0, |dict| - 1);
    var newElem := dict[item];
    var heads := 0;
    if cap >= 3 {
      heads := rand.Between(0, 1);
    }
    if cap >= 3 && heads == 1 {
      move := InsertPadded(rand, stream, idx, newElem);
    } else {
      move := DictInsert(idx, newElem);
      stream.tokens := stream.tokens[..idx] + [Constant(newElem)] + stream.tokens[idx..];
    }
    mutated := true;
  }

  method MutateDictReplace(rand: Rand, stream: TokenStream, dict: seq<seq<Byte>>)
      returns (mutated: bool, ghost move: Move)
    modifies rand, stream
    ensures move.DictReplace? && Outcome(old(stream.tokens), stream.tokens, mutated, move, 0)
    ensures DecidesDictReplace(rand.source, old(rand.pos), old(stream.tokens), dict, Made(mutated, move), rand.pos)
  {
    move := DictReplace(|stream.tokens|, []);
    if |dict| == 0 || |stream.tokens| == 0 {
      return false, move;
    }
    var start := rand.Between(0, |stream.tokens| - 1);
    var item := rand.Between(0, |dict| - 1);
    var newElem := dict[item];
    ghost var ts := stream.tokens;
    for i := start to |stream.tokens|
      invariant FirstFrom(ts, start, IsNotWhitespace) >= i
      invariant stream.tokens == ts && rand.pos == old(rand.pos) + 2
    {
      if !stream.tokens[i].Whitespace? {
        move := DictReplace(i, newElem);
        stream.tokens := stream.tokens[i := Constant(newElem)];
        return true, move;
      }
    }
    mutated := false;
  }

  method MutateSwapConstants(rand: Rand, stream: TokenStream, dict: seq<seq<Byte>>)
      returns (mutated: bool, ghost move: Move)
    modifies rand, stream
    ensures move.SwapConstants? && Outcome(old(stream.tokens), stream.tokens, mutated, move, 0)
    ensures DecidesSwapConstants(rand.source, old(rand.pos), old(stream.tokens), dict, Made(mutated, move), rand.pos)
  {
    move := SwapConstants(|stream.tokens|, []);
    if |stream.tokens| == 0 || |dict| == 0 {
      return false, move;
    }
    var start := rand.Between(0, |stream.tokens| - 1);
    ghost var ts := stream.tokens;
    for i := start to |stream.tokens|
      invariant FirstFrom(ts, start, IsConstant) >= i
      invariant stream.tokens == ts && rand.pos == old(rand.pos) + 1
    {
      var token := stream.tokens[i];
      if token.Constant? {
        var item := rand.Between(0, |dict| - 1);
        move := SwapConstants(i, dict[item]);
        stream.tokens := stream.tokens[i := token.(data := dict[item])];
        return true, move;
      }
    }
    mutated := false;
  }
}
