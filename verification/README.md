# Verified model of the packet handling of the Exim fuzzer

The fuzzer keeps an input as a list of SMTP packets, each a list of text tokens. It mutates packets and
tokens at random, joins the packets with an eight-dash separator in a buffer shared with the target, and the
target's socket reads are served from that buffer. This project models these parts and proves what they keep.

| file | content |
|---|---|
| `Bytes.dfy`, `Tokens.dfy` | byte classes; tokens, their shapes, canonical token lists, the byte string of a token list |
| `Scanner.dfy` | the tokenizer, and parsing as a bijection |
| `Framing.dfy`, `FramingLaws.dfy` | `convert_to_txt`, `parse_txt`, serialization; exact round trips |
| `Random.dfy`, `TokenMakers.dfy` | random draws, random tokens, `random_range`; exactly which tokens can be drawn |
| `Words.dfy`, `WordSwap.dfy` | a token list as words and whitespace; `mutate_swap_words` |
| `Moves.dfy`, `Runs.dfy`, `FlatEdits.dfy` | the nineteen token mutators as a state machine: safety of every run, effect on the bytes |
| `TokenEdits.dfy` | the effect of each mutator on the token list, by position |
| `CanonicalMoves.dfy`, `IdleMoves.dfy` | exactly when a mutator keeps canonical form, and when it changes nothing |
| `Growth.dfy` | how many bytes a packet may have after a run |
| `Draws.dfy`, `Exactness.dfy` | what the draws decide, and that they make exactly the moves of the state machine possible |
| `Mutators.dfy` | the mutators as methods that edit the token vector |
| `Stacks.dfy`, `PacketMutator.dfy` | `mutate_packet`: its turns, what decides them, and the methods |
| `Templates.dfy`, `InputMutators.dfy` | packet generation and the packet mutators, with a second state machine |
| `PacketEdits.dfy` | the effect of each packet mutator on the packets, by position, and on the written bytes |
| `SharedBuffer.dfy`, `EndToEnd.dfy` | the shared packet buffer, the read and seek hooks, and the path from packets to the target |

How to read it:

- Code that the repository writes step by step is a method here, proved against a specification function, a
  move of a state machine, or a direct statement. The lemmas are about those.
- A random source is an object with an arbitrary sequence of numbers. Every draw is a function of its position
  in that sequence, so each contract says which draw decides what, and which draw is the next, for all outcomes.
  `Draws.dfy` has one predicate for each mutator. They leave no choice (`CallIsDetermined`), and allow exactly the
  moves of the state machine (`MovesAreTheDrawn`).
- A mutator returns, besides its result, the move it has made as a ghost value. `Moves.Outcome` is the
  contract shared by all nineteen: a change is reported if and only if the move is enabled, the vector is then
  exactly the result of the move, and otherwise untouched.
- `parse_txt` is modelled as written. Its last slice starts at `cursor` and not at `start`
  (`fuzzer/src/input.rs:81`), so a last packet of more than seven bytes comes back as its last seven bytes.
  The round trips are therefore stated with their exact conditions.
- The limit `max_packets` of the packet mutators is checked before up to four packets are generated
  (`fuzzer/src/mutators/generate.rs:53-59`), so the true bound is three more. The bound is proved and attained.
  The limit itself is kept exactly if there is room for four packets.
- The mutators do not keep canonical form, and a change that is reported need not be one. For both there is the
  exact condition of every mutator on the list and the choices before the call.
- `mutate_special_insert` has no cap (`fuzzer/src/tokens/mutators/special.rs:9-26`), so no bound on the bytes of a
  packet holds for all runs. There is one by the number of special insertions.
- A seek may leave the data (`hooks.c:85-92`). A session is any sequence of reads and seeks whose reads start within
  the data.
- Automatic induction is switched off on lemmas; every induction is written out.

`dafny verify dfyconfig.toml` checks the whole project.

## Model

| member | source | states |
|---|---|---|
| `Scanner.TryParseWhitespace` | fuzzer/src/tokens/tokenstream.rs:40-56 | the loop takes the longest whitespace prefix, and fails on an empty one |
| `Scanner.TryParseNumber` | fuzzer/src/tokens/tokenstream.rs:58-79 | the loop takes an optional sign and the longest run of digits behind it, and fails without a digit |
| `Scanner.TryParseText` | fuzzer/src/tokens/tokenstream.rs:81-104 | the loop takes any first ASCII byte and the longest run behind it without sign, digit, whitespace or byte at or above 0x80 |
| `Scanner.FromStr` | fuzzer/src/tokens/tokenstream.rs:272-293 | the cursor loop terminates with the list, or the error byte, of the recursive parse |
| `Scanner.DeserializeContent` | fuzzer/src/tokens/tokenstream.rs:332-335 | succeeds exactly on ASCII buffers whatever the UTF-8 validator says about others (RFC 3629, section 3), with the parsed tokens |
| `Scanner.ParseOutcome` | fuzzer/src/tokens/tokenstream.rs:272-293 | parsing succeeds exactly on ASCII; otherwise the byte reported is the first one at or above 0x80 |
| `Scanner.ParsePrints` | fuzzer/src/tokens/tokenstream.rs:272-293 | a parsed list is canonical and its tokens concatenate to the input |
| `Scanner.PrintParseIff` | fuzzer/src/tokens/tokenstream.rs:272-330 | for every token list: parsing what it prints gives the list back if and only if it is canonical |
| `Scanner.ParseIsUniqueInverse` | fuzzer/src/tokens/tokenstream.rs:272-330 | every ASCII string is printed by exactly one canonical list, the one that parsing returns: parsing is a bijection |
| `Scanner.ScanBack` | fuzzer/src/tokens/tokenstream.rs:40-104 | a token printed in front of a string is scanned back unless the next byte continues it or makes a lone sign a number |
| `Scanner.ParseConcatIff` | fuzzer/src/tokens/tokenstream.rs:277-290 | parsing distributes over a concatenation if and only if the two tokens that meet there are separated |
| `Scanner.ParseConcatAtSpace` | fuzzer/src/tokens/tokenstream.rs:277-290 | in particular at every edge with whitespace on exactly one side |
| `Tokens.FlattenSplice` | fuzzer/src/tokens/tokenstream.rs:319-330 | a splice of the token vector is a splice of the serialized bytes |
| `Framing.SerializeTokens` | fuzzer/src/tokens/tokenstream.rs:319-330 | writes the longest prefix of the concatenated token bytes that fits, touches nothing else, and returns its length |
| `Framing.SerializeContent` | fuzzer/src/input.rs:16-20 | the same for both packet types, into a slice of a buffer |
| `Framing.DecodePacket` | fuzzer/src/input.rs:22-24 | plain bytes always decode, token text exactly if it parses |
| `Framing.PacketInput.ConvertToTxt` | fuzzer/src/input.rs:48-56 | panics exactly if the sum of packet length plus 8 exceeds the buffer; else writes the packets each with a separator, leaves all later bytes, and returns the length of the joined packets (0 for none) |
| `Framing.ParseTxt` | fuzzer/src/input.rs:58-89 | the scan refines "cut at the leftmost separator, repeat, keep at most the last 7 bytes of the rest"; None exactly if one of the kept pieces does not decode |
| `FramingLaws.LeftmostCut` | fuzzer/src/input.rs:68-73 | the cut falls behind a packet if and only if it contains no separator and does not end in a dash |
| `FramingLaws.PiecesOfJoin` | fuzzer/src/input.rs:48-89 | for every list of byte strings: reading the joined list gives it back if and only if it is empty, or all but the last are cut off whole and the last has 1 to 7 bytes |
| `FramingLaws.LongLastPacketIsTruncated` | fuzzer/src/input.rs:80-84 | the failing family: a longer last packet without a separator comes back as its last 7 bytes, all others intact |
| `FramingLaws.CutsAreUnique` | fuzzer/src/input.rs:63-78 | the cuts and the rest are the only decomposition of a buffer into packets that cut off whole, each with its separator, and a rest without one |
| `FramingLaws.JoinOfPieces` | fuzzer/src/input.rs:48-89 | for every buffer: joining what was read gives it back if and only if it is empty or its final segment has 1 to 7 bytes |
| `FramingLaws.ReadingIsStable` | fuzzer/src/input.rs:48-89 | for every buffer: what was read, joined and read again is the same if and only if it is nothing or its last piece has 1 to 7 bytes |
| `FramingLaws.JoinDropsLastSeparator` | fuzzer/src/input.rs:80-84 | a buffer that ends in a consumed separator loses exactly that separator |
| `FramingLaws.IntendedRoundTrip` | fuzzer/src/input.rs:80-84 | with the last slice beginning at `start`, the exact condition on the last packet would be: nonempty and without a separator |
| `FramingLaws.FramingRoundTrip` | fuzzer/src/input.rs:48-89 | for every packet list of either type: written and read back it is the same list if and only if its contents are frameable and every packet is one that its codec reads back |
| `FramingLaws.PrintBack` | fuzzer/src/input.rs:58-89 | for every buffer that reads as packets: writing them reproduces it under the same exact bound on the final segment |
| `FramingLaws.ReadAgain` | fuzzer/src/input.rs:48-89 | for every buffer that reads as packets, of either type: written and read again they are the same packets under the same exact bound on the last one |
| `Random.RandomWhitespace` | fuzzer/src/tokens/tokenstream.rs:106-118 | whitespace of the drawn length, each byte the one drawn |
| `Random.RandomNumber` | fuzzer/src/tokens/tokenstream.rs:120-138 | a valid number of the drawn length, its sign and digits the ones drawn |
| `Random.RandomText` | fuzzer/src/tokens/tokenstream.rs:140-164 | text of the drawn length: every drawn byte that is allowed is kept, every other is replaced by the allowed byte drawn for it, in order |
| `Random.RandomRange` | fuzzer/src/tokens/mutators/common.rs:5-13 | a nonempty range below the limit and no longer than the maximum, fixed by two draws |
| `TokenMakers.SpaceRange` | fuzzer/src/tokens/tokenstream.rs:106-118 | a whitespace string can be drawn, by some random numbers, if and only if its length is in the range: every whitespace character at every place |
| `TokenMakers.NumberRange` | fuzzer/src/tokens/tokenstream.rs:120-138 | a number can be drawn if and only if it is valid and has 2 bytes up to the maximum: either sign or none, any digits |
| `TokenMakers.TextRange` | fuzzer/src/tokens/tokenstream.rs:140-164 | a text can be drawn if and only if its length is in the range and each byte may continue a text token |
| `TokenMakers.TokenRange` | fuzzer/src/tokens/mutators/random.rs:4-37 | the tokens that the mutators can draw are exactly the fresh ones of at most 16 bytes |
| `TokenMakers.PartRange` | fuzzer/src/tokens/tokenstream.rs:342-358 | the parts that a random packet can have are exactly the fresh tokens of at most 4 bytes of whitespace or 8 of the others |
| `Words.SplitIsWellSplit` | fuzzer/src/tokens/mutators/swap.rs:54-71 | every token list is its words woven with its whitespace tokens |
| `Words.WeaveSplitsBack` | fuzzer/src/tokens/mutators/swap.rs:54-71 | and that decomposition is unique |
| `Words.SwapWordsLaw` | fuzzer/src/tokens/mutators/swap.rs:49-95 | swapping words i and j keeps the whitespace tokens in value and order, exchanges exactly entries i and j of the word list, and undoes itself |
| `Words.SwapWordsConserves` | fuzzer/src/tokens/mutators/swap.rs:49-95 | no token is lost, made or duplicated |
| `WordSwap.WrappingIndexIsExact` | fuzzer/src/tokens/mutators/swap.rs:42-47 | although the length difference wraps modulo 2^64, the index computed from it is the true position |
| `WordSwap.CollectWords` | fuzzer/src/tokens/mutators/swap.rs:54-71 | the loop finds exactly the ranges of the words |
| `WordSwap.ExchangeRanges` | fuzzer/src/tokens/mutators/swap.rs:86-92 | the three splices leave the list with the two words exchanged |
| `WordSwap.MutateSwapWords` | fuzzer/src/tokens/mutators/swap.rs:49-95 | makes the word-swap move on the two words drawn, exactly if there are three tokens or more and the words are at different places; or nothing |
| `Moves.MoveKeepsStrict` | fuzzer/src/tokens/mutators/mod.rs:58-98 | each of the nineteen moves keeps every token strictly valid: signed digits, nonempty whitespace, nonempty text without whitespace, digits or bytes at or above 0x80 |
| `Moves.MoveKeepsBound` | fuzzer/src/tokens/mutators/mod.rs:87-90 | and leaves at most the larger of the old length and the limit, also from above the limit |
| `Moves.CopiesAreLeast` | fuzzer/src/tokens/mutators/repeat.rs:18-19 | the number of copies is the least whose bytes exceed the amount, or the room left if that is smaller |
| `TokenEdits.ListMovesInPlace` | fuzzer/src/mutators/token.rs:38-121 | for each mutator that inserts, removes or replaces tokens: which tokens stand where afterwards, by position, and that all others stay in order |
| `TokenEdits.TokenMovesInPlace` | fuzzer/src/mutators/token.rs:38-121 | for each mutator that changes one token: what it becomes, of which kind, and that all others stay where they are |
| `TokenEdits.SwapInPlace` | fuzzer/src/tokens/mutators/swap.rs:7-22 | the swap of two tokens exchanges them and leaves all others where they are |
| `Moves.InterestingAreNumbers` | fuzzer/src/tokens/mutators/interesting.rs:4-52 | every entry of the table is a valid number |
| `Runs.RunKeepsStrict` | fuzzer/src/tokens/mutators/mod.rs:36-100 | over every run, with any choices, crossing over with valid corpus packets or with a clone of the current stream, every token stays strictly valid: the invariant that the test samples |
| `Runs.RunKeepsBound` | fuzzer/src/tokens/mutators/mod.rs:36-100 | over every run the length never exceeds the larger of its initial value and the limit |
| `Growth.RunKeepsByteBound` | fuzzer/src/mutators/token.rs:38-121 | over every run from at most n tokens under a limit of at most n: at most n tokens, each of at most k bytes, and so at most n * k bytes, where k is the longest that the packet, dictionary, corpus, interesting numbers and repeat amount offer plus one for every special insertion |
| `Growth.InsertingGrows` | fuzzer/src/tokens/mutators/special.rs:9-26 | n special insertions are a run from any list that begins with a text token, and add exactly n bytes |
| `Growth.BytesBoundedIff` | fuzzer/src/mutators/token.rs:38-121 | one bound on the bytes for all runs from a packet exists if and only if the packet is empty and the limit is 0 |
| `Runs.MutatedPacketsReparse` | fuzzer/src/mutators/token.rs:38-121 | from any valid packet with ASCII constants, over an ASCII dictionary and valid ASCII crossover packets, every run ends in a packet whose bytes parse again, to a canonical list with the same bytes |
| `Runs.Reparses` | fuzzer/src/tokens/tokenstream.rs:319-335 | for every valid list with ASCII constants parsing after printing succeeds, keeps the bytes and lands in canonical form |
| `CanonicalMoves.SpliceKeepsCanonicalIff` | fuzzer/src/tokens/tokenstream.rs:277-290 | a splice keeps a canonical list canonical if and only if what is spliced in is canonical and both new borders are separated |
| `CanonicalMoves.WeaveCanonicalIff` | fuzzer/src/tokens/mutators/swap.rs:54-71 | a list woven from words and whitespace is canonical if and only if every word and every whitespace token is and no inner word is empty |
| `CanonicalMoves.MoveKeepsCanonicalIff` | fuzzer/src/mutators/token.rs:38-121 | for each mutator, the condition on the list and the choices before the call under which a canonical list stays canonical, if and only if: never for the dictionary mutators, otherwise by the tokens that come to meet and the place of a sign |
| `CanonicalMoves.RunStaysCanonicalIff` | fuzzer/src/mutators/token.rs:38-121 | a run from a canonical list stays canonical throughout if and only if every move meets its condition; the packet then parses back to the very list that was printed |
| `IdleMoves.MoveChangesNothingIff` | fuzzer/src/mutators/token.rs:38-121 | a mutator that reports a change has changed nothing if and only if it put equal tokens, bytes or words in place of the old; the mutators that change a length always make a change |
| `FlatEdits.MoveIsOneEdit` | fuzzer/src/mutators/token.rs:38-121 | every mutator but the two swaps is one contiguous edit of the serialized bytes, with position and block given, and all other bytes in order: split inserts inside a token, delete removes, copy and crossover insert a substring of their source |
| `FlatEdits.SwapIsBlockExchange` | fuzzer/src/tokens/mutators/swap.rs:7-22 | the two swaps exchange two disjoint blocks of the bytes, those of the two tokens or words at their byte offsets, and leave the rest in place |
| `Mutators.MutateCopy` | fuzzer/src/tokens/mutators/copy.rs:4-17 | inserts the drawn range at the drawn place, exactly if the stream is nonempty and below the limit |
| `Mutators.MutateCrossoverReplace` | fuzzer/src/tokens/mutators/crossover.rs:4-16 | replaces the drawn range by the drawn range of the other stream, sized so that the limit holds |
| `Mutators.MutateCrossoverInsert` | fuzzer/src/tokens/mutators/crossover.rs:18-30 | inserts the drawn range of the other stream at the drawn place |
| `Mutators.MutateDelete` | fuzzer/src/tokens/mutators/delete.rs:4-13 | removes the drawn range, exactly if the stream is nonempty |
| `Mutators.FindValidByte` | fuzzer/src/tokens/mutators/flip.rs:9-15 | terminates, through the wrap from 255 to 0, with the first allowed byte |
| `Mutators.MutateFlip` | fuzzer/src/tokens/mutators/flip.rs:17-64 | overwrites the drawn byte of the drawn token with the value drawn for its kind; constants and empty tokens are refused |
| `Mutators.MutateInteresting` | fuzzer/src/tokens/mutators/interesting.rs:54-69 | sets the first number token from the drawn start on to the drawn table entry |
| `Mutators.MutateRandomInsert` | fuzzer/src/tokens/mutators/random.rs:4-20 | inserts a fresh token, of the kind and with the bytes drawn, at the drawn place, exactly below the limit |
| `Mutators.MutateRandomReplace` | fuzzer/src/tokens/mutators/random.rs:22-37 | replaces the drawn token by a fresh one of the kind and with the bytes drawn |
| `Mutators.MutateRepeatToken` | fuzzer/src/tokens/mutators/repeat.rs:4-25 | repeats the drawn token: the least number of copies whose bytes exceed the amount, cut off at the room left |
| `Mutators.MutateRepeatChar` | fuzzer/src/tokens/mutators/repeat.rs:27-56 | fills the drawn token up to the given length with copies of the drawn byte; never the first byte of a number |
| `Mutators.MutateSpecialInsert` | fuzzer/src/tokens/mutators/special.rs:9-26 | inserts the drawn special character into the first text token from the drawn start on |
| `Mutators.MutateSpecialReplace` | fuzzer/src/tokens/mutators/special.rs:28-49 | overwrites a byte of the first nonempty text token from the drawn start on |
| `Mutators.MutateSplit` | fuzzer/src/tokens/mutators/split.rs:4-36 | cuts the drawn token at the drawn place around a fresh one, of the kind and with the bytes drawn; never directly behind the first byte of a number |
| `Mutators.MutateSwapTokens` | fuzzer/src/tokens/mutators/swap.rs:7-22 | exchanges the two drawn tokens, exactly if the stream is nonempty and they are at different places |
| `Mutators.MutateTruncate` | fuzzer/src/tokens/mutators/truncate.rs:4-25 | shortens the drawn token to the drawn length; never a number to its sign |
| `Mutators.MutateDictInsert` | fuzzer/src/tokens/mutators/dict.rs:5-28 | inserts the drawn word as a constant, between two drawn whitespace tokens exactly if three fit and the coin says so |
| `Mutators.MutateDictReplace` | fuzzer/src/tokens/mutators/dict.rs:30-47 | replaces the first token from the drawn start on that is not whitespace by the drawn word |
| `Mutators.MutateSwapConstants` | fuzzer/src/tokens/mutators/swap.rs:24-40 | sets the first constant from the drawn start on to the drawn word |
| `Draws.CallIsDetermined` | fuzzer/src/mutators/token.rs:38-121 | the draws leave no choice: with the same random numbers, on the same list, a mutator makes the same move or refuses, and leaves the same next draw |
| `Exactness.MovesAreTheDrawn` | fuzzer/src/mutators/token.rs:38-121 | the state machine is exact: for every list and mutator, a move can be made by some random numbers if and only if it is enabled and takes its operands from the partner, the dictionary and the amounts given |
| `PacketMutator.PickOther` | fuzzer/src/mutators/token.rs:42-56 | a drawn packet of a drawn testcase; none for the current testcase or one without packets, an error for one that does not load |
| `PacketMutator.TokenStreamMutator.MutateOnce` | fuzzer/src/mutators/token.rs:39-120 | a turn is what its draws decide: the mutator selected by the first one acts, on the partner, word, positions and token drawn, with the repeat amounts 16 and 4, or refuses; a crossover takes the drawn packet of the drawn testcase, gives up if and only if that testcase, not the current one, does not load, and does nothing on the current one or one without packets; the number of draws is given |
| `PacketMutator.TokenStreamMutator.MutatePacket` | fuzzer/src/mutators/token.rs:34-128 | exactly as many turns as drawn, 2, 4, 8 or 32, unless one gives up, each beginning at the draw and the list where the previous one stopped; the result is Failed if and only if the last turn gives up, else Mutated if and only if some turn changed the packet; the changing turns are a run of the state machine; invariant and bound hold at the end, also after an error |
| `Stacks.TurnIsDetermined` | fuzzer/src/mutators/token.rs:38-121 | a turn is decided by the random numbers, the list, and dictionary and corpus: outcome, move, list afterwards and next draw |
| `Stacks.StackIsDetermined` | fuzzer/src/mutators/token.rs:34-128 | and so is every turn of a stack: two stacks that begin alike agree turn by turn |
| `Templates.GeneratePackets` | fuzzer/src/tokens/tokenstream.rs:365-435 | one of eighteen templates of 1 to 4 lines, every line of which parses, to a canonical packet |
| `InputMutators.CreateRandomPacket` | fuzzer/src/tokens/tokenstream.rs:342-358 | 1 to 16 fresh tokens, each of the kind and with the bytes drawn: whitespace of at most 4 bytes, numbers and text of at most 8 |
| `InputMutators.CountIsSafe` | fuzzer/src/mutators/generate.rs:50-61 | over every run of packet mutators the count stays within the larger of its initial value and the limit plus three, within the limit itself without generation, and never falls below the minimum once reached |
| `InputMutators.LimitHoldsIffTemplatesFit` | fuzzer/src/mutators/generate.rs:53-59 | a run that starts within the limit stays within it throughout if and only if every template drawn on the way has no more packets than there is room for |
| `InputMutators.GenerationKeepsLimitIff` | fuzzer/src/mutators/generate.rs:50-61 | no generation that can happen at a state exceeds the limit if and only if the count has reached the limit or is at least four below it |
| `InputMutators.RoomForFourKeepsLimit` | fuzzer/src/mutators/generate.rs:50-61 | so the limit holds throughout every run whose generations start at least four below it |
| `InputMutators.InputRunKeepsStrict` | fuzzer/src/mutators/content.rs:54-64 | over every run of packet and token mutators every packet stays a strictly valid token stream |
| `InputMutators.InputRunDecodes` | fuzzer/src/mutators/content.rs:54-64 | and its bytes decode, to a packet with the same bytes |
| `InputMutators.CopyMutate` | fuzzer/src/mutators/copy.rs:31-45 | inserts a copy of the drawn packet at the drawn place, exactly if nonempty and below the limit |
| `InputMutators.DeleteMutate` | fuzzer/src/mutators/delete.rs:31-42 | removes the drawn packet, exactly above the minimum |
| `InputMutators.RepeatMutate` | fuzzer/src/mutators/repeat.rs:31-44 | inserts the drawn number of copies, which always fit |
| `InputMutators.SwapMutate` | fuzzer/src/mutators/swap.rs:27-44 | exchanges the two drawn packets, exactly if they are at different places |
| `InputMutators.ContentMutate` | fuzzer/src/mutators/content.rs:54-64 | runs a token stack on the drawn packet, with the turns, the run and the result of that stack, and leaves all others as they are |
| `InputMutators.RandomInsertMutate` | fuzzer/src/mutators/create.rs:50-61 | inserts a random packet at the drawn place, exactly below the limit |
| `InputMutators.CrossoverMutate` | fuzzer/src/mutators/crossover.rs:33-58 | inserts the drawn packet of the drawn testcase at the drawn place; skips and errors for exactly the reasons listed |
| `InputMutators.GenerateMutate` | fuzzer/src/mutators/generate.rs:50-61 | inserts the packets of the drawn template at the drawn place |
| `PacketEdits.OtherPacketsStay` | fuzzer/src/mutators/copy.rs:31-45 | every packet mutator but the swap puts its packets in the place of a range, by position; all other packets stay in order: a deletion removes exactly the packet at its index, an insertion stands at its index |
| `PacketEdits.SwapExchangesTwo` | fuzzer/src/mutators/swap.rs:27-44 | a swap exchanges two packets and leaves all others where they are |
| `PacketEdits.MoveIsOneBlock` | fuzzer/src/input.rs:48-56 | on the written bytes each is one contiguous edit, at the places where the packets of the range begin and end |
| `PacketEdits.DeletionTakesOnePacket` | fuzzer/src/mutators/delete.rs:31-42 | a deletion takes the content of the packet and its separator out of the written bytes, at its place, and nothing else |
| `PacketEdits.SwapExchangesBlocks` | fuzzer/src/mutators/swap.rs:27-44 | a swap exchanges the contents of two packets, with their separators, at their places |
| `SharedBuffer.PacketBuffer.Fill` | fuzzer/src/executor.rs:146-150 | from any earlier state: cursor 0 and exactly the joined packets readable, unless serialization panics |
| `SharedBuffer.PacketBuffer.HookInput` | hooks.c:53-66 | delivers exactly the next bytes at the cursor, at most as many as asked for and left, and advances over them |
| `SharedBuffer.PacketBuffer.HookSeek` | hooks.c:85-92 | from any cursor the offset is added modulo 2^64; a cursor within the data stays there if and only if the signed seek does, and is then that seek |
| `SharedBuffer.SessionIsSound` | hooks.c:53-92 | over any interleaving of reads and seeks inside the data the cursor stays inside and is, without wrapping, accounted for by the bytes delivered and the offsets sought |
| `SharedBuffer.SessionAddsUp` | hooks.c:53-92 | over any session whose reads start within the data, also one that seeks out of them and back, the cursor is the sum of the bytes delivered and the offsets sought, modulo 2^64 |
| `SharedBuffer.ReadsDeliverPrefix` | hooks.c:53-66 | reads of whatever sizes deliver the data between the first and the last cursor, without gap or repetition |
| `SharedBuffer.ReadsProgress` | hooks.c:53-66 | as many reads of positive size as there are bytes left exhaust the data |
| `SharedBuffer.SeekBackRepeats` | hooks.c:53-92 | after any session that ends within the data a read delivers the bytes at the cursor; seeking back over them restores the state, and the same read delivers them again |
| `EndToEnd.TargetReadsThePackets` | fuzzer/src/executor.rs:147-150 | reads of positive sizes deliver a prefix of the joined packets; it is all of them if and only if a further read would return nothing, and as many reads as there are bytes always suffice |
| `EndToEnd.PrintTxt` | fuzzer/src/main.rs:277-289 | no result exactly if a piece does not decode or the total with a separator per packet exceeds the buffer; else the joined pieces of the file, which are the file itself if and only if it is empty or its final segment has 1 to 7 bytes |
| `Random.AllowMapIsTextTail` | fuzzer/src/tokens/mutators/flip.rs:6 | Support: the 256-entry table allows exactly the bytes that continue a text token |
| `Tokens.StrictStrongerThanVerify` | fuzzer/src/tokens/tokenstream.rs:176-218 | Support: what the strict invariant asks beyond the check of the repository's test, exactly: no empty token and no sign without a digit |
| `Moves.SpecialsAreText` | fuzzer/src/tokens/mutators/special.rs:4-7 | Support: every special character may stand in a text token |
| `Templates.TemplateSizes` | fuzzer/src/tokens/tokenstream.rs:365-435 | Support: the number of packets of each template |
| `Templates.LinesEnd` | fuzzer/src/tokens/tokenstream.rs:365-435 | Support: every line of a template ends in CR LF, but for the two chunks of BDAT, which are of the size announced |
| `InputMutators.EveryTemplateFitsIff` | fuzzer/src/tokens/tokenstream.rs:365-435 | Support: all eighteen templates fit if and only if there is room for four packets |
| `InputMutators.FourPacketGeneration` | fuzzer/src/tokens/tokenstream.rs:410-415 | Support: the witness that the bound of CountIsSafe is attained: with one place left the four-packet template overshoots by three |
| `CanonicalMoves.CanonicalIsNotKept` | fuzzer/src/tokens/mutators/delete.rs:9-10 | Support: a witness that canonical form can be lost: deleting the word between two spaces |
| `IdleMoves.ReportedChangeMayChangeNothing` | fuzzer/src/tokens/mutators/swap.rs:15-21 | Support: a witness that a reported change can be none: exchanging two equal tokens |

## Left out

- LibAFL's scheduler, corpus, feedback and stages, the launcher, monitors and command line: libraries and I/O; a run here is any sequence of moves.
- The forkserver protocol, timeouts and signals of the executor: calls into other processes.
- `hook_output`, the branches of the hooks without a packet buffer, and attaching the shared memory: system calls.
- libdesock's own splitting at the separator and Exim itself are not part of this model.
- serde and postcard encoding, `Hash` and `Debug`: derived or library code.
- `copy_vec`: modelled as the assignment of the new data, which is what resize and copy amount to.
- Lengths and indices are mathematical integers except where the code relies on wrap-around, in the word swap and in the seek hook.
- MutateSwapWords: asks for a token vector shorter than 2^64, which every vector of the source is.
- RandomText: the 64-bit filling of the byte vector is modelled byte by byte.
- Random: draws are arbitrary numbers; seeds and distributions are not modelled.
- The tables of interesting numbers and special characters and the template lines are transcribed: proved are their sizes and shapes, not each value.
- DeserializeContent: UTF-8 validation of strings that are not ASCII is left to an arbitrary validator.
- HookInput: asks for a cursor within the data and a large enough destination; outside of that the C code copies out of bounds and has no defined result.
- ContentMutate: the mutable borrow of one packet is modelled as taking it out, mutating it in place and putting it back.
- MutatePacket: asks for a nonempty corpus and for lengths below 2^64, as its parts do, and for two sources of random numbers, that of the mutator and that of the state, which are different objects in the source.
- PickOther: a corpus identifier is a position in the corpus, and the corpus is not empty, which LibAFL's random choice of an identifier takes for granted.
