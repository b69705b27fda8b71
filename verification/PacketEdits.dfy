/** What the packet mutators do to the packets, by position, and to the buffer into which the packets are written. */
module PacketEdits {
  import opened Bytes
  import opened Framing
  import opened InputMutators

  /** The packets from position `from` up to `to` are replaced by others. */
  datatype Block = Block(from: nat, to: nat, packets: seq<Packet>)

  function BlockOf(ps: seq<Packet>, m: InputMove): Block
    requires m.CopyPacket? ==> m.from < |ps|
    requires m.RepeatPacket? ==> m.idx < |ps|
    requires !m.SwapPackets?
  {
    match m
    case CopyPacket(from, to) => Block(to, to, [ps[from]])
    case DeletePacket(idx) => Block(idx, idx + 1, [])
    case RepeatPacket(idx, count) => Block(idx, idx, seq(count, _ => ps[idx]))
    case MutateContent(idx, _, result) => Block(idx, idx + 1, [Stream(result)])
    case InsertRandom(at, tokens) => Block(at, at, [Stream(tokens)])
    case CrossPacket(at, tokens) => Block(at, at, [Stream(tokens)])
    case Generate(at, _, packets) => Block(at, at, Streams(packets))
  }

  /** The packets in front of the block and behind it stay, in order; the block stands between them. */
  predicate InPlace(ps: seq<Packet>, e: Block, qs: seq<Packet>) {
    && e.from <= e.to <= |ps|
    && |qs| == |ps| - (e.to - e.from) + |e.packets|
    && (forall k | 0 <= k < e.from :: qs[k] == ps[k])
    && (forall k | 0 <= k < |e.packets| :: qs[e.from + k] == e.packets[k])
    && (forall k | e.to <= k < |ps| :: qs[k - (e.to - e.from) + |e.packets|] == ps[k])
  }

  lemma {:induction false} SpliceInPlace(ps: seq<Packet>, e: Block)
    requires e.from <= e.to <= |ps|
    ensures InPlace(ps, e, ps[..e.from] + e.packets + ps[e.to..])
  {
  }

  lemma {:induction false} MoveIsSplice(ps: seq<Packet>, m: InputMove, lim: Limits)
    requires InputEnabled(ps, m, lim) && !m.SwapPackets?
    ensures var e := BlockOf(ps, m);
            && e.from <= e.to <= |ps|
            && InputApply(ps, m, lim) == ps[..e.from] + e.packets + ps[e.to..]
  {
  }

  /** Every packet mutator but the swap puts its block in the place of a range, and leaves all other packets. */
  lemma {:induction false} OtherPacketsStay(ps: seq<Packet>, m: InputMove, lim: Limits)
    requires InputEnabled(ps, m, lim) && !m.SwapPackets?
    ensures InPlace(ps, BlockOf(ps, m), InputApply(ps, m, lim))
  {
    MoveIsSplice(ps, m, lim);
    SpliceInPlace(ps, BlockOf(ps, m));
  }

  /** A swap exchanges two packets and leaves all others where they are. */
  lemma {:induction false} SwapExchangesTwo(ps: seq<Packet>, m: InputMove, lim: Limits)
    requires InputEnabled(ps, m, lim) && m.SwapPackets?
    ensures var qs := InputApply(ps, m, lim);
            && |qs| == |ps|
            && qs[m.a] == ps[m.b] && qs[m.b] == ps[m.a]
            && (forall k | 0 <= k < |ps| && k != m.a && k != m.b :: qs[k] == ps[k])
  {
  }

  // ---------- The bytes ----------

  /** Where packet number i begins when the packets are written, each with a separator. */
  function Place(ps: seq<Packet>, i: nat): nat
    requires i <= |ps|
  {
    FramedLength(Contents(ps[..i]))
  }

  /** The packets as they are written, each with a separator. */
  function Written(ps: seq<Packet>): seq<Byte> { Framed(Contents(ps)) }

  lemma {:induction false} FramedConcat(a: seq<seq<Byte>>, b: seq<seq<Byte>>)
    ensures Framed(a + b) == Framed(a) + Framed(b)
  {
    if a == [] {
      assert a + b == b;
    } else {
      FramedConcat(a[1..], b);
      assert (a + b)[1..] == a[1..] + b;
      Associative(a[0] + SEPARATOR, Framed(a[1..]), Framed(b));
    }
  }

  lemma {:induction false} WrittenConcat(a: seq<Packet>, b: seq<Packet>)
    ensures Written(a + b) == Written(a) + Written(b)
  {
    assert Contents(a + b) == Contents(a) + Contents(b);
    FramedConcat(Contents(a), Contents(b));
  }

  /** A packet is written as its content and a separator. */
  lemma {:induction false} WrittenOne(p: Packet)
    ensures Written([p]) == Content(p) + SEPARATOR
  {
    assert Contents([p]) == [Content(p)];
    assert Framed([Content(p)]) == Content(p) + SEPARATOR + Framed([]);
  }

  lemma {:induction false} PlaceIs(ps: seq<Packet>, i: nat)
    requires i <= |ps|
    ensures Place(ps, i) == |Written(ps[..i])| <= |Written(ps)|
    ensures Written(ps)[..Place(ps, i)] == Written(ps[..i])
    ensures Written(ps)[Place(ps, i)..] == Written(ps[i..])
  {
    WrittenConcat(ps[..i], ps[i..]);
    assert ps == ps[..i] + ps[i..];
    FramedLengths(Contents(ps[..i]), 0);
  }

  /** Replacing packets replaces their bytes and separators, at their place, and leaves all other bytes in order. */
  lemma {:induction false} MoveIsOneBlock(ps: seq<Packet>, m: InputMove, lim: Limits)
    requires InputEnabled(ps, m, lim) && !m.SwapPackets?
    ensures var e, s := BlockOf(ps, m), Written(ps);
            && e.from <= e.to <= |ps|
            && Place(ps, e.from) <= |s| && Place(ps, e.to) <= |s|
            && Written(InputApply(ps, m, lim)) == s[..Place(ps, e.from)] + Written(e.packets) + s[Place(ps, e.to)..]
  {
    var e, qs := BlockOf(ps, m), InputApply(ps, m, lim);
    MoveIsSplice(ps, m, lim);
    WrittenConcat(ps[..e.from] + e.packets, ps[e.to..]);
    WrittenConcat(ps[..e.from], e.packets);
    PlaceIs(ps, e.from);
    PlaceIs(ps, e.to);
  }

  /** In particular, deleting a packet takes its content and its separator out at its place, and nothing else. */
  lemma {:induction false} DeletionTakesOnePacket(ps: seq<Packet>, m: InputMove, lim: Limits)
    requires InputEnabled(ps, m, lim) && m.DeletePacket?
    ensures var s, at, n := Written(ps), Place(ps, m.idx), |Content(ps[m.idx])| + 8;
            && at + n <= |s|
            && s[at..at + n] == Content(ps[m.idx]) + SEPARATOR
            && Written(InputApply(ps, m, lim)) == s[..at] + s[at + n..]
  {
    MoveIsOneBlock(ps, m, lim);
    PlaceOfNext(ps, m.idx);
    assert Written([]) == [];
    NothingBetween(Written(ps), Place(ps, m.idx), Place(ps, m.idx + 1));
  }

  lemma {:induction false} NothingBetween(s: seq<Byte>, a: nat, b: nat)
    requires a <= b <= |s|
    ensures s[..a] + [] + s[b..] == s[..a] + s[b..]
  {
  }

  /** The bytes between the places of two neighbours are one packet and its separator. */
  lemma {:induction false} PlaceOfNext(ps: seq<Packet>, i: nat)
    requires i < |ps|
    ensures Place(ps, i + 1) == Place(ps, i) + |Content(ps[i])| + 8 <= |Written(ps)|
    ensures Written(ps)[Place(ps, i)..Place(ps, i + 1)] == Content(ps[i]) + SEPARATOR
  {
    PlaceIs(ps, i);
    PlaceIs(ps, i + 1);
    WrittenConcat(ps[..i], [ps[i]]);
    WrittenOne(ps[i]);
    assert ps[..i + 1] == ps[..i] + [ps[i]];
    PrefixCut(Written(ps), Place(ps, i), Place(ps, i + 1), Content(ps[i]) + SEPARATOR);
  }

  lemma {:induction false} PrefixCut(s: seq<Byte>, a: nat, b: nat, x: seq<Byte>)
    requires a <= b <= |s| && s[..b] == s[..a] + x
    ensures s[a..b] == x
  {
    assert s[a..b] == s[..b][a..];
  }

  /** A swap exchanges the bytes of two packets, each with its separator, at their places. */
  lemma {:induction false} SwapExchangesBlocks(ps: seq<Packet>, m: InputMove, lim: Limits)
      returns (pre: seq<Byte>, mid: seq<Byte>, post: seq<Byte>)
    requires InputEnabled(ps, m, lim) && m.SwapPackets?
    ensures var i, j := Min(m.a, m.b), Max(m.a, m.b);
            var x, y := Content(ps[i]) + SEPARATOR, Content(ps[j]) + SEPARATOR;
            && Written(ps) == pre + x + mid + y + post
            && Written(InputApply(ps, m, lim)) == pre + y + mid + x + post
            && |pre| == Place(ps, i) && |pre + x + mid| == Place(ps, j)
  {
    var i, j := Min(m.a, m.b), Max(m.a, m.b);
    var a, b, c := ps[..i], ps[i + 1..j], ps[j + 1..];
    assert ps == a + [ps[i]] + b + [ps[j]] + c;
    assert InputApply(ps, m, lim) == a + [ps[j]] + b + [ps[i]] + c;
    WrittenFive(a, ps[i], b, ps[j], c);
    WrittenFive(a, ps[j], b, ps[i], c);
    pre, mid, post := Written(a), Written(b), Written(c);
    PlacesOfTwo(ps, i, j);
  }

  lemma {:induction false} PlacesOfTwo(ps: seq<Packet>, i: nat, j: nat)
    requires i < j < |ps|
    ensures Place(ps, i) == |Written(ps[..i])|
    ensures Place(ps, j) == |Written(ps[..i]) + (Content(ps[i]) + SEPARATOR) + Written(ps[i + 1..j])|
  {
    var a, b := ps[..i], ps[i + 1..j];
    PlaceIs(ps, i);
    PlaceIs(ps, j);
    assert ps[..j] == a + [ps[i]] + b;
    WrittenConcat(a + [ps[i]], b);
    WrittenConcat(a, [ps[i]]);
    WrittenOne(ps[i]);
  }

  lemma {:induction false} WrittenFive(a: seq<Packet>, p: Packet, b: seq<Packet>, q: Packet, c: seq<Packet>)
    ensures Written(a + [p] + b + [q] + c)
         == Written(a) + (Content(p) + SEPARATOR) + Written(b) + (Content(q) + SEPARATOR) + Written(c)
  {
    WrittenConcat(a + [p] + b + [q], c);
    WrittenConcat(a + [p] + b, [q]);
    WrittenConcat(a + [p], b);
    WrittenConcat(a, [p]);
    WrittenOne(p);
    WrittenOne(q);
  }
}
