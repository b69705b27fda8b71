/** From the packet list of the fuzzer to the bytes that the target reads, and back to the packets. */
module EndToEnd {
  import opened Bytes
  import opened Framing
  import opened FramingLaws
  import opened SharedBuffer

  /** Reads of positive sizes deliver a prefix of the joined packets; it is all of them exactly if the next read
      would return 0, and certainly after as many reads as there are bytes. */
  lemma {:induction false} TargetReadsThePackets(ps: seq<Packet>, es: seq<Event>, size: nat)
    requires PositiveReads(es) && size > 0
    ensures var v, bytes := View(Join(Contents(ps)), 0), Join(Contents(ps));
            && Sound(v) && Defined(v, es) && Sound(End(v, es))
            && Delivered(v, es) <= bytes
            && (Delivered(v, es) == bytes <==> Chunk(End(v, es), size) == [])
            && (|es| >= |bytes| ==> Delivered(v, es) == bytes)
  {
    var v := View(Join(Contents(ps)), 0);
    ReadsDeliverPrefix(v, es);
    ReadsProgress(v, es);
    ZeroMeansExhausted(End(v, es), size);
  }

  /** The `print` command on a text file: read the packets and write them out again. None stands for a packet
      that does not decode, or for the panic of a buffer too small. */
  method PrintTxt(bytes: seq<Byte>, validUtf8: seq<Byte> -> bool) returns (out: Option<seq<Byte>>)
    requires forall b | AllAscii(b) :: validUtf8(b)
    ensures out.Some? ==> out.value == Join(Pieces(bytes))
    ensures out.Some? ==> (out.value == bytes <==> bytes == [] || 1 <= |Rest(bytes)| <= 7)
    ensures out == None <==>
              Undecodable(TokenText, Pieces(bytes)) || FramedLength(Pieces(bytes)) > PACKET_BUFFER_SIZE
  {
    var packets := ParseTxt(TokenText, bytes, validUtf8);
    if packets == None {
      return None;
    }
    DecodedContents(TokenText, Pieces(bytes), packets.value);
    JoinOfPieces(bytes);
    var input := new PacketInput(packets.value);
    var buf := new Byte[PACKET_BUFFER_SIZE](_ => 0);
    var len := input.ConvertToTxt(buf);
    out := if len == None then None else Some(buf[..len.value]);
  }
}
