/** Packet framing: packets are joined by an eight-dash separator and cut apart again. */
module Framing {
  import opened Bytes
  import opened Tokens
  import Scanner

  /** The two packet types of the repository: plain bytes and token streams. */
  datatype Packet = Raw(bytes: seq<Byte>) | Stream(tokens: seq<Token>)

  /** The packet type that a reader is instantiated with. */
  datatype Codec = RawBytes | TokenText

  const SEPARATOR: seq<Byte> := [DASH, DASH, DASH, DASH, DASH, DASH, DASH, DASH]

  function Content(p: Packet): seq<Byte> {
    match p
    case Raw(bytes) => bytes
    case Stream(tokens) => Flatten(tokens)
  }

  function Decode(codec: Codec, b: seq<Byte>): Option<Packet> {
    match codec
    case RawBytes => Some(Raw(b))
    case TokenText =>
      match Scanner.Parse(b)
      case Ok(ts) => Some(Stream(ts))
      case Err(_) => None
  }

  function Contents(ps: seq<Packet>): (r: seq<seq<Byte>>)
    ensures |r| == |ps|
    ensures forall i | 0 <= i < |ps| :: r[i] == Content(ps[i])
  {
    seq(|ps|, i requires 0 <= i < |ps| => Content(ps[i]))
  }

  /** The pieces with a separator between neighbours. */
  function Join(cs: seq<seq<Byte>>): seq<Byte> {
    if cs == [] then []
    else if |cs| == 1 then cs[0]
    else cs[0] + SEPARATOR + Join(cs[1..])
  }

  /** The pieces with a separator after each. */
  function Framed(cs: seq<seq<Byte>>): seq<Byte> {
    if cs == [] then [] else cs[0] + SEPARATOR + Framed(cs[1..])
  }

  function FramedLength(cs: seq<seq<Byte>>): nat {
    if cs == [] then 0 else |cs[0]| + 8 + FramedLength(cs[1..])
  }

  predicate SepAt(s: seq<Byte>, k: nat) {
    k + 8 <= |s| && forall i | k <= i < k + 8 :: s[i] == DASH
  }

  lemma {:induction false} SepAtIsSlice(s: seq<Byte>, k: nat)
    requires k + 8 <= |s|
    ensures SepAt(s, k) <==> s[k..k + 8] == SEPARATOR
  {
    var t := s[k..k + 8];
    assert forall i | 0 <= i < 8 :: SEPARATOR[i] == DASH;
    assert forall i | k <= i < k + 8 :: s[i] == t[i - k];
  }

  /** The least position from `from` on at which a separator stands, or |s| if there is none. */
  function FirstSep(s: seq<Byte>, from: nat): (k: nat)
    requires from <= |s|
    ensures from <= k <= |s|
    ensures k < |s| ==> k + 8 <= |s|
    decreases |s| - from
  {
    if from == |s| || SepAt(s, from) then from else FirstSep(s, from + 1)
  }

  lemma {:induction false} FirstSepIsLeast(s: seq<Byte>, from: nat)
    requires from <= |s|
    ensures FirstSep(s, from) < |s| ==> SepAt(s, FirstSep(s, from))
    ensures forall j | from <= j < FirstSep(s, from) :: !SepAt(s, j)
    decreases |s| - from
  {
    if from < |s| && !SepAt(s, from) {
      FirstSepIsLeast(s, from + 1);
    }
  }

  /** Cut at the leftmost separator, repeatedly: the pieces before the separators. */
  function Cuts(s: seq<Byte>): seq<seq<Byte>>
    decreases |s|
  {
    var k := FirstSep(s, 0);
    if k == |s| then [] else [s[..k]] + Cuts(s[k + 8..])
  }

  /** What remains behind the last cut. */
  function Rest(s: seq<Byte>): seq<Byte>
    decreases |s|
  {
    var k := FirstSep(s, 0);
    if k == |s| then s else Rest(s[k + 8..])
  }

  /** What the reader keeps of the remaining segment: nothing if it is empty, else its last 7 bytes. */
  function Tail(rest: seq<Byte>): seq<seq<Byte>> {
    if rest == [] then [] else [rest[|rest| - Min(7, |rest|)..]]
  }

  /** The byte strings that `parse_txt` hands to the decoder, in order. */
  function Pieces(s: seq<Byte>): seq<seq<Byte>> {
    Cuts(s) + Tail(Rest(s))
  }

  ghost predicate DecodesTo(codec: Codec, pieces: seq<seq<Byte>>, ps: seq<Packet>) {
    && |pieces| == |ps|
    && forall i | 0 <= i < |ps| :: Decode(codec, pieces[i]) == Some(ps[i])
  }

  // ---------- Writing ----------

  lemma {:induction false} FramedAppend(cs: seq<seq<Byte>>, c: seq<Byte>)
    ensures Framed(cs + [c]) == Framed(cs) + c + SEPARATOR
    ensures FramedLength(cs + [c]) == FramedLength(cs) + |c| + 8
  {
    if cs == [] {
      assert Framed([c]) == c + SEPARATOR + Framed([]);
      assert (cs + [c])[1..] == [];
    } else {
      assert (cs + [c])[1..] == cs[1..] + [c];
      FramedAppend(cs[1..], c);
    }
  }

  lemma {:induction false} FramedLengths(cs: seq<seq<Byte>>, i: nat)
    requires i <= |cs|
    ensures |Framed(cs)| == FramedLength(cs)
    ensures FramedLength(cs[..i]) <= FramedLength(cs)
  {
    if cs != [] {
      FramedLengths(cs[1..], if i == 0 then 0 else i - 1);
      if i > 0 {
        assert cs[..i][1..] == cs[1..][..i - 1];
      }
    }
  }

  lemma {:induction false} FramedIsJoin(cs: seq<seq<Byte>>)
    requires cs != []
    ensures Framed(cs) == Join(cs) + SEPARATOR
  {
    if |cs| > 1 {
      FramedIsJoin(cs[1..]);
    }
  }

  /** The buffer b with src written over it from position `at` on. */
  function Overlay(b: seq<Byte>, at: nat, src: seq<Byte>): (r: seq<Byte>)
    requires at + |src| <= |b|
    ensures |r| == |b|
  {
    b[..at] + src + b[at + |src|..]
  }

  lemma {:induction false} OverlayTwice(b: seq<Byte>, at: nat, x: seq<Byte>, y: seq<Byte>)
    requires at + |x| + |y| <= |b|
    ensures Overlay(Overlay(b, at, x), at + |x|, y) == Overlay(b, at, x + y)
  {
    var o := Overlay(b, at, x);
    assert o[..at + |x|] == b[..at] + x;
    assert o[at + |x| + |y|..] == b[at + |x| + |y|..];
  }

  /** `copy_from_slice` into buf[at..at + |src|]. */
  method CopyInto(buf: array<Byte>, at: nat, src: seq<Byte>)
    requires at + |src| <= buf.Length
    modifies buf
    ensures buf[..] == Overlay(old(buf[..]), at, src)
  {
    forall k | 0 <= k < |src| {
      buf[at + k] := src[k];
    }
  }

  /** `Packet::serialize_content`: copy what fits of the packet into the slice buf[base..]. */
  method SerializeContent(packet: Packet, buf: array<Byte>, base: nat) returns (n: nat)
    requires base <= buf.Length
    modifies buf
    ensures n == Min(buf.Length - base, |Content(packet)|)
    ensures buf[..] == Overlay(old(buf[..]), base, Content(packet)[..n])
  {
    match packet
    case Raw(bytes) =>
      n := Min(buf.Length - base, |bytes|);
      CopyInto(buf, base, bytes[..n]);
    case Stream(tokens) =>
      n := SerializeTokens(tokens, buf, base);
  }

  /** The body of the loop of `SerializeTokens`, which has written n bytes so far. */
  method SerializeToken(tokens: seq<Token>, i: nat, buf: array<Byte>, base: nat, n: nat, ghost was: seq<Byte>)
      returns (next: nat)
    requires i < |tokens| && Serialized(was, buf[..], base, tokens, i, n)
    modifies buf
    ensures Serialized(was, buf[..], base, tokens, i + 1, next)
  {
    var data := tokens[i].data;
    var remLen := Min(buf.Length - base - n, |data|);
    ghost var before := buf[..];
    CopyInto(buf, base + n, data[..remLen]);
    SerializedOneMore(was, before, buf[..], base, tokens, i, n, remLen);
    next := n + remLen;
  }

  method SerializeTokens(tokens: seq<Token>, buf: array<Byte>, base: nat) returns (n: nat)
    requires base <= buf.Length
    modifies buf
    ensures n == Min(buf.Length - base, |Flatten(tokens)|)
    ensures buf[..] == Overlay(old(buf[..]), base, Flatten(tokens)[..n])
  {
    n := 0;
    ghost var was := buf[..];
    SerializedNone(was, base, tokens);
    for i := 0 to |tokens|
      invariant Serialized(was, buf[..], base, tokens, i, n)
    {
      n := SerializeToken(tokens, i, buf, base, n, was);
    }
    SerializedAll(was, buf[..], base, tokens, n);
  }

  lemma {:induction false} SerializedAll(was: seq<Byte>, now: seq<Byte>, base: nat, ts: seq<Token>, n: nat)
    requires Serialized(was, now, base, ts, |ts|, n)
    ensures n == Min(|was| - base, |Flatten(ts)|) && now == Overlay(was, base, Flatten(ts)[..n])
  {
    assert ts[..|ts|] == ts;
  }

  /** The first i tokens, as far as they fit, have been written over `was` from base on: n bytes. */
  ghost predicate Serialized(was: seq<Byte>, now: seq<Byte>, base: nat, ts: seq<Token>, i: nat, n: nat) {
    && i <= |ts| && base <= |was|
    && n == Min(|was| - base, Offset(ts, i))
    && now == Overlay(was, base, Flatten(ts[..i])[..n])
  }

  lemma {:induction false} SerializedNone(was: seq<Byte>, base: nat, ts: seq<Token>)
    requires base <= |was|
    ensures Serialized(was, was, base, ts, 0, 0)
  {
  }

  lemma {:induction false} SerializedOneMore(was: seq<Byte>, before: seq<Byte>, now: seq<Byte>, base: nat,
                                             ts: seq<Token>, i: nat, n: nat, m: nat)
    requires i < |ts| && Serialized(was, before, base, ts, i, n)
    requires m == Min(|was| - base - n, |ts[i].data|)
    requires now == Overlay(before, base + n, ts[i].data[..m])
    ensures Serialized(was, now, base, ts, i + 1, n + m)
  {
    PrefixGrows(ts, i, n, m);
    OverlayTwice(was, base, Flatten(ts[..i])[..n], ts[i].data[..m]);
  }

  lemma {:induction false} PrefixGrows(ts: seq<Token>, i: nat, n: nat, m: nat)
    requires i < |ts| && n <= Offset(ts, i) && m <= |ts[i].data|
    requires n < Offset(ts, i) ==> m == 0
    ensures n + m <= Offset(ts, i + 1) == Offset(ts, i) + |ts[i].data|
    ensures Flatten(ts[..i + 1])[..n + m] == Flatten(ts[..i])[..n] + ts[i].data[..m]
  {
    OffsetStep(ts, i);
    FlattenConcat(ts[..i], [ts[i]]);
    assert ts[..i + 1] == ts[..i] + [ts[i]];
    assert Flatten([ts[i]]) == ts[i].data;
  }

  /** The body of the loop of `convert_to_txt`; None stands for the panic of an out-of-range slice. */
  method AppendPacket(packet: Packet, buf: array<Byte>, cursor: nat) returns (next: Option<nat>)
    requires cursor <= buf.Length
    modifies buf
    ensures next.Some? <==> cursor + |Content(packet)| + 8 <= buf.Length
    ensures next.Some? ==>
              && next.value == cursor + |Content(packet)| + 8
              && buf[..] == Overlay(old(buf[..]), cursor, Content(packet) + SEPARATOR)
  {
    ghost var was, c := buf[..], Content(packet);
    var n := SerializeContent(packet, buf, cursor);
    if cursor + n + 8 > buf.Length {
      return None;
    }
    assert c[..n] == c;
    CopyInto(buf, cursor + n, SEPARATOR);
    OverlayTwice(was, cursor, c, SEPARATOR);
    next := Some(cursor + n + 8);
  }

  class PacketInput {
    var packets: seq<Packet>

    constructor (packets: seq<Packet>)
      ensures this.packets == packets
    {
      this.packets := packets;
    }

    /** `convert_to_txt`. The result None stands for the panic of an out-of-range slice. */
    method ConvertToTxt(buf: array<Byte>) returns (r: Option<nat>)
      modifies buf
      ensures r.Some? <==> FramedLength(Contents(packets)) <= buf.Length
      ensures r.Some? ==>
                var cs := Contents(packets);
                && |Framed(cs)| == FramedLength(cs)
                && buf[..] == Overlay(old(buf[..]), 0, Framed(cs))
                && r.value == (if packets == [] then 0 else |Framed(cs)| - 8)
                && buf[..r.value] == Join(cs)
    {
      ghost var cs := Contents(packets);
      ghost var was := buf[..];
      var cursor := 0;
      for i := 0 to |packets|
        invariant Appended(was, buf[..], cs, i, cursor)
      {
        FramedPrefix(cs, i);
        ghost var before := buf[..];
        var next := AppendPacket(packets[i], buf, cursor);
        if next == None {
          return None;
        }
        AppendedOneMore(was, before, buf[..], cs, i, cursor);
        cursor := next.value;
      }
      assert cs[..|packets|] == cs;
      JoinedPart(was, cs);
      r := Some(if cursor < 8 then 0 else cursor - 8);
    }
  }

  /** The first i packets, each with its separator, have been written over the first `cursor` bytes of `was`. */
  ghost predicate Appended(was: seq<Byte>, now: seq<Byte>, cs: seq<seq<Byte>>, i: nat, cursor: nat) {
    && i <= |cs|
    && cursor == |Framed(cs[..i])| == FramedLength(cs[..i]) <= |was|
    && now == Overlay(was, 0, Framed(cs[..i]))
  }

  lemma {:induction false} AppendedOneMore(was: seq<Byte>, before: seq<Byte>, now: seq<Byte>, cs: seq<seq<Byte>>,
                                           i: nat, cursor: nat)
    requires i < |cs| && Appended(was, before, cs, i, cursor) && cursor + |cs[i]| + 8 <= |was|
    requires now == Overlay(before, cursor, cs[i] + SEPARATOR)
    ensures Appended(was, now, cs, i + 1, cursor + |cs[i]| + 8)
  {
    FramedPrefix(cs, i);
    OverlayTwice(was, 0, Framed(cs[..i]), cs[i] + SEPARATOR);
  }

  lemma {:induction false} JoinedPart(b: seq<Byte>, cs: seq<seq<Byte>>)
    requires |Framed(cs)| <= |b|
    ensures if cs == [] then Join(cs) == [] && Framed(cs) == []
            else 8 <= |Framed(cs)| && Overlay(b, 0, Framed(cs))[..|Framed(cs)| - 8] == Join(cs)
  {
    if cs != [] {
      FramedIsJoin(cs);
    }
  }

  lemma {:induction false} FramedPrefix(cs: seq<seq<Byte>>, i: nat)
    requires i < |cs|
    ensures Framed(cs[..i + 1]) == Framed(cs[..i]) + (cs[i] + SEPARATOR)
    ensures FramedLength(cs[..i + 1]) == FramedLength(cs[..i]) + |cs[i]| + 8 <= FramedLength(cs)
  {
    FramedAppend(cs[..i], cs[i]);
    assert cs[..i + 1] == cs[..i] + [cs[i]];
    FramedLengths(cs, i + 1);
  }

  // ---------- Reading ----------

  lemma {:induction false} CutStep(s: seq<Byte>, start: nat, cursor: nat)
    requires start <= cursor <= |s|
    requires forall j | start <= j < cursor :: !SepAt(s, j)
    ensures SepAt(s, cursor) ==>
              && Cuts(s[start..]) == [s[start..cursor]] + Cuts(s[cursor + 8..])
              && Rest(s[start..]) == Rest(s[cursor + 8..])
    ensures |s| < cursor + 8 ==> Cuts(s[start..]) == [] && Rest(s[start..]) == s[start..]
  {
    var u := s[start..];
    var k := FirstSep(u, 0);
    FirstSepIsLeast(u, 0);
    assert forall j {:trigger SepAt(u, j)} | 0 <= j <= |u| :: SepAt(u, j) <==> SepAt(s, start + j) by {
      forall j {:trigger SepAt(u, j)} | 0 <= j <= |u|
        ensures SepAt(u, j) <==> SepAt(s, start + j)
      {
        assert forall i | start <= i < |s| :: s[i] == u[i - start];
      }
    }
    if k < |u| {
      assert SepAt(s, start + k);
      assert start + k >= cursor;
    }
    if SepAt(s, cursor) {
      assert SepAt(u, cursor - start);
      assert k == cursor - start;
      assert u[..k] == s[start..cursor];
      assert u[k + 8..] == s[cursor + 8..];
    }
  }

  lemma {:induction false} PieceFails(codec: Codec, pieces: seq<seq<Byte>>, i: nat)
    requires i < |pieces| && Decode(codec, pieces[i]) == None
    ensures Undecodable(codec, pieces)
  {
  }

  ghost predicate Undecodable(codec: Codec, pieces: seq<seq<Byte>>) {
    exists i | 0 <= i < |pieces| :: Decode(codec, pieces[i]) == None
  }

  /** The state of the reading loop: what is cut off so far, and no separator between start and cursor. */
  ghost predicate Reading(codec: Codec, buf: seq<Byte>, start: nat, cursor: nat,
                          done: seq<seq<Byte>>, packets: seq<Packet>)
  {
    && start <= cursor <= |buf|
    && Cuts(buf) == done + Cuts(buf[start..])
    && Rest(buf) == Rest(buf[start..])
    && DecodesTo(codec, done, packets)
    && (forall j | start <= j < cursor :: !SepAt(buf, j))
    && (cursor == start || cursor + 7 <= |buf|)
  }

  lemma {:induction false} ReadingStart(codec: Codec, buf: seq<Byte>)
    ensures Reading(codec, buf, 0, 0, [], [])
  {
    assert buf[0..] == buf;
    assert [] + Cuts(buf) == Cuts(buf);
  }

  lemma {:induction false} ReadingNext(codec: Codec, buf: seq<Byte>, start: nat, cursor: nat,
                    done: seq<seq<Byte>>, packets: seq<Packet>)
    requires Reading(codec, buf, start, cursor, done, packets)
    requires cursor + 8 <= |buf| && !SepAt(buf, cursor)
    ensures Reading(codec, buf, start, cursor + 1, done, packets)
  {
  }

  lemma {:induction false} ReadingCut(codec: Codec, buf: seq<Byte>, start: nat, cursor: nat,
                   done: seq<seq<Byte>>, packets: seq<Packet>)
    requires Reading(codec, buf, start, cursor, done, packets)
    requires SepAt(buf, cursor)
    ensures match Decode(codec, buf[start..cursor])
            case None => Undecodable(codec, Pieces(buf))
            case Some(p) => Reading(codec, buf, cursor + 8, cursor + 8, done + [buf[start..cursor]], packets + [p])
  {
    CutStep(buf, start, cursor);
    var data := buf[start..cursor];
    var rest := Cuts(buf[cursor + 8..]);
    assert done + ([data] + rest) == done + [data] + rest;
    if Decode(codec, data) == None {
      PieceFails(codec, Pieces(buf), |done|);
    }
  }

  lemma {:induction false} ReadingEnd(codec: Codec, buf: seq<Byte>, start: nat, cursor: nat,
                   done: seq<seq<Byte>>, packets: seq<Packet>)
    requires Reading(codec, buf, start, cursor, done, packets)
    requires cursor + 8 > |buf|
    ensures cursor == |buf| ==> DecodesTo(codec, Pieces(buf), packets)
    ensures cursor < |buf| ==>
              match Decode(codec, buf[cursor..])
              case None => Undecodable(codec, Pieces(buf))
              case Some(p) => DecodesTo(codec, Pieces(buf), packets + [p])
  {
    CutStep(buf, start, cursor);
    assert Cuts(buf) == done && Rest(buf) == buf[start..];
    if cursor < |buf| {
      var data := buf[cursor..];
      assert Rest(buf)[|Rest(buf)| - Min(7, |Rest(buf)|)..] == data;
      assert Pieces(buf) == done + [data];
      if Decode(codec, data) == None {
        PieceFails(codec, Pieces(buf), |done|);
      }
    } else {
      assert Pieces(buf) == done;
    }
  }

  /** `P::deserialize_content`. */
  method DecodePacket(codec: Codec, data: seq<Byte>, validUtf8: seq<Byte> -> bool) returns (r: Option<Packet>)
    requires forall b | AllAscii(b) :: validUtf8(b)
    ensures r == Decode(codec, data)
  {
    match codec
    case RawBytes =>
      r := Some(Raw(data));
    case TokenText =>
      Scanner.ParseOutcome(data);
      var tokens := Scanner.DeserializeContent(data, validUtf8);
      r := match tokens case Some(ts) => Some(Stream(ts)) case None => None;
  }

  /** `parse_txt`, as written: the final slice begins at `cursor`. */
  method ParseTxt(codec: Codec, buf: seq<Byte>, validUtf8: seq<Byte> -> bool) returns (r: Option<seq<Packet>>)
    requires forall b | AllAscii(b) :: validUtf8(b)
    ensures match r
            case Some(ps) => DecodesTo(codec, Pieces(buf), ps)
            case None => Undecodable(codec, Pieces(buf))
  {
    var start, cursor := 0, 0;
    var packets: seq<Packet> := [];
    ghost var done: seq<seq<Byte>> := [];
    ReadingStart(codec, buf);
    while cursor < |buf|
      invariant 0 <= start <= cursor <= |buf|
      invariant Reading(codec, buf, start, cursor, done, packets)
      decreases |buf| - cursor
    {
      if cursor + 8 > |buf| {
        break;
      }
      SepAtIsSlice(buf, cursor);
      if buf[cursor..cursor + 8] == SEPARATOR {
        ReadingCut(codec, buf, start, cursor, done, packets);
        var data := buf[start..cursor];
        var packet := DecodePacket(codec, data, validUtf8);
        if packet == None {
          return None;
        }
        packets := packets + [packet.value];
        done := done + [data];
        cursor := cursor + 8;
        start := cursor;
      } else {
        ReadingNext(codec, buf, start, cursor, done, packets);
        cursor := cursor + 1;
      }
    }
    ReadingEnd(codec, buf, start, cursor, done, packets);
    if cursor < |buf| {
      var data := buf[cursor..];
      var packet := DecodePacket(codec, data, validUtf8);
      if packet == None {
        return None;
      }
      packets := packets + [packet.value];
    }
    r := Some(packets);
  }
}
