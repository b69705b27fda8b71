/** What the framing preserves: exact round trips in both directions. */
module FramingLaws {
  import opened Bytes
  import opened Tokens
  import opened Framing
  import Scanner

  predicate NoSeparator(c: seq<Byte>) {
    forall k | 0 <= k < |c| :: !SepAt(c, k)
  }

  predicate EndsInDash(c: seq<Byte>) {
    c != [] && c[|c| - 1] == DASH
  }

  /** A packet in front of a separator that is cut off whole. */
  predicate CutsWhole(c: seq<Byte>) {
    NoSeparator(c) && !EndsInDash(c)
  }

  /** The packet lists that survive being written and read. */
  predicate Frameable(cs: seq<seq<Byte>>) {
    cs != [] ==>
      && (forall i | 0 <= i < |cs| - 1 :: CutsWhole(cs[i]))
      && 1 <= |cs[|cs| - 1]| <= 7
  }

  // ---------- Byte strings ----------

  lemma {:induction false} DashShiftsCut(c: seq<Byte>, rest: seq<Byte>)
    requires EndsInDash(c)
    ensures SepAt(c + SEPARATOR + rest, |c| - 1)
  {
    assert forall i | 0 <= i < 8 :: SEPARATOR[i] == DASH;
  }

  lemma {:induction false} SeparatorsStay(c: seq<Byte>, rest: seq<Byte>)
    ensures forall j | 0 <= j < |c| && SepAt(c, j) :: SepAt(c + SEPARATOR + rest, j)
  {
  }

  /** Because the separator overlaps itself, a dash at the end of a packet moves the cut to the left. */
  lemma {:induction false} LeftmostCut(c: seq<Byte>, rest: seq<Byte>)
    ensures FirstSep(c + SEPARATOR + rest, 0) <= |c|
    ensures FirstSep(c + SEPARATOR + rest, 0) == |c| <==> CutsWhole(c)
  {
    var s := c + SEPARATOR + rest;
    var k := FirstSep(s, 0);
    FirstSepIsLeast(s, 0);
    assert forall i | 0 <= i < 8 :: SEPARATOR[i] == DASH;
    assert SepAt(s, |c|);
    if k == |c| {
      SeparatorsStay(c, rest);
      if EndsInDash(c) {
        DashShiftsCut(c, rest);
      }
    } else if k + 8 <= |c| {
      assert forall i | k <= i < k + 8 :: c[i] == s[i];
      assert SepAt(c, k);
    } else {
      assert s[|c| - 1] == c[|c| - 1];
    }
  }

  lemma {:induction false} PiecesStep(s: seq<Byte>)
    requires FirstSep(s, 0) < |s|
    ensures Pieces(s) == [s[..FirstSep(s, 0)]] + Pieces(s[FirstSep(s, 0) + 8..])
  {
    var k := FirstSep(s, 0);
    var r := s[k + 8..];
    CutOnce(s);
    PrependCut(s[..k], Cuts(s), Cuts(r), Rest(s), Rest(r));
  }

  lemma {:induction false} PrependCut(c: seq<Byte>, cuts: seq<seq<Byte>>, more: seq<seq<Byte>>,
                                      rest: seq<Byte>, rest': seq<Byte>)
    requires cuts == [c] + more && rest == rest'
    ensures cuts + Tail(rest) == [c] + (more + Tail(rest'))
  {
  }

  lemma {:induction false} CutOnce(s: seq<Byte>)
    requires FirstSep(s, 0) < |s|
    ensures Cuts(s) == [s[..FirstSep(s, 0)]] + Cuts(s[FirstSep(s, 0) + 8..])
    ensures Rest(s) == Rest(s[FirstSep(s, 0) + 8..])
  {
    var k := FirstSep(s, 0);
    var r := s[k + 8..];
    assert Cuts(s) == [s[..k]] + Cuts(r);
  }

  /** Reading what was written gives the same byte strings back exactly for the frameable lists. */
  lemma {:induction false} PiecesOfJoin(cs: seq<seq<Byte>>)
    ensures Pieces(Join(cs)) == cs <==> Frameable(cs)
  {
    var s := Join(cs);
    if |cs| == 1 {
      var c := cs[0];
      FirstSepIsLeast(c, 0);
      if FirstSep(c, 0) < |c| {
        PiecesStep(c);
        assert Pieces(c)[0] != c;
      }
    } else if |cs| > 1 {
      var c, rest := cs[0], Join(cs[1..]);
      LeftmostCut(c, rest);
      PiecesStep(s);
      PiecesOfJoin(cs[1..]);
      assert s[|c| + 8..] == rest;
      assert s[..|c|] == c;
      assert cs == [c] + cs[1..];
      FrameableStep(cs);
    }
  }

  lemma {:induction false} FrameableStep(cs: seq<seq<Byte>>)
    requires |cs| > 1
    ensures Frameable(cs) <==> CutsWhole(cs[0]) && Frameable(cs[1..])
  {
    var ds := cs[1..];
    if Frameable(ds) && CutsWhole(cs[0]) {
      forall i | 0 <= i < |cs| - 1
        ensures CutsWhole(cs[i])
      {
        assert i > 0 ==> cs[i] == ds[i - 1];
      }
    }
    if Frameable(cs) {
      assert forall i | 0 <= i < |ds| - 1 :: ds[i] == cs[i + 1];
    }
  }

  /** The cuts are exact for every list whose packets cut off whole; only the last packet is at stake. */
  lemma {:induction false} CutsOfJoin(cs: seq<seq<Byte>>)
    requires cs != []
    requires forall i | 0 <= i < |cs| - 1 :: CutsWhole(cs[i])
    requires NoSeparator(cs[|cs| - 1])
    ensures Cuts(Join(cs)) == cs[..|cs| - 1]
    ensures Rest(Join(cs)) == cs[|cs| - 1]
  {
    var n := |cs| - 1;
    if n == 0 {
      NothingToCut(cs[0]);
    } else {
      var c, ds := cs[0], cs[1..];
      assert CutsWhole(c);
      assert forall i | 0 <= i < |ds| - 1 :: ds[i] == cs[i + 1];
      CutsOfJoin(ds);
      CutFront(c, Join(ds));
      assert cs[..n] == [c] + ds[..n - 1];
    }
  }

  lemma {:induction false} NothingToCut(c: seq<Byte>)
    requires NoSeparator(c)
    ensures Cuts(c) == [] && Rest(c) == c
  {
    FirstSepIsLeast(c, 0);
  }

  lemma {:induction false} CutFront(c: seq<Byte>, rest: seq<Byte>)
    requires CutsWhole(c)
    ensures Cuts(c + SEPARATOR + rest) == [c] + Cuts(rest)
    ensures Rest(c + SEPARATOR + rest) == Rest(rest)
  {
    var s := c + SEPARATOR + rest;
    LeftmostCut(c, rest);
    CutOnce(s);
    assert s[|c| + 8..] == rest && s[..|c|] == c;
  }

  /** The defect of the last slice: a last packet of more than 7 bytes comes back as its last 7 bytes. */
  lemma {:induction false} LongLastPacketIsTruncated(cs: seq<seq<Byte>>)
    requires cs != []
    requires forall i | 0 <= i < |cs| - 1 :: CutsWhole(cs[i])
    requires var last := cs[|cs| - 1]; NoSeparator(last) && |last| > 7
    ensures var last := cs[|cs| - 1];
            Pieces(Join(cs)) == cs[..|cs| - 1] + [last[|last| - 7..]] != cs
  {
    CutsOfJoin(cs);
    var last := cs[|cs| - 1];
    assert (cs[..|cs| - 1] + [last[|last| - 7..]])[|cs| - 1] != cs[|cs| - 1];
  }

  /** Nothing is lost by cutting: the cuts, each followed by its separator, and the rest are the input. */
  lemma {:induction false} CutsCover(s: seq<Byte>)
    ensures s == Framed(Cuts(s)) + Rest(s)
    ensures NoSeparator(Rest(s))
    decreases |s|
  {
    var k := FirstSep(s, 0);
    FirstSepIsLeast(s, 0);
    if k < |s| {
      CutsCover(s[k + 8..]);
      CutOnce(s);
      SplitAtSep(s, k);
      FramedCons(s[..k], Cuts(s[k + 8..]), Rest(s[k + 8..]));
    }
  }

  lemma {:induction false} CutsAreWhole(s: seq<Byte>)
    ensures forall c | c in Cuts(s) :: CutsWhole(c)
    decreases |s|
  {
    var k := FirstSep(s, 0);
    FirstSepIsLeast(s, 0);
    if k < |s| {
      CutsAreWhole(s[k + 8..]);
      CutOnce(s);
      SplitAtSep(s, k);
      LeftmostCut(s[..k], s[k + 8..]);
    }
  }

  lemma {:induction false} FramedCons(c: seq<Byte>, cs: seq<seq<Byte>>, rest: seq<Byte>)
    ensures Framed([c] + cs) + rest == c + SEPARATOR + (Framed(cs) + rest)
  {
    assert ([c] + cs)[1..] == cs;
    Associative(c + SEPARATOR, Framed(cs), rest);
  }

  lemma {:induction false} CutsOfFramed(cs: seq<seq<Byte>>, rest: seq<Byte>)
    requires NoSeparator(rest) && forall c | c in cs :: CutsWhole(c)
    ensures Cuts(Framed(cs) + rest) == cs
    ensures Rest(Framed(cs) + rest) == rest
  {
    if cs == [] {
      assert Framed(cs) + rest == rest;
      NothingToCut(rest);
    } else {
      var c := cs[0];
      var s := Framed(cs[1..]) + rest;
      CutsOfFramed(cs[1..], rest);
      CutFront(c, s);
      Associative(c + SEPARATOR, Framed(cs[1..]), rest);
    }
  }

  /** Cutting at the leftmost separator, repeatedly, is the only way to write a buffer as packets that cut off
      whole, each followed by a separator, and a rest that contains none. */
  lemma {:induction false} CutsAreUnique(s: seq<Byte>, cs: seq<seq<Byte>>, rest: seq<Byte>)
    ensures cs == Cuts(s) && rest == Rest(s)
       <==> s == Framed(cs) + rest && NoSeparator(rest) && forall c | c in cs :: CutsWhole(c)
  {
    CutsCover(s);
    CutsAreWhole(s);
    if s == Framed(cs) + rest && NoSeparator(rest) && forall c | c in cs :: CutsWhole(c) {
      CutsOfFramed(cs, rest);
    }
  }

  lemma {:induction false} JoinCons(c: seq<Byte>, ps: seq<seq<Byte>>)
    ensures Join([c] + ps) == if ps == [] then c else c + SEPARATOR + Join(ps)
  {
    assert ([c] + ps)[1..] == ps;
  }

  lemma {:induction false} SplitAtSep(s: seq<Byte>, k: nat)
    requires SepAt(s, k)
    ensures s == s[..k] + SEPARATOR + s[k + 8..]
  {
    SepAtIsSlice(s, k);
    assert s == s[..k] + s[k..k + 8] + s[k + 8..];
  }

  /** Writing what was read gives the buffer back exactly when the final segment has 1 to 7 bytes. */
  lemma {:induction false} JoinOfPieces(s: seq<Byte>)
    ensures Join(Pieces(s)) == s <==> s == [] || 1 <= |Rest(s)| <= 7
    decreases |s|
  {
    var k := FirstSep(s, 0);
    if k < |s| {
      var c, rest := s[..k], s[k + 8..];
      PiecesStep(s);
      CutOnce(s);
      JoinOfPieces(rest);
      FirstSepIsLeast(s, 0);
      SplitAtSep(s, k);
      JoinCons(c, Pieces(rest));
      if rest != [] {
        PiecesNonempty(rest);
        SameTail(c + SEPARATOR, Join(Pieces(rest)), rest);
      }
    }
  }

  lemma {:induction false} SameTail(a: seq<Byte>, x: seq<Byte>, y: seq<Byte>)
    ensures a + x == a + y <==> x == y
  {
    assert (a + x)[|a|..] == x && (a + y)[|a|..] == y;
  }

  lemma {:induction false} PiecesNonempty(s: seq<Byte>)
    requires s != []
    ensures Pieces(s) != []
  {
    if FirstSep(s, 0) < |s| {
      PiecesStep(s);
    }
  }

  /** Reading is stable under writing and reading again exactly when the last piece has 1 to 7 bytes. */
  lemma {:induction false} ReadingIsStable(s: seq<Byte>)
    ensures var ps := Pieces(s);
            Pieces(Join(ps)) == ps <==> ps == [] || 1 <= |ps[|ps| - 1]| <= 7
  {
    var ps := Pieces(s);
    PiecesOfJoin(ps);
    CutsAreWhole(s);
    forall i | 0 <= i < |ps| - 1
      ensures CutsWhole(ps[i])
    {
      assert ps[i] == Cuts(s)[i];
    }
  }

  /** A buffer that ends in a consumed separator loses exactly that separator. */
  lemma {:induction false} JoinDropsLastSeparator(s: seq<Byte>)
    requires s != [] && Rest(s) == []
    ensures Join(Pieces(s)) + SEPARATOR == s
    decreases |s|
  {
    var k := FirstSep(s, 0);
    var c, rest := s[..k], s[k + 8..];
    PiecesStep(s);
    CutOnce(s);
    FirstSepIsLeast(s, 0);
    SplitAtSep(s, k);
    JoinCons(c, Pieces(rest));
    if rest != [] {
      JoinDropsLastSeparator(rest);
      PiecesNonempty(rest);
      Associative(c + SEPARATOR, Join(Pieces(rest)), SEPARATOR);
    }
  }

  /** What `parse_txt` would keep if its last slice began at `start` instead of `cursor`: the whole rest. */
  function PiecesFromStart(s: seq<Byte>): seq<seq<Byte>> {
    Cuts(s) + if Rest(s) == [] then [] else [Rest(s)]
  }

  /** One packet always remains behind the last cut. */
  lemma {:induction false} JoinHasARest(cs: seq<seq<Byte>>)
    requires cs != []
    ensures Cuts(Join(cs)) != cs
  {
    CutsCover(Join(cs));
    FramedIsJoin(cs);
  }

  /** With that slice the round trip would not depend on the length of the last packet: it must be nonempty and
      contain no separator. */
  lemma {:induction false} IntendedRoundTrip(cs: seq<seq<Byte>>)
    ensures PiecesFromStart(Join(cs)) == cs
       <==> (cs != [] ==>
               && (forall i | 0 <= i < |cs| - 1 :: CutsWhole(cs[i]))
               && cs[|cs| - 1] != [] && NoSeparator(cs[|cs| - 1]))
  {
    var s := Join(cs);
    if cs == [] {
      NothingToCut(s);
    } else {
      var n := |cs| - 1;
      if (forall i | 0 <= i < n :: CutsWhole(cs[i])) && cs[n] != [] && NoSeparator(cs[n]) {
        CutsOfJoin(cs);
        assert cs == cs[..n] + [cs[n]];
      }
      if PiecesFromStart(s) == cs {
        JoinHasARest(cs);
        CutsCover(s);
        CutsAreWhole(s);
        assert cs[n] == Rest(s) && forall i | 0 <= i < n :: cs[i] == Cuts(s)[i];
      }
    }
  }

  // ---------- Packets ----------

  /** The packets that one codec prints and reads back unchanged. */
  ghost predicate Faithful(codec: Codec, p: Packet) {
    match codec
    case RawBytes => p.Raw?
    case TokenText => p.Stream? && Canonical(p.tokens)
  }

  lemma {:induction false} DecodeContentIff(codec: Codec, p: Packet)
    ensures Decode(codec, Content(p)) == Some(p) <==> Faithful(codec, p)
  {
    if p.Stream? {
      Scanner.PrintParseIff(p.tokens);
    }
  }

  lemma {:induction false} DecodedContent(codec: Codec, b: seq<Byte>)
    requires Decode(codec, b).Some?
    ensures Content(Decode(codec, b).value) == b
    ensures Faithful(codec, Decode(codec, b).value)
  {
    if codec.TokenText? {
      Scanner.ParsePrints(b);
    }
  }

  lemma {:induction false} DecodedContents(codec: Codec, pieces: seq<seq<Byte>>, ps: seq<Packet>)
    requires DecodesTo(codec, pieces, ps)
    ensures Contents(ps) == pieces
    ensures forall p | p in ps :: Faithful(codec, p)
  {
    forall i | 0 <= i < |ps|
      ensures Content(ps[i]) == pieces[i] && Faithful(codec, ps[i])
    {
      DecodedContent(codec, pieces[i]);
    }
  }

  /** Writing packets and reading them returns the same packets exactly for these lists. */
  lemma {:induction false} FramingRoundTrip(codec: Codec, ps: seq<Packet>)
    ensures DecodesTo(codec, Pieces(Join(Contents(ps))), ps)
       <==> Frameable(Contents(ps)) && forall p | p in ps :: Faithful(codec, p)
  {
    var cs := Contents(ps);
    PiecesOfJoin(cs);
    if DecodesTo(codec, Pieces(Join(cs)), ps) {
      DecodedContents(codec, Pieces(Join(cs)), ps);
    } else if Frameable(cs) && forall p | p in ps :: Faithful(codec, p) {
      forall i | 0 <= i < |ps|
        ensures Decode(codec, cs[i]) == Some(ps[i])
      {
        assert ps[i] in ps;
        DecodeContentIff(codec, ps[i]);
      }
    }
  }

  /** Packets that have been read, written and read again are the same packets exactly if there are none or the
      last one has 1 to 7 bytes. */
  lemma {:induction false} ReadAgain(codec: Codec, buf: seq<Byte>, ps: seq<Packet>)
    requires DecodesTo(codec, Pieces(buf), ps)
    ensures DecodesTo(codec, Pieces(Join(Contents(ps))), ps)
       <==> ps == [] || 1 <= |Content(ps[|ps| - 1])| <= 7
  {
    var cs := Contents(ps);
    DecodedContents(codec, Pieces(buf), ps);
    FramingRoundTrip(codec, ps);
    PiecesOfJoin(cs);
    ReadingIsStable(buf);
  }

  /** Reading a buffer and writing the packets reproduces the buffer exactly under the same bound on its
      final segment. */
  lemma {:induction false} PrintBack(codec: Codec, buf: seq<Byte>, ps: seq<Packet>)
    requires DecodesTo(codec, Pieces(buf), ps)
    ensures Join(Contents(ps)) == buf <==> buf == [] || 1 <= |Rest(buf)| <= 7
    ensures buf != [] && Rest(buf) == [] ==> Join(Contents(ps)) + SEPARATOR == buf
  {
    DecodedContents(codec, Pieces(buf), ps);
    JoinOfPieces(buf);
    if buf != [] && Rest(buf) == [] {
      JoinDropsLastSeparator(buf);
    }
  }
}
