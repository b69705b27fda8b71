/** The shared packet buffer: the executor fills it, the hooks of the target read and seek in it. */
module SharedBuffer {
  import opened Bytes
  import opened Framing

  /** The number of values of `size_t`, and the bound of `ssize_t`. */
  const SIZE_VALUES: int := 0x1_0000_0000_0000_0000
  const HALF_SIZE_VALUES: int := 0x8000_0000_0000_0000

  /** The size of the shared memory segment, of which cursor and size take 8 bytes each. */
  const PACKET_BUFFER_SIZE: nat := 64 * 1024 * 1024
  const DATA_LENGTH: nat := PACKET_BUFFER_SIZE - 16

  /** The readable bytes and the position of the next read, which a seek may have left anywhere. */
  datatype View = View(data: seq<Byte>, cursor: nat)

  /** The next read starts within the data. */
  predicate Sound(v: View) { v.cursor <= |v.data| }

  /** Both numbers are values of `size_t`. */
  predicate Fits(v: View) { |v.data| < SIZE_VALUES && v.cursor < SIZE_VALUES }

  datatype Event = Read(size: nat) | Seek(offset: int)

  /** What a read of at most `size` bytes delivers. */
  function Chunk(v: View, size: nat): seq<Byte>
    requires Sound(v)
  {
    v.data[v.cursor..v.cursor + Min(size, |v.data| - v.cursor)]
  }

  /** A seek that stays within the data. */
  predicate SeekInside(v: View, offset: int) { 0 <= v.cursor + offset <= |v.data| }

  /** The C code defines every seek, and the reads that start within the data. */
  predicate Possible(v: View, e: Event) { e.Read? ==> Sound(v) }

  function After(v: View, e: Event): (w: View)
    requires Possible(v, e)
    ensures w.data == v.data
    ensures e.Read? ==> Sound(w)
  {
    match e
    case Read(size) => v.(cursor := v.cursor + |Chunk(v, size)|)
    case Seek(offset) => v.(cursor := (v.cursor + offset) % SIZE_VALUES)
  }

  /** `PacketBuffer`, shared between the executor and the hooks. */
  class PacketBuffer {
    var cursor: nat
    var size: nat
    const data: array<Byte>

    /** The state in which any sequence of fills, reads and seeks leaves the buffer. */
    ghost predicate Attached()
      reads this
    {
      data.Length == DATA_LENGTH && size <= DATA_LENGTH && cursor < SIZE_VALUES
    }

    /** The next read starts within the data. */
    ghost predicate Valid()
      reads this
    {
      Attached() && cursor <= size
    }

    ghost function Now(): (v: View)
      requires Attached()
      reads this, data
      ensures Sound(v) <==> Valid()
      ensures Fits(v)
    {
      View(data[..size], cursor)
    }

    constructor ()
      ensures Valid() && fresh(data) && Now() == View([], 0)
    {
      cursor, size := 0, 0;
      data := new Byte[DATA_LENGTH](_ => 0);
    }

    /** The reset and fill at the start of `run_target`, from any earlier cursor and size. The result is
        false if serialization panics. */
    method Fill(input: PacketInput) returns (ok: bool)
      requires data.Length == DATA_LENGTH
      modifies this, data
      ensures ok <==> FramedLength(Contents(input.packets)) <= DATA_LENGTH
      ensures ok ==> Valid() && Now() == View(Join(Contents(input.packets)), 0)
    {
      cursor := 0;
      var written := input.ConvertToTxt(data);
      if written == None {
        return false;
      }
      size := written.value;
      ok := true;
    }

    /** `hook_input`, when a packet buffer is attached. */
    method HookInput(buf: array<Byte>, want: nat) returns (n: nat)
      requires Valid() && buf != data && want <= buf.Length
      modifies `cursor, buf
      ensures Valid() && Now() == After(old(Now()), Read(want))
      ensures n == |Chunk(old(Now()), want)|
      ensures buf[..] == Overlay(old(buf[..]), 0, Chunk(old(Now()), want))
    {
      var at := cursor;
      var remBytes := size - at;
      n := if want < remBytes then want else remBytes;
      assert data[at..at + n] == Chunk(Now(), want);
      CopyInto(buf, 0, data[at..at + n]);
      cursor := at + n;
    }

    /** `hook_seek`, when a packet buffer is attached: the offset is added modulo 2^64, from any cursor. If the
        cursor is within the data it stays there exactly if the sum does, without wrapping around. */
    method HookSeek(offset: int) returns (pos: nat)
      requires Attached()
      requires -HALF_SIZE_VALUES <= offset < HALF_SIZE_VALUES
      modifies `cursor
      ensures pos == cursor
      ensures Attached() && Now() == After(old(Now()), Seek(offset))
      ensures old(Valid()) ==>
                && (Valid() <==> SeekInside(old(Now()), offset))
                && (Valid() ==> cursor == old(cursor) + offset)
    {
      cursor := (cursor + offset % SIZE_VALUES) % SIZE_VALUES;
      pos := cursor;
    }
  }

  // ---------- Sessions of reads and seeks ----------

  /** The bytes delivered by a single event. */
  function DeliveredBy(v: View, e: Event): seq<Byte>
    requires Possible(v, e)
  {
    if e.Read? then Chunk(v, e.size) else []
  }

  /** Every read of the session starts within the data; the seeks may leave them in between. */
  predicate Defined(v: View, es: seq<Event>)
    decreases |es|
  {
    es == [] || (Possible(v, es[0]) && Defined(After(v, es[0]), es[1..]))
  }

  function End(v: View, es: seq<Event>): (w: View)
    requires Defined(v, es)
    ensures w.data == v.data
    decreases |es|
  {
    if es == [] then v else End(After(v, es[0]), es[1..])
  }

  /** The bytes that the reads of the session deliver, in order. */
  function Delivered(v: View, es: seq<Event>): seq<Byte>
    requires Defined(v, es)
    decreases |es|
  {
    if es == [] then []
    else DeliveredBy(v, es[0]) + Delivered(After(v, es[0]), es[1..])
  }

  function Travel(es: seq<Event>): int {
    if es == [] then 0 else (if es[0].Seek? then es[0].offset else 0) + Travel(es[1..])
  }

  lemma {:induction false} WrapOnce(a: int, b: int)
    ensures (a % SIZE_VALUES + b) % SIZE_VALUES == (a + b) % SIZE_VALUES
  {
    var q := a / SIZE_VALUES;
    assert a % SIZE_VALUES + b == (a + b) - q * SIZE_VALUES;
    WrapMultiple(a + b, -q);
  }

  lemma {:induction false} WrapMultiple(a: int, q: int)
    ensures (a + q * SIZE_VALUES) % SIZE_VALUES == a % SIZE_VALUES
  {
    var r, k := a % SIZE_VALUES, a / SIZE_VALUES;
    assert a + q * SIZE_VALUES == r + (k + q) * SIZE_VALUES;
    assert (r + (k + q) * SIZE_VALUES) / SIZE_VALUES == k + q;
  }

  /** Over any session, also one that leaves the data and returns before it reads, the cursor is accounted for
      modulo 2^64 by the bytes delivered and the offsets sought; in particular, consecutive seeks add up. */
  lemma {:induction false} SessionAddsUp(v: View, es: seq<Event>)
    requires Fits(v) && Defined(v, es)
    ensures Fits(End(v, es))
    ensures End(v, es).cursor == (v.cursor + |Delivered(v, es)| + Travel(es)) % SIZE_VALUES
    decreases |es|
  {
    if es != [] {
      var e, w := es[0], After(v, es[0]);
      SessionAddsUp(w, es[1..]);
      if e.Seek? {
        WrapOnce(v.cursor + e.offset, |Delivered(w, es[1..])| + Travel(es[1..]));
      }
    }
  }

  /** Every seek of the session stays within the data. */
  predicate Inside(v: View, es: seq<Event>)
    requires Defined(v, es)
    decreases |es|
  {
    es == [] || ((es[0].Seek? ==> SeekInside(v, es[0].offset)) && Inside(After(v, es[0]), es[1..]))
  }

  /** A session that seeks inside the data never leaves them, and nothing wraps around. */
  lemma {:induction false} SessionIsSound(v: View, es: seq<Event>)
    requires Sound(v) && |v.data| < SIZE_VALUES && Defined(v, es) && Inside(v, es)
    ensures End(v, es).cursor <= |v.data|
    ensures End(v, es).cursor == v.cursor + |Delivered(v, es)| + Travel(es)
    decreases |es|
  {
    if es != [] {
      SessionIsSound(After(v, es[0]), es[1..]);
    }
  }

  predicate OnlyReads(es: seq<Event>) { forall e | e in es :: e.Read? }

  lemma {:induction false} ReadsAreDefined(v: View, es: seq<Event>)
    requires Sound(v) && OnlyReads(es)
    ensures Defined(v, es)
    decreases |es|
  {
    if es != [] {
      assert es[0] in es;
      ReadsAreDefined(After(v, es[0]), es[1..]);
    }
  }

  /** Reads of whatever sizes deliver the data between the first and the last cursor, in order, without
      gap or repetition. */
  lemma {:induction false} ReadsDeliverPrefix(v: View, es: seq<Event>)
    requires Sound(v) && OnlyReads(es)
    ensures Defined(v, es)
    ensures v.cursor <= End(v, es).cursor <= |v.data| && End(v, es).data == v.data
    ensures Delivered(v, es) == v.data[v.cursor..End(v, es).cursor]
    decreases |es|
  {
    ReadsAreDefined(v, es);
    if es != [] {
      var w := After(v, es[0]);
      ReadsDeliverPrefix(w, es[1..]);
      SlicesMeet(v.data, v.cursor, w.cursor, End(w, es[1..]).cursor);
    }
  }

  lemma {:induction false} SlicesMeet(s: seq<Byte>, a: nat, b: nat, c: nat)
    requires a <= b <= c <= |s|
    ensures s[a..b] + s[b..c] == s[a..c]
  {
  }

  predicate PositiveReads(es: seq<Event>) { forall e | e in es :: e.Read? && e.size > 0 }

  /** Every read of a positive size makes progress until the data are exhausted. */
  lemma {:induction false} ReadsProgress(v: View, es: seq<Event>)
    requires Sound(v) && PositiveReads(es)
    ensures Defined(v, es)
    ensures End(v, es).cursor >= Min(|v.data|, v.cursor + |es|)
    decreases |es|
  {
    ReadsAreDefined(v, es);
    if es != [] {
      assert es[0] in es;
      ReadsProgress(After(v, es[0]), es[1..]);
    }
  }

  /** A read of a positive size returns 0 exactly when the data are exhausted. */
  lemma {:induction false} ZeroMeansExhausted(v: View, size: nat)
    requires Sound(v) && size > 0
    ensures Chunk(v, size) == [] <==> v.cursor == |v.data|
  {
  }

  lemma {:induction false} SessionCons(v: View, e: Event, es: seq<Event>)
    requires Possible(v, e) && Defined(After(v, e), es)
    ensures Defined(v, [e] + es)
    ensures End(v, [e] + es) == End(After(v, e), es)
    ensures Delivered(v, [e] + es) == DeliveredBy(v, e) + Delivered(After(v, e), es)
  {
    assert ([e] + es)[1..] == es;
  }

  lemma {:induction false} SessionConcat(v: View, a: seq<Event>, b: seq<Event>)
    requires Defined(v, a) && Defined(End(v, a), b)
    ensures Defined(v, a + b)
    ensures End(v, a + b) == End(End(v, a), b)
    ensures Delivered(v, a + b) == Delivered(v, a) + Delivered(End(v, a), b)
    decreases |a|
  {
    if a == [] {
      assert a + b == b;
    } else {
      var e, rest := a[0], a[1..];
      SessionConcat(After(v, e), rest, b);
      SessionCons(v, e, rest + b);
      assert a == [e] + rest;
      Associative([e], rest, b);
      assert Delivered(v, a) == DeliveredBy(v, e) + Delivered(After(v, e), rest);
      Associative(DeliveredBy(v, e), Delivered(After(v, e), rest), Delivered(End(v, a), b));
    }
  }

  /** A read, a seek back over the bytes read, and the read again. */
  function Again(v: View, size: nat): seq<Event>
    requires Sound(v)
  {
    [Read(size)] + ([Seek(-|Chunk(v, size)|)] + ([Read(size)] + []))
  }

  lemma {:induction false} SeekBack(v: View, size: nat)
    requires Sound(v) && Fits(v)
    ensures After(After(v, Read(size)), Seek(-|Chunk(v, size)|)) == v
  {
  }

  lemma {:induction false} AgainRepeats(v: View, size: nat)
    requires Sound(v) && Fits(v)
    ensures Defined(v, Again(v, size))
    ensures End(v, Again(v, size)) == After(v, Read(size))
    ensures Delivered(v, Again(v, size)) == Chunk(v, size) + Chunk(v, size)
  {
    var read, back := Read(size), Seek(-|Chunk(v, size)|);
    var w := After(v, read);
    SeekBack(v, size);
    SessionCons(v, read, []);
    SessionCons(w, back, [read] + []);
    SessionCons(v, read, [back] + ([read] + []));
    assert [] + (Chunk(v, size) + []) == Chunk(v, size);
  }

  /** After any session that ends within the data, a read delivers exactly the bytes at the cursor; a seek back
      over them restores the state, and the same read then delivers the same bytes again. */
  lemma {:induction false} SeekBackRepeats(v: View, es: seq<Event>, size: nat)
    requires Fits(v) && Defined(v, es) && Sound(End(v, es))
    ensures var at := (v.cursor + |Delivered(v, es)| + Travel(es)) % SIZE_VALUES;
            at <= |v.data| && Chunk(End(v, es), size) == v.data[at..at + Min(size, |v.data| - at)]
    ensures var w := End(v, es);
            && Defined(v, es + Again(w, size))
            && Delivered(v, es + Again(w, size)) == Delivered(v, es) + (Chunk(w, size) + Chunk(w, size))
            && End(v, es + Again(w, size)) == After(w, Read(size))
  {
    ReadAfter(v, es, size);
    RepeatAfter(v, es, End(v, es), size);
  }

  lemma {:induction false} ReadAfter(v: View, es: seq<Event>, size: nat)
    requires Fits(v) && Defined(v, es) && Sound(End(v, es))
    ensures var at := (v.cursor + |Delivered(v, es)| + Travel(es)) % SIZE_VALUES;
            at <= |v.data| && Chunk(End(v, es), size) == v.data[at..at + Min(size, |v.data| - at)]
    ensures Fits(End(v, es))
  {
    SessionAddsUp(v, es);
  }

  lemma {:induction false} RepeatAfter(v: View, es: seq<Event>, w: View, size: nat)
    requires Defined(v, es) && w == End(v, es) && Sound(w) && Fits(w)
    ensures Defined(v, es + Again(w, size)) && End(v, es + Again(w, size)) == After(w, Read(size))
    ensures Delivered(v, es + Again(w, size)) == Delivered(v, es) + (Chunk(w, size) + Chunk(w, size))
  {
    AgainRepeats(w, size);
    AfterSession(v, es, Again(w, size), w);
  }

  lemma {:induction false} AfterSession(v: View, a: seq<Event>, b: seq<Event>, w: View)
    requires Defined(v, a) && w == End(v, a) && Defined(w, b)
    ensures Defined(v, a + b) && End(v, a + b) == End(w, b)
    ensures Delivered(v, a + b) == Delivered(v, a) + Delivered(w, b)
  {
    SessionConcat(v, a, b);
  }
}
