/** Capture: frames are cut into numbered chunks, and a full queue drops a chunk but never its number. */
module LogCapture {
  import opened Base
  import opened LogFormat
  import opened LogAssembler

  const MAX_CHUNK_BYTES: nat := 0x1_0000

  datatype CaptureError = Clock | Closed | SequenceOverflow

  datatype Chunk = Chunk(stream: Stream, sequence: int, nanos: int, payload: Bytes)

  /** What the surroundings decide for one chunk: the clock reading, and the state of the bounded queue. */
  datatype Slot = Room | NoRoom | Gone
  datatype Moment = Moment(nanos: Option<int>, slot: Slot)

  /** The pieces of a frame, all but the last of full size. */
  function Pieces(bytes: Bytes): (r: seq<Bytes>)
    ensures forall i :: 0 <= i < |r| ==> 1 <= |r[i]| <= MAX_CHUNK_BYTES
  {
    if bytes == [] then []
    else if |bytes| <= MAX_CHUNK_BYTES then [bytes]
    else [bytes[..MAX_CHUNK_BYTES]] + Pieces(bytes[MAX_CHUNK_BYTES..])
  }

  function Concat(pieces: seq<Bytes>): Bytes
  {
    if pieces == [] then [] else pieces[0] + Concat(pieces[1..])
  }

  /** Cutting loses no byte. */
  lemma {:induction false} PiecesConcat(bytes: Bytes)
    ensures Concat(Pieces(bytes)) == bytes
    decreases |bytes|
  {
    if |bytes| > MAX_CHUNK_BYTES {
      PiecesConcat(bytes[MAX_CHUNK_BYTES..]);
      assert Pieces(bytes)[1..] == Pieces(bytes[MAX_CHUNK_BYTES..]);
    } else if bytes != [] {
      assert Pieces(bytes)[1..] == [];
    }
  }

  /** Numbers are handed out in order, whether or not their chunk got through. */
  ghost predicate Numbered(chunks: seq<Chunk>, counts: Two<int>)
  {
    && (forall i :: 0 <= i < |chunks| ==>
          && 1 <= chunks[i].sequence <= counts.At(chunks[i].stream) && 0 <= chunks[i].nanos <= MAX_I64
          && 1 <= |chunks[i].payload| <= MAX_CHUNK_BYTES)
    && (forall i, k :: 0 <= i < k < |chunks| && chunks[i].stream == chunks[k].stream ==> chunks[i].sequence < chunks[k].sequence)
  }

  /** The chunks of a frame that got through: piece `i` keeps the number `base + i + 1` when it is dropped. */
  function Through(s: Stream, base: int, pieces: seq<Bytes>, moments: seq<Moment>, n: nat): seq<Chunk>
    requires n <= |pieces| == |moments|
  {
    if n == 0 then []
    else
      var m := moments[n - 1];
      Through(s, base, pieces, moments, n - 1)
      + if m.slot.Room? && m.nanos.Some? then [Chunk(s, base + n, m.nanos.value, pieces[n - 1])] else []
  }

  lemma OneMore(chunks: seq<Chunk>, counts: Two<int>, c: Chunk)
    requires Numbered(chunks, counts) && c.sequence == counts.At(c.stream) + 1 && 1 <= c.sequence
    requires 0 <= c.nanos <= MAX_I64 && 1 <= |c.payload| <= MAX_CHUNK_BYTES
    ensures Numbered(chunks + [c], Put(counts, c.stream, c.sequence))
  {
  }

  lemma MoreNumbers(chunks: seq<Chunk>, counts: Two<int>, s: Stream, n: int)
    requires Numbered(chunks, counts) && counts.At(s) <= n
    ensures Numbered(chunks, Put(counts, s, n))
  {
  }

  /** The clock can be read and the receiver is there; a full queue only drops the chunk. */
  predicate Passes(m: Moment)
  {
    m.nanos.Some? && 0 <= m.nanos.value <= MAX_I64 && !m.slot.Gone?
  }

  class LogQueue {
    var counts: Two<int>
    /** Every chunk ever handed to the receiver. */
    ghost var sent: seq<Chunk>

    ghost predicate Valid()
      reads this
    {
      0 <= counts.stdout <= MAX_I64 && 0 <= counts.stderr <= MAX_I64 && Numbered(sent, counts)
    }

    constructor ()
      ensures Valid() && counts == Two(0, 0) && sent == []
    {
      counts, sent := Two(0, 0), [];
    }

    /** push_frame: each piece takes the next number; `moments[i]` is what happens to piece `i`. */
    method PushFrame(s: Stream, bytes: Bytes, moments: seq<Moment>) returns (r: Option<CaptureError>)
      requires Valid() && |moments| == |Pieces(bytes)|
      modifies this
      ensures Valid() && counts == Put(old(counts), s, counts.At(s))
      ensures r.None? ==> counts.At(s) == old(counts).At(s) + |moments|
      ensures r.None? <==> old(counts).At(s) + |moments| <= MAX_I64 && forall i :: 0 <= i < |moments| ==> Passes(moments[i])
      // Exactly the pieces that found room, under their own numbers.
      ensures var used := counts.At(s) - old(counts).At(s);
              0 <= used <= |moments| && sent == old(sent) + Through(s, old(counts).At(s), Pieces(bytes), moments, used)
    {
      hide Numbered;
      hide Pieces;
      var pieces := Pieces(bytes);
      ghost var base := counts.At(s);
      for i := 0 to |pieces|
        invariant Valid() && counts == Put(old(counts), s, base + i)
        invariant sent == old(sent) + Through(s, base, pieces, moments, i)
        invariant forall k :: 0 <= k < i ==> Passes(moments[k])
      {
        if moments[i].nanos.None? || moments[i].nanos.value < 0 || moments[i].nanos.value > MAX_I64 {
          return Some(Clock);
        }
        if counts.At(s) == MAX_I64 {
          return Some(SequenceOverflow);
        }
        var sequence := counts.At(s) + 1;
        ghost var item := Chunk(s, sequence, moments[i].nanos.value, pieces[i]);
        OneMore(sent, counts, item);
        MoreNumbers(sent, counts, s, sequence);
        counts := Put(counts, s, sequence);
        if moments[i].slot.Gone? {
          return Some(Closed);
        }
        if moments[i].slot.Room? {
          sent := sent + [item];
        }
      }
      return None;
    }
  }
}
