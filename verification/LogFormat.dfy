/** The binary segment: what the worker writes, what the reader accepts, and that they are inverse. */
module LogFormat {
  import opened Base

  type Byte = b: int | 0 <= b < 256
  type Bytes = seq<Byte>

  const MAX_SEGMENT_BYTES := 0x10_0000
  const HEADER_BYTES := 48
  const RECORD_HEADER_BYTES := 20
  const MAX_GAPS := 1024
  const MAX_I64 := 0x7fff_ffff_ffff_ffff

  datatype Stream = Stdout | Stderr

  datatype Record = Record(sequence: int, nanos: int, payload: Bytes)

  datatype Gap = Gap(first: int, last: int)

  /** A decoded segment. */
  datatype Segment = Segment(attempt: Bytes, stream: Stream, records: seq<Record>)

  // ------------------------------------------------------------ big-endian numbers

  function Power(k: nat): nat
  {
    if k == 0 then 1 else 256 * Power(k - 1)
  }

  /** The `k` low bytes of `n`, most significant first. */
  function Big(n: nat, k: nat): (s: Bytes)
    ensures |s| == k
  {
    if k == 0 then [] else Big(n / 256, k - 1) + [n % 256]
  }

  function Unbig(s: Bytes): nat
  {
    if s == [] then 0 else Unbig(s[..|s| - 1]) * 256 + s[|s| - 1]
  }

  function U64Bytes(n: nat): (s: Bytes)
    ensures |s| == 8
  {
    Big(n, 8)
  }

  function U32Bytes(n: nat): (s: Bytes)
    ensures |s| == 4
  {
    Big(n, 4)
  }

  lemma {:induction false} UnbigBig(n: nat, k: nat)
    requires n < Power(k)
    ensures Unbig(Big(n, k)) == n
  {
    if k > 0 {
      UnbigBig(n / 256, k - 1);
      assert Big(n, k)[..k - 1] == Big(n / 256, k - 1);
    }
  }

  lemma {:induction false} BigUnbig(s: Bytes)
    ensures Unbig(s) < Power(|s|) && Big(Unbig(s), |s|) == s
  {
    if s != [] {
      BigUnbig(s[..|s| - 1]);
      assert Unbig(s) / 256 == Unbig(s[..|s| - 1]) && Unbig(s) % 256 == s[|s| - 1];
      assert s == s[..|s| - 1] + [s[|s| - 1]];
    }
  }

  lemma Powers()
    ensures Power(4) == 0x1_0000_0000 && Power(8) == 0x1_0000_0000_0000_0000
  {
    assert Power(2) == 0x1_0000;
    assert Power(4) == 0x1_0000 * Power(2);
    assert Power(6) == 0x1_0000 * Power(4);
    assert Power(8) == 0x1_0000 * Power(6);
  }

  // --------------------------------------------------------------------- encoding

  const MAGIC: Bytes := [68, 83, 80, 76, 79, 71, 48, 49]

  predicate IsHex(b: Byte)
  {
    48 <= b <= 57 || 97 <= b <= 102
  }

  predicate IsHyphenAt(i: nat)
  {
    i == 8 || i == 13 || i == 18 || i == 23
  }

  /** The lower-case hyphenated text form of a UUID. */
  predicate Canonical(id: Bytes)
  {
    |id| == 36 && forall i :: 0 <= i < 36 ==> if IsHyphenAt(i) then id[i] == 45 else IsHex(id[i])
  }

  /** The worker also refuses the nil UUID; the reader does not. */
  predicate IsNil(id: Bytes)
  {
    |id| == 36 && forall i :: 0 <= i < 36 ==> IsHyphenAt(i) || id[i] == 48
  }

  function StreamByte(s: Stream): Byte
  {
    if s.Stdout? then 1 else 2
  }

  function Header(attempt: Bytes, stream: Stream): Bytes
  {
    MAGIC + attempt + [StreamByte(stream), 0, 0, 0]
  }

  predicate ValidRecord(r: Record)
  {
    1 <= r.sequence <= MAX_I64 && 0 <= r.nanos <= MAX_I64 && 1 <= |r.payload| <= MAX_SEGMENT_BYTES
  }

  function EncodeRecord(r: Record): (s: Bytes)
    requires ValidRecord(r)
    ensures |s| == RECORD_HEADER_BYTES + |r.payload|
  {
    U64Bytes(r.sequence) + U64Bytes(r.nanos) + U32Bytes(|r.payload|) + r.payload
  }

  predicate ValidRecords(rs: seq<Record>)
  {
    && (forall i :: 0 <= i < |rs| ==> ValidRecord(rs[i]))
    && (forall i, k :: 0 <= i < k < |rs| ==> rs[i].sequence < rs[k].sequence)
  }

  function EncodeRecords(rs: seq<Record>): Bytes
    requires forall i :: 0 <= i < |rs| ==> ValidRecord(rs[i])
  {
    if rs == [] then [] else EncodeRecords(rs[..|rs| - 1]) + EncodeRecord(rs[|rs| - 1])
  }

  predicate WellFormed(s: Segment)
  {
    && Canonical(s.attempt) && s.records != [] && ValidRecords(s.records)
    && HEADER_BYTES + |EncodeRecords(s.records)| <= MAX_SEGMENT_BYTES
  }

  function Encode(s: Segment): Bytes
    requires forall i :: 0 <= i < |s.records| ==> ValidRecord(s.records[i])
  {
    Header(s.attempt, s.stream) + EncodeRecords(s.records)
  }

  // --------------------------------------------------------------------- decoding

  /** The record that starts at `offset`, if its header fits. */
  function RecordAt(body: Bytes, offset: nat): Option<Record>
  {
    if |body| - offset < RECORD_HEADER_BYTES then None
    else
      var sequence, nanos := Unbig(body[offset..offset + 8]), Unbig(body[offset + 8..offset + 16]);
      var size, start := Unbig(body[offset + 16..offset + 20]), offset + RECORD_HEADER_BYTES;
      if sequence == 0 || sequence > MAX_I64 || nanos > MAX_I64 || size == 0 || size > |body| - start then None
      else Some(Record(sequence, nanos, body[start..start + size]))
  }

  /** What is read back at the start of an encoded record is that record. */
  lemma RecordAtEncoded(body: Bytes, offset: nat, r: Record, rest: Bytes)
    requires offset <= |body| && ValidRecord(r) && body[offset..] == EncodeRecord(r) + rest
    ensures RecordAt(body, offset) == Some(r)
  {
    Powers();
    UnbigBig(r.sequence, 8);
    UnbigBig(r.nanos, 8);
    UnbigBig(|r.payload|, 4);
    var tail := EncodeRecord(r) + rest;
    assert body[offset..offset + 8] == tail[..8] == U64Bytes(r.sequence);
    assert body[offset + 8..offset + 16] == tail[8..16] == U64Bytes(r.nanos);
    assert body[offset + 16..offset + 20] == tail[16..20] == U32Bytes(|r.payload|);
    assert body[offset + 20..offset + 20 + |r.payload|] == tail[20..20 + |r.payload|] == r.payload;
  }

  /** Re-encoding what was read gives back the bytes it was read from. */
  lemma EncodedRecordAt(body: Bytes, offset: nat)
    requires |body| <= MAX_SEGMENT_BYTES && RecordAt(body, offset).Some?
    ensures var r := RecordAt(body, offset).value;
            ValidRecord(r) && body[offset..offset + RECORD_HEADER_BYTES + |r.payload|] == EncodeRecord(r)
  {
    BigUnbig(body[offset..offset + 8]);
    BigUnbig(body[offset + 8..offset + 16]);
    BigUnbig(body[offset + 16..offset + 20]);
    var r := RecordAt(body, offset).value;
    var n := offset + RECORD_HEADER_BYTES + |r.payload|;
    assert body[offset..n] == body[offset..offset + 8] + body[offset + 8..offset + 16] + body[offset + 16..offset + 20] + body[offset + 20..n];
  }

  lemma {:induction false} SplitRecords(rs: seq<Record>, n: nat)
    requires n < |rs| && forall i :: 0 <= i < |rs| ==> ValidRecord(rs[i])
    ensures EncodeRecords(rs) == EncodeRecords(rs[..n]) + (EncodeRecord(rs[n]) + EncodeRecords(rs[n + 1..]))
    decreases |rs|
  {
    hide EncodeRecord;
    var last := |rs| - 1;
    if n < last {
      SplitRecords(rs[..last], n);
      assert rs[..last][..n] == rs[..n] && rs[..last][n + 1..] == rs[n + 1..][..last - n - 1];
      assert rs[n + 1..][|rs[n + 1..]| - 1] == rs[last];
    } else {
      assert rs[n + 1..] == [];
    }
  }

  lemma EncodedTail(s: Segment, n: nat)
    requires WellFormed(s) && n < |s.records|
    ensures var offset := HEADER_BYTES + |EncodeRecords(s.records[..n])|;
            && offset < |Encode(s)|
            && Encode(s)[offset..] == EncodeRecord(s.records[n]) + EncodeRecords(s.records[n + 1..])
  {
    SplitRecords(s.records, n);
    var head, front := Header(s.attempt, s.stream), EncodeRecords(s.records[..n]);
    var tail := EncodeRecord(s.records[n]) + EncodeRecords(s.records[n + 1..]);
    assert Encode(s) == (head + front) + tail;
  }

  /** Any segment that encodes to `body` continues with the record found at `offset`. */
  lemma NextRecord(body: Bytes, s: Segment, records: seq<Record>, offset: nat)
    requires WellFormed(s) && Encode(s) == body && records <= s.records && records != s.records
    requires offset == HEADER_BYTES + |EncodeRecords(records)|
    ensures offset < |body| && RecordAt(body, offset) == Some(s.records[|records|])
    ensures records == [] || records[|records| - 1].sequence < s.records[|records|].sequence
  {
    var n := |records|;
    assert s.records[..n] == records;
    EncodedTail(s, n);
    RecordAtEncoded(body, offset, s.records[n], EncodeRecords(s.records[n + 1..]));
  }

  lemma HeaderBytes(body: Bytes, s: Segment)
    requires WellFormed(s) && Encode(s) == body
    ensures HEADER_BYTES + RECORD_HEADER_BYTES + 1 <= |body| <= MAX_SEGMENT_BYTES
    ensures body[..8] == MAGIC && body[8..44] == s.attempt && body[44] == StreamByte(s.stream) && body[45..48] == [0, 0, 0]
  {
    SplitRecords(s.records, 0);
    assert body[..48] == Header(s.attempt, s.stream);
  }

  /** Decode accepts exactly the encodings of well-formed segments and returns the segment encoded. */
  method Decode(body: Bytes) returns (r: Result<Segment>)
    ensures r.Ok? ==> WellFormed(r.value) && Encode(r.value) == body
    ensures forall s {:trigger Encode(s)} :: WellFormed(s) && Encode(s) == body ==> r == Ok(s)
  {
    forall s {:trigger Encode(s)} | WellFormed(s) && Encode(s) == body
      ensures HEADER_BYTES + RECORD_HEADER_BYTES + 1 <= |body| <= MAX_SEGMENT_BYTES
      ensures body[..8] == MAGIC && body[8..44] == s.attempt && body[44] == StreamByte(s.stream) && body[45..48] == [0, 0, 0]
    {
      HeaderBytes(body, s);
    }
    if |body| < HEADER_BYTES + RECORD_HEADER_BYTES + 1 || |body| > MAX_SEGMENT_BYTES || body[..8] != MAGIC || body[45..48] != [0, 0, 0] {
      return Err(ErrInvalid);
    }
    var id := body[8..44];
    if !Canonical(id) {
      return Err(ErrInvalid);
    }
    if body[44] != 1 && body[44] != 2 {
      return Err(ErrInvalid);
    }
    var stream := if body[44] == 1 then Stdout else Stderr;
    assert body[..48] == Header(id, stream);
    r := DecodeRecords(body, id, stream);
  }

  /** The records read so far, and the bytes they account for. */
  ghost predicate ReadSoFar(body: Bytes, id: Bytes, stream: Stream, records: seq<Record>, offset: nat)
  {
    && ValidRecords(records) && offset == HEADER_BYTES + |EncodeRecords(records)| <= |body|
    && body[..offset] == Encode(Segment(id, stream, records))
  }

  /** Every segment that encodes to `body` begins with these records. */
  ghost predicate Forced(body: Bytes, records: seq<Record>)
  {
    forall s {:trigger Encode(s)} :: WellFormed(s) && Encode(s) == body ==> records <= s.records
  }

  ghost predicate Identified(body: Bytes, id: Bytes, stream: Stream)
  {
    forall s {:trigger Encode(s)} :: WellFormed(s) && Encode(s) == body ==> s.attempt == id && s.stream == stream
  }

  lemma Associative(a: Bytes, b: Bytes, c: Bytes)
    ensures a + (b + c) == (a + b) + c
  {
  }

  lemma EncodeMore(id: Bytes, stream: Stream, records: seq<Record>, r: Record, more: seq<Record>)
    requires ValidRecords(records) && ValidRecord(r) && more == records + [r]
    requires records == [] || records[|records| - 1].sequence < r.sequence
    ensures ValidRecords(more) && EncodeRecords(more) == EncodeRecords(records) + EncodeRecord(r)
    ensures Encode(Segment(id, stream, more)) == Encode(Segment(id, stream, records)) + EncodeRecord(r)
  {
    assert more[..|records|] == records && more[|records|] == r;
    Associative(Header(id, stream), EncodeRecords(records), EncodeRecord(r));
  }

  lemma ReadOneMore(body: Bytes, id: Bytes, stream: Stream, records: seq<Record>, offset: nat, r: Record, more: seq<Record>, end: nat)
    requires |body| <= MAX_SEGMENT_BYTES && ReadSoFar(body, id, stream, records, offset) && RecordAt(body, offset) == Some(r)
    requires records == [] || records[|records| - 1].sequence < r.sequence
    requires more == records + [r] && end == offset + RECORD_HEADER_BYTES + |r.payload|
    ensures ReadSoFar(body, id, stream, more, end)
  {
    EncodedRecordAt(body, offset);
    EncodeMore(id, stream, records, r, more);
    assert body[..end] == body[..offset] + body[offset..end];
  }

  lemma ForcedNext(body: Bytes, id: Bytes, stream: Stream, records: seq<Record>, offset: nat, s: Segment)
    requires ReadSoFar(body, id, stream, records, offset) && offset < |body| && records <= s.records
    requires WellFormed(s) && Encode(s) == body && s.attempt == id && s.stream == stream
    ensures |records| < |s.records| && RecordAt(body, offset) == Some(s.records[|records|])
    ensures records == [] || records[|records| - 1].sequence < s.records[|records|].sequence
  {
    assert records != s.records;
    NextRecord(body, s, records, offset);
  }

  ghost predicate NoSegment(body: Bytes)
  {
    forall s {:trigger Encode(s)} :: WellFormed(s) ==> Encode(s) != body
  }

  lemma Rejected(body: Bytes, id: Bytes, stream: Stream, records: seq<Record>, offset: nat)
    requires ReadSoFar(body, id, stream, records, offset) && offset < |body| && Forced(body, records) && Identified(body, id, stream)
    requires var r := RecordAt(body, offset);
             r.None? || (records != [] && r.value.sequence <= records[|records| - 1].sequence)
    ensures NoSegment(body)
  {
    hide Encode;
    hide ReadSoFar;
    forall s {:trigger Encode(s)} | WellFormed(s) ensures Encode(s) != body {
      if Encode(s) == body {
        ForcedNext(body, id, stream, records, offset, s);
      }
    }
  }

  lemma ForcedMore(body: Bytes, id: Bytes, stream: Stream, records: seq<Record>, offset: nat, r: Record, more: seq<Record>)
    requires ReadSoFar(body, id, stream, records, offset) && offset < |body| && Forced(body, records) && Identified(body, id, stream)
    requires RecordAt(body, offset) == Some(r) && more == records + [r]
    ensures Forced(body, more)
  {
    hide Encode;
    hide RecordAt;
    hide ReadSoFar;
    forall s {:trigger Encode(s)} | WellFormed(s) && Encode(s) == body ensures more <= s.records {
      ForcedNext(body, id, stream, records, offset, s);
    }
  }

  lemma ForcedEnd(body: Bytes, id: Bytes, stream: Stream, records: seq<Record>)
    requires ReadSoFar(body, id, stream, records, |body|) && Forced(body, records) && Identified(body, id, stream)
    requires HEADER_BYTES < |body| <= MAX_SEGMENT_BYTES && Canonical(id)
    ensures WellFormed(Segment(id, stream, records)) && Encode(Segment(id, stream, records)) == body
    ensures forall s {:trigger Encode(s)} :: WellFormed(s) && Encode(s) == body ==> s == Segment(id, stream, records)
  {
    assert body[..|body|] == body;
    forall s {:trigger Encode(s)} | WellFormed(s) && Encode(s) == body ensures s == Segment(id, stream, records) {
      if records != s.records {
        NextRecord(body, s, records, |body|);
      }
    }
  }

  method DecodeRecords(body: Bytes, id: Bytes, stream: Stream) returns (r: Result<Segment>)
    requires HEADER_BYTES < |body| <= MAX_SEGMENT_BYTES && Canonical(id) && body[..48] == Header(id, stream) && Identified(body, id, stream)
    ensures r.Ok? ==> WellFormed(r.value) && Encode(r.value) == body
    ensures forall s {:trigger Encode(s)} :: WellFormed(s) && Encode(s) == body ==> r == Ok(s)
  {
    var records: seq<Record> := [];
    var previous, offset := 0, HEADER_BYTES;
    assert Encode(Segment(id, stream, [])) == Header(id, stream);
    while offset < |body|
      invariant ReadSoFar(body, id, stream, records, offset) && Forced(body, records)
      invariant previous == if records == [] then 0 else records[|records| - 1].sequence
      decreases |body| - offset
    {
      var next := RecordAt(body, offset);
      if next.None? || next.value.sequence <= previous {
        Rejected(body, id, stream, records, offset);
        return Err(ErrInvalid);
      }
      var more, end := records + [next.value], offset + RECORD_HEADER_BYTES + |next.value.payload|;
      ReadOneMore(body, id, stream, records, offset, next.value, more, end);
      ForcedMore(body, id, stream, records, offset, next.value, more);
      records, previous, offset := more, next.value.sequence, end;
    }
    ForcedEnd(body, id, stream, records);
    return Ok(Segment(id, stream, records));
  }
}
