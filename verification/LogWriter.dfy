/** The segment writer: one attempt, one stream, appended to until it is full. */
module LogWriter {
  import opened Base
  import opened LogFormat
  import opened LogRange

  datatype FormatError = Invalid | Sequence | Full | GapLimit

  datatype Appended = Done | Failed(error: FormatError)

  /** A sealed segment, as it is spooled and uploaded. */
  datatype Sealed = Sealed(bytes: Bytes, attempt: Bytes, stream: Stream, first: int, last: int, gaps: seq<Gap>)

  /** What a sealed segment holds: these records, from `first` on, ending with the last of them. */
  ghost predicate Holds(s: Sealed, rs: seq<Record>)
  {
    && rs != [] && WellFormed(Segment(s.attempt, s.stream, rs)) && Encode(Segment(s.attempt, s.stream, rs)) == s.bytes
    && 1 <= s.first && Increasing(s.first, rs) && s.last == rs[|rs| - 1].sequence
    && s.gaps == Holes(s.first, rs) && |s.gaps| <= MAX_GAPS
  }

  /** The error an append returns, in the order the tests are made. */
  function AppendError(used: nat, gaps: nat, expected: int, sequence: int, nanos: int, size: nat): Option<FormatError>
  {
    if sequence == 0 || sequence > MAX_I64 || nanos < 0 || size == 0 then Some(Invalid)
    else if sequence < expected then Some(Sequence)
    else if sequence > expected && gaps == MAX_GAPS then Some(GapLimit)
    else if MAX_SEGMENT_BYTES - used < RECORD_HEADER_BYTES || size > MAX_SEGMENT_BYTES - used - RECORD_HEADER_BYTES then Some(Full)
    else None
  }

  /** The writer's fields agree with the records appended so far. */
  ghost predicate Written(bytes: Bytes, attempt: Bytes, stream: Stream, first: int, last: Option<int>, gaps: seq<Gap>, records: seq<Record>)
  {
    && Canonical(attempt) && 1 <= first <= MAX_I64 && ValidRecords(records) && Increasing(first, records)
    && bytes == Encode(Segment(attempt, stream, records)) && |bytes| <= MAX_SEGMENT_BYTES
    && gaps == Holes(first, records) && |gaps| <= MAX_GAPS
    && last == if records == [] then None else Some(records[|records| - 1].sequence)
  }

  lemma WrittenMore(bytes: Bytes, attempt: Bytes, stream: Stream, first: int, last: Option<int>, gaps: seq<Gap>, records: seq<Record>, r: Record, gaps': seq<Gap>)
    requires Written(bytes, attempt, stream, first, last, gaps, records) && ValidRecord(r)
    requires AppendError(|bytes|, |gaps|, NextExpected(first, records), r.sequence, r.nanos, |r.payload|).None?
    requires gaps' == if r.sequence > NextExpected(first, records) then gaps + [Gap(NextExpected(first, records), r.sequence - 1)] else gaps
    ensures Written(bytes + EncodeRecord(r), attempt, stream, first, Some(r.sequence), gaps', records + [r])
  {
    HolesAppend(first, records, r);
    EncodeMore(attempt, stream, records, r, records + [r]);
  }

  class LogSegmentWriter {
    var bytes: Bytes
    const attempt: Bytes
    const stream: Stream
    const first: int
    var last: Option<int>
    var gaps: seq<Gap>
    ghost var records: seq<Record>

    ghost predicate Valid()
      reads this
    {
      Written(bytes, attempt, stream, first, last, gaps, records)
    }

    /** The body of LogSegmentWriter::new once its arguments are accepted. */
    constructor (attempt: Bytes, stream: Stream, first: int)
      requires Canonical(attempt) && 1 <= first <= MAX_I64
      ensures Valid() && records == [] && this.attempt == attempt && this.stream == stream && this.first == first
      ensures |bytes| == HEADER_BYTES && gaps == []
    {
      this.attempt, this.stream, this.first := attempt, stream, first;
      bytes := MAGIC + attempt + [StreamByte(stream), 0, 0, 0];
      last, gaps, records := None, [], [];
    }

    method Append(sequence: int, nanos: int, payload: Bytes) returns (r: Appended)
      requires Valid() && 0 <= sequence && nanos <= MAX_I64
      modifies this
      ensures Valid()
      ensures var error := AppendError(|old(bytes)|, |old(gaps)|, NextExpected(first, old(records)), sequence, nanos, |payload|);
              r == if error.Some? then Failed(error.value) else Done
      ensures r.Done? ==> records == old(records) + [Record(sequence, nanos, payload)]
      ensures r.Failed? ==> records == old(records) && bytes == old(bytes) && gaps == old(gaps)
    {
      if sequence == 0 || sequence > MAX_I64 || nanos < 0 || payload == [] {
        return Failed(Invalid);
      }
      var expected := if last.Some? then last.value + 1 else first;
      if sequence < expected {
        return Failed(Sequence);
      }
      if sequence > expected && |gaps| == MAX_GAPS {
        return Failed(GapLimit);
      }
      var available := MAX_SEGMENT_BYTES - |bytes|;
      if available < RECORD_HEADER_BYTES || |payload| > available - RECORD_HEADER_BYTES {
        return Failed(Full);
      }
      Commit(sequence, nanos, payload, expected);
      return Done;
    }

    /** Only commit a gap and a sequence once the whole framed record fits. */
    method Commit(sequence: int, nanos: int, payload: Bytes, expected: int)
      requires Valid() && expected == NextExpected(first, records) && ValidRecord(Record(sequence, nanos, payload))
      requires AppendError(|bytes|, |gaps|, expected, sequence, nanos, |payload|).None?
      modifies this
      ensures Valid() && records == old(records) + [Record(sequence, nanos, payload)]
    {
      ghost var record := Record(sequence, nanos, payload);
      var framed := U64Bytes(sequence) + U64Bytes(nanos) + U32Bytes(|payload|) + payload;
      var more := if sequence > expected then gaps + [Gap(expected, sequence - 1)] else gaps;
      WrittenMore(bytes, attempt, stream, first, last, gaps, records, record, more);
      gaps, bytes, last := more, bytes + framed, Some(sequence);
      records := records + [record];
    }

    /** Consumes the writer; a segment without a record is an error. */
    method Finish() returns (r: Option<Sealed>)
      requires Valid()
      ensures r.Some? <==> records != []
      ensures r.Some? ==> Holds(r.value, records) && r.value.attempt == attempt && r.value.stream == stream && r.value.first == first
      ensures r.Some? ==> r.value.bytes == bytes && r.value.gaps == gaps
    {
      if last.None? {
        return None;
      }
      return Some(Sealed(bytes, attempt, stream, first, last.value, gaps));
    }
  }

  /** LogSegmentWriter::new. */
  method NewWriter(attempt: Bytes, stream: Stream, first: int) returns (r: Option<LogSegmentWriter>)
    ensures r.Some? <==> Canonical(attempt) && !IsNil(attempt) && 1 <= first <= MAX_I64
    ensures r.Some? ==> fresh(r.value) && r.value.Valid() && r.value.records == [] && r.value.attempt == attempt
                        && r.value.stream == stream && r.value.first == first && |r.value.bytes| == HEADER_BYTES && r.value.gaps == []
  {
    if !Canonical(attempt) || IsNil(attempt) || first < 1 || first > MAX_I64 {
      return None;
    }
    var w := new LogSegmentWriter(attempt, stream, first);
    return Some(w);
  }

  /** Reading a sealed segment back yields exactly the appended records, and its own metadata passes
      the reader's range check. */
  method ReadBack(s: Sealed, ghost rs: seq<Record>) returns (segment: Segment, accepted: bool)
    requires Holds(s, rs)
    ensures segment == Segment(s.attempt, s.stream, rs) && accepted
  {
    var decoded := Decode(s.bytes);
    assert decoded == Ok(Segment(s.attempt, s.stream, rs));
    segment := decoded.value;
    accepted := VerifyLogRange(segment, Metadata(s.first, s.last, s.gaps));
    AcceptedRanges(Metadata(s.first, s.last, s.gaps), rs);
  }
}
