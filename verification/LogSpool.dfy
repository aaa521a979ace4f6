/** The bounded disk queue of sealed segments: byte and entry accounting. */
module LogSpool {
  import opened Base
  import opened LogFormat
  import opened LogWriter
  import opened MapSum

  const MAX_SPOOL_BYTES: nat := 0x1000_0000
  const MAX_SPOOL_SEGMENTS: nat := 1024

  /** A file name: the stream and the zero-padded range, which is injective for 63-bit numbers. */
  datatype Name = Name(stream: Stream, first: int, last: int)

  datatype SpoolError = Invalid | Identity | Conflict | Poisoned | Io

  datatype Stored = Stored(name: Name, size: nat) | Saturated | StoreFailed(error: SpoolError)

  function NameOf(s: Sealed): Name
  {
    Name(s.stream, s.first, s.last)
  }

  class LogSpool {
    const attempt: Bytes
    const cap: nat
    var used: nat
    var entries: map<Name, nat>
    var poisoned: bool

    ghost predicate Valid()
      reads this
    {
      && used == Sum(entries) && used <= cap && |entries| <= MAX_SPOOL_SEGMENTS
    }

    constructor (attempt: Bytes, cap: nat)
      ensures Valid() && entries == map[] && !poisoned && this.attempt == attempt && this.cap == cap
    {
      this.attempt, this.cap := attempt, cap;
      used, entries, poisoned := 0, map[], false;
    }

    /** `io` is whether every file operation succeeds. A failed one poisons the spool and cleans up. */
    method Store(stream: Stream, s: Sealed, io: bool) returns (r: Stored)
      requires Valid()
      modifies this`used, this`entries, this`poisoned
      ensures Valid()
      ensures old(poisoned) ==> r == StoreFailed(Poisoned)
      ensures !old(poisoned) && (s.attempt != attempt || s.stream != stream) ==> r == StoreFailed(Identity)
      ensures r == StoreFailed(Conflict) ==> NameOf(s) in old(entries)
      ensures !old(poisoned) && s.attempt == attempt && s.stream == stream && 0 < |s.bytes| <= MAX_SEGMENT_BYTES && NameOf(s) !in old(entries) ==>
                var full := |old(entries)| >= MAX_SPOOL_SEGMENTS || |s.bytes| > cap - old(used);
                r == if full then Saturated else if io then Stored(NameOf(s), |s.bytes|) else StoreFailed(Io)
      ensures r.Stored? ==> s.stream == stream && NameOf(s) !in old(entries) && entries == old(entries)[r.name := r.size]
                            && r.name == NameOf(s) && r.size == |s.bytes| && used == old(used) + r.size && !poisoned
      ensures !r.Stored? ==> entries == old(entries) && used == old(used)
      ensures poisoned == (old(poisoned) || r == StoreFailed(Io))
    {
      if poisoned {
        return StoreFailed(Poisoned);
      }
      if s.attempt != attempt || s.stream != stream {
        return StoreFailed(Identity);
      }
      if |s.bytes| == 0 || |s.bytes| > MAX_SEGMENT_BYTES {
        return StoreFailed(SpoolError.Invalid);
      }
      var name := NameOf(s);
      if name in entries {
        return StoreFailed(Conflict);
      }
      if |entries| >= MAX_SPOOL_SEGMENTS {
        return Saturated;
      }
      if |s.bytes| > cap - used {
        return Saturated;
      }
      if !io {
        poisoned := true;
        return StoreFailed(Io);
      }
      SumInsert(entries, name, |s.bytes|);
      used := used + |s.bytes|;
      entries := entries[name := |s.bytes|];
      return Stored(name, |s.bytes|);
    }

    /** `readable` is whether the entry's file passes inspection, `io` whether it is then unlinked durably. */
    method Remove(name: Name, size: nat, readable: bool, io: bool) returns (r: Option<SpoolError>)
      requires Valid()
      modifies this`used, this`entries, this`poisoned
      ensures Valid()
      ensures r.None? <==> !old(poisoned) && name in old(entries) && old(entries)[name] == size && readable && io
      ensures r.None? ==> entries == old(entries) - {name} && used == old(used) - size && !poisoned
      ensures r.Some? ==> entries == old(entries) && used == old(used)
    {
      if poisoned {
        return Some(Poisoned);
      }
      if name !in entries || entries[name] != size {
        return Some(Identity);
      }
      if !readable {
        return Some(Io);
      }
      if !io {
        poisoned := true;
        return Some(Io);
      }
      SumRemove(entries, name);
      used := used - size;
      entries := entries - {name};
      return None;
    }
  }
}
