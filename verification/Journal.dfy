/** The worker's evidence journal: every observation is written once and never revised. */
module Journal {
  import opened Base
  import opened Schema
  import opened Decisions

  datatype Exit = Exit(code: int, oom: bool)

  /** A completion request; `rest` stands for its outputs, gaps and metrics beyond their emptiness. */
  datatype Completion = Completion(
    authority: Authority, id: RequestId, exit: Option<int>, reason: Option<Reason>, stopped: bool,
    outputs: nat, logsComplete: bool, rest: nat)

  datatype Reply = Reply(decision: Decision, state: Option<AttemptState>)

  /** `assignment` stands for the assignment's fields beyond its authority. */
  datatype Record = Record(
    authority: Authority, assignment: nat, container: Option<ContainerId>, exit: Option<Exit>, phases: seq<PhaseReport>,
    completion: Option<Completion>, response: Option<Reply>,
    rejected: Option<Completion>, rejectedReply: Option<Reply>)

  datatype JournalError = Invalid | Conflict | Identity | Io

  datatype Saved<+T> = Done(value: T) | Refused(error: JournalError)

  // ------------------------------------------------------------------------ validity

  function ExitCode(r: Record): Option<int>
  {
    if r.exit.Some? then Some(r.exit.value.code) else None
  }

  predicate RequestOk(c: Completion)
  {
    && 1 <= c.authority.generation && (c.exit.Some? ==> 0 <= c.exit.value <= 255) && c.reason != Some(WorkerLost)
    && (c.reason.None? ==> c.exit == Some(0) && c.stopped)
    && (c.reason == Some(ApplicationExit) ==> c.exit.Some? && c.exit.value != 0)
  }

  function ExpectedState(c: Completion): AttemptState
  {
    if c.reason.None? then AttemptState.Succeeded
    else if c.reason == Some(UserCancelled) then AttemptState.Cancelled
    else AttemptState.Failed
  }

  /** validate_response of a completion. */
  predicate ReplyOk(c: Completion, r: Reply)
  {
    match r.decision
    case Accepted => r.state == Some(ExpectedState(c))
    case AlreadyTerminal => r.state.Some? && !IsActive(r.state.value)
    case Fenced => r.state.None? || IsActive(r.state.value)
    case StopRequested => r.state.Some? && IsActive(r.state.value)
  }

  /** A completion that may replace a refused one: stopped, cancelled, and claiming nothing. */
  predicate IsCancellation(c: Completion)
  {
    c.reason == Some(UserCancelled) && c.stopped && c.outputs == 0 && !c.logsComplete
  }

  predicate PhaseOk(r: Record, i: nat)
    requires i < |r.phases|
  {
    var p := r.phases[i];
    && PhaseReportWellFormed(p) && p.authority == r.authority
    && (i == 0 ==> p.phase.Starting?) && (i > 0 ==> PhaseOrder(r.phases[i - 1].phase) < PhaseOrder(p.phase))
    && (forall k :: 0 <= k < i ==> r.phases[k].event != p.event)
    && (!p.phase.Starting? ==> p.container == r.container)
    && (p.phase.Finalizing? ==> p.exit == ExitCode(r))
  }

  /** The protocol's numbering of the phases. */
  function PhaseOrder(s: AttemptState): int
  {
    match s
    case Assigned => 1
    case Starting => 2
    case Running => 3
    case Finalizing => 4
    case _ => 5
  }

  predicate RejectionOk(r: Record)
  {
    match (r.rejected, r.rejectedReply)
    case (None, None) => true
    case (Some(old'), Some(reply)) =>
      && RequestOk(old') && ReplyOk(old', reply) && old'.authority == r.authority && old'.exit == ExitCode(r)
      && old'.reason != Some(UserCancelled) && reply.decision.StopRequested?
      && r.completion.Some? && r.completion.value.authority == old'.authority && r.completion.value.id != old'.id
      && IsCancellation(r.completion.value) && r.completion.value.exit == ExitCode(r)
    case _ => false
  }

  predicate CompletionOk(r: Record)
  {
    && RejectionOk(r)
    && match r.completion
       case None => r.response.None?
       case Some(c) =>
         && RequestOk(c) && c.authority == r.authority && (c.exit.Some? ==> c.exit == ExitCode(r))
         && (c.reason.None? ==>
               |r.phases| > 0 && r.phases[|r.phases| - 1].phase.Finalizing? && r.exit == Some(Exit(0, false)))
         && (r.response.Some? ==> ReplyOk(c, r.response.value))
  }

  /** Record::validate, without the upload evidence. */
  predicate Valid(r: Record, id: AttemptId)
  {
    && r.authority.attempt == id && 1 <= r.authority.generation && |r.phases| <= 3
    && (r.container.Some? ==> r.phases != [])
    && (r.exit.Some? ==> r.container.Some? && 0 <= r.exit.value.code <= 255)
    && (forall i :: 0 <= i < |r.phases| ==> PhaseOk(r, i))
    && CompletionOk(r)
  }

  // ---------------------------------------------------------------------- operations

  /** `save`: only a valid record reaches the disk; `io` is whether the write succeeds. */
  function Save(r: Record, id: AttemptId, io: bool): Saved<Record>
  {
    if !Valid(r, id) then Refused(Invalid) else if !io then Refused(Io) else Done(r)
  }

  function Bound(r: Record, container: ContainerId, io: bool): Saved<Record>
  {
    if r.phases == [] then Refused(Conflict)
    else if r.container.Some? then if r.container == Some(container) then Done(r) else Refused(Conflict)
    else if r.completion.Some? then Refused(Conflict)
    else Save(r.(container := Some(container)), r.authority.attempt, io)
  }

  function Exited(r: Record, code: int, oom: bool, io: bool): Saved<Record>
  {
    if !(0 <= code <= 255) then Refused(Invalid)
    else if r.container.None? then Refused(Conflict)
    else if r.exit.Some? then if r.exit == Some(Exit(code, oom)) then Done(r) else Refused(Conflict)
    else Save(r.(exit := Some(Exit(code, oom))), r.authority.attempt, io)
  }

  /** The saved report of a phase, if there is one. */
  function Found(phases: seq<PhaseReport>, phase: AttemptState): Option<PhaseReport>
  {
    if phases == [] then None
    else if phases[0].phase == phase then Some(phases[0])
    else Found(phases[1..], phase)
  }

  function NewReport(r: Record, phase: AttemptState, event: RequestId): PhaseReport
  {
    PhaseReport(r.authority, event, phase, if phase.Starting? then None else r.container,
                if phase.Finalizing? then ExitCode(r) else None)
  }

  function Prepared(r: Record, phase: AttemptState, event: RequestId, io: bool): Saved<(Record, PhaseReport)>
  {
    var found := Found(r.phases, phase);
    if found.Some? then Done((r, found.value))
    else if r.completion.Some? then Refused(Conflict)
    else
      var allowed := match phase
        case Starting => Some(r.phases == [])
        case Running => Some(r.phases != [] && r.container.Some? && r.exit.None?)
        case Finalizing => Some(r.exit.Some?)
        case _ => None;
      if allowed.None? then Refused(Invalid)
      else if !allowed.value then Refused(Conflict)
      else
        var report := NewReport(r, phase, event);
        var saved := Save(r.(phases := r.phases + [report]), r.authority.attempt, io);
        if saved.Done? then Done((saved.value, report)) else Refused(saved.error)
  }

  function Persisted(r: Record, c: Completion, io: bool): Saved<Record>
  {
    if !RequestOk(c) then Refused(Invalid)
    else if c.authority != r.authority then Refused(Identity)
    else if r.completion.Some? then if r.completion == Some(c) then Done(r) else Refused(Conflict)
    else if c.exit != ExitCode(r) then Refused(Conflict)
    else if !CompletionOk(r.(completion := Some(c))) then Refused(Conflict)
    else Save(r.(completion := Some(c)), r.authority.attempt, io)
  }

  function Superseded(r: Record, c: Completion, io: bool): Saved<Record>
  {
    if !RequestOk(c) then Refused(Invalid)
    else if c.authority != r.authority || !IsCancellation(c) || c.exit != ExitCode(r) || r.rejected.Some? then Refused(Conflict)
    else if r.completion.None? || r.response.None? then Refused(Conflict)
    else
      var previous, reply := r.completion.value, r.response.value;
      if !reply.decision.StopRequested? || previous.reason == Some(UserCancelled) || previous.id == c.id then Refused(Conflict)
      else Save(r.(completion := Some(c), response := None, rejected := Some(previous), rejectedReply := Some(reply)),
                r.authority.attempt, io)
  }

  function Answered(r: Record, c: Completion, reply: Reply, io: bool): Saved<Record>
  {
    if r.completion != Some(c) then Refused(Conflict)
    else if !ReplyOk(c, reply) then Refused(Invalid)
    else if r.response == Some(reply) then Done(r)
    else if r.response.Some? && !(r.response.value.decision.StopRequested? && (reply.decision.Fenced? || reply.decision.AlreadyTerminal?))
    then Refused(Conflict)
    else Save(r.(response := Some(reply)), r.authority.attempt, io)
  }

  // ------------------------------------------------------------------- what is kept

  /** What a later record may differ in. */
  ghost predicate WrittenOnce(a: Record, b: Record)
  {
    && b.authority == a.authority && b.assignment == a.assignment
    && (a.container.Some? ==> b.container == a.container) && (a.exit.Some? ==> b.exit == a.exit) && a.phases <= b.phases
    // A saved completion closes the phases and the container.
    && (a.completion.Some? ==> b.completion.Some? && b.phases == a.phases && b.container == a.container)
    // A completion stays, or becomes the one refused completion on file.
    && (a.rejected.Some? ==> b.rejected == a.rejected && b.rejectedReply == a.rejectedReply && b.completion == a.completion)
    && (a.rejected.None? && a.completion.Some? ==>
          if b.rejected.None? then b.completion == a.completion else b.rejected == a.completion)
    // Any reply but a stop is final.
    && (a.response.Some? && !a.response.value.decision.StopRequested? ==>
          b.completion == a.completion && b.response == a.response && b.rejected == a.rejected)
  }

  lemma AllSame(records: map<AttemptId, Record>)
    ensures forall id :: id in records ==> WrittenOnce(records[id], records[id])
  {
  }

  lemma BoundWrites(r: Record, container: ContainerId, io: bool, id: AttemptId)
    requires Valid(r, id) && Bound(r, container, io).Done?
    ensures var d := Bound(r, container, io).value; WrittenOnce(r, d) && d.container == Some(container)
  {
    hide Valid;
  }

  lemma ExitedWrites(r: Record, code: int, oom: bool, io: bool, id: AttemptId)
    requires Valid(r, id) && Exited(r, code, oom, io).Done?
    ensures var d := Exited(r, code, oom, io).value; WrittenOnce(r, d) && d.exit == Some(Exit(code, oom)) && d.container.Some?
  {
    hide Valid;
  }

  lemma PersistedWrites(r: Record, c: Completion, io: bool, id: AttemptId)
    requires Valid(r, id) && Persisted(r, c, io).Done?
    ensures var d := Persisted(r, c, io).value;
            WrittenOnce(r, d) && d.completion == Some(c) && (r.completion.None? ==> c.exit == ExitCode(r) && d.response.None?)
  {
    assert CompletionOk(r);
    hide Valid;
    hide RejectionOk;
  }

  lemma SupersededWrites(r: Record, c: Completion, io: bool, id: AttemptId)
    requires Valid(r, id) && Superseded(r, c, io).Done?
    ensures var d := Superseded(r, c, io).value;
            && WrittenOnce(r, d) && d.completion == Some(c) && IsCancellation(c) && d.response.None? && r.rejected.None?
            && d.rejected == r.completion && d.rejectedReply == r.response && r.response.Some? && r.response.value.decision.StopRequested?
  {
    hide Valid;
  }

  lemma AnsweredWrites(r: Record, c: Completion, reply: Reply, io: bool, id: AttemptId)
    requires Valid(r, id) && Answered(r, c, reply, io).Done?
    ensures var d := Answered(r, c, reply, io).value;
            WrittenOnce(r, d) && d.completion == Some(c) && d.response == Some(reply) && ReplyOk(c, reply)
  {
    hide Valid;
  }

  lemma {:induction false} FoundIs(phases: seq<PhaseReport>, phase: AttemptState)
    ensures Found(phases, phase).Some? ==> Found(phases, phase).value in phases && Found(phases, phase).value.phase == phase
    ensures Found(phases, phase).None? ==> forall i :: 0 <= i < |phases| ==> phases[i].phase != phase
  {
    if phases != [] {
      FoundIs(phases[1..], phase);
      forall i | 0 < i < |phases| ensures phases[i] == phases[1..][i - 1] { }
    }
  }

  /** A valid record has at most one report of a phase. */
  lemma {:induction false} OnePerPhase(r: Record, id: AttemptId, i: nat, k: nat)
    requires Valid(r, id) && i < k < |r.phases|
    ensures PhaseOrder(r.phases[i].phase) < PhaseOrder(r.phases[k].phase)
    decreases k
  {
    assert PhaseOk(r, k);
    if i < k - 1 { OnePerPhase(r, id, i, k - 1); }
  }

  lemma OnlyReport(r: Record, id: AttemptId, p: PhaseReport)
    requires Valid(r, id) && p in r.phases
    ensures forall i :: 0 <= i < |r.phases| && r.phases[i].phase == p.phase ==> r.phases[i] == p
  {
    var k :| 0 <= k < |r.phases| && r.phases[k] == p;
    forall i | 0 <= i < |r.phases| && r.phases[i].phase == p.phase ensures r.phases[i] == p {
      if i < k { OnePerPhase(r, id, i, k); }
      if k < i { OnePerPhase(r, id, k, i); }
    }
  }

  lemma PreparedWrites(r: Record, phase: AttemptState, event: RequestId, io: bool, id: AttemptId)
    requires Valid(r, id) && Prepared(r, phase, event, io).Done?
    ensures var d, p := Prepared(r, phase, event, io).value.0, Prepared(r, phase, event, io).value.1;
            && Valid(d, id) && WrittenOnce(r, d) && p in d.phases && p.phase == phase
            && (forall i :: 0 <= i < |d.phases| && d.phases[i].phase == phase ==> d.phases[i] == p)
            && (p in r.phases ==> d == r) && (p !in r.phases ==> d.phases == r.phases + [p])
  {
    ValidIdentity(r, id);
    FoundIs(r.phases, phase);
    var d, p := Prepared(r, phase, event, io).value.0, Prepared(r, phase, event, io).value.1;
    OnlyReport(d, id, p);
    hide Valid;
  }

  /** Journal: records by attempt, replaced whole by each save. */
  class Journal {
    var records: map<AttemptId, Record>

    ghost predicate AllValid()
      reads this
    {
      forall id :: id in records ==> Valid(records[id], id)
    }

    constructor ()
      ensures AllValid() && records == map[]
    {
      records := map[];
    }

    method RecordAssignment(authority: Authority, assignment: nat, io: bool) returns (r: Saved<()>)
      requires AllValid()
      modifies this
      ensures AllValid() && forall id :: id in old(records) ==> id in records && records[id] == old(records)[id]
      ensures r.Done? ==> authority.attempt in records && records[authority.attempt].authority == authority
                          && records[authority.attempt].assignment == assignment
      ensures r.Refused? ==> records == old(records)
      // Stored once: the same assignment again is no change, a different one for the attempt is a conflict.
      ensures authority.attempt in old(records) && authority.generation >= 1 ==>
                records == old(records) && r == if old(records)[authority.attempt].authority == authority
                                                   && old(records)[authority.attempt].assignment == assignment then Done(()) else Refused(Conflict)
    {
      var record := Record(authority, assignment, None, None, [], None, None, None, None);
      if !Valid(record, authority.attempt) {
        return Refused(Invalid);
      }
      if authority.attempt in records {
        if records[authority.attempt].authority == authority && records[authority.attempt].assignment == assignment {
          return Done(());
        }
        return Refused(Conflict);
      }
      if !io {
        return Refused(Io);
      }
      records := records[authority.attempt := record];
      return Done(());
    }

    /** Loads a record, applies an operation's result and stores it again. */
    method Store(id: AttemptId, outcome: Saved<Record>) returns (r: Saved<()>)
      requires AllValid() && id in records && (outcome.Done? ==> Valid(outcome.value, id))
      modifies this
      ensures AllValid()
      ensures records == if outcome.Done? then old(records)[id := outcome.value] else old(records)
      ensures r == if outcome.Done? then Done(()) else Refused(outcome.error)
    {
      if outcome.Refused? {
        return Refused(outcome.error);
      }
      records := records[id := outcome.value];
      return Done(());
    }

    method BindContainer(id: AttemptId, container: ContainerId, io: bool) returns (r: Saved<()>)
      requires AllValid()
      modifies this
      ensures AllValid() && Changed(old(records), records, id)
      ensures id !in old(records) ==> r == Refused(Invalid)
      ensures id in old(records) ==> var o := Bound(old(records)[id], container, io);
                r.Done? == o.Done? && records == if o.Done? then old(records)[id := o.value] else old(records)
      ensures id in old(records) ==> WrittenOnce(old(records)[id], records[id])
      // Bound once: afterwards the container is this one, and another one is a conflict.
      ensures r.Done? ==> id in old(records) && records[id].container == Some(container)
      ensures id in old(records) && old(records)[id].container.Some? && old(records)[id].container != Some(container) ==> r == Refused(Conflict)
    {
      hide Valid;
      hide WrittenOnce;
      AllSame(records);
      if id !in records {
        return Refused(Invalid);
      }
      ValidIdentity(records[id], id);
      if Bound(records[id], container, io).Done? { BoundWrites(records[id], container, io, id); }
      r := Store(id, Bound(records[id], container, io));
    }

    method RecordExit(id: AttemptId, code: int, oom: bool, io: bool) returns (r: Saved<()>)
      requires AllValid()
      modifies this
      ensures AllValid() && Changed(old(records), records, id)
      ensures id !in old(records) ==> r.Refused?
      ensures id in old(records) ==> var o := Exited(old(records)[id], code, oom, io);
                r.Done? == o.Done? && records == if o.Done? then old(records)[id := o.value] else old(records)
      ensures id in old(records) ==> WrittenOnce(old(records)[id], records[id])
      // Recorded once, for a bound container: another exit is a conflict.
      ensures r.Done? ==> id in old(records) && records[id].exit == Some(Exit(code, oom)) && records[id].container.Some?
      ensures id in old(records) && 0 <= code <= 255 && old(records)[id].exit.Some? && old(records)[id].exit != Some(Exit(code, oom)) ==>
                r == Refused(Conflict)
    {
      hide Valid;
      hide WrittenOnce;
      AllSame(records);
      if !(0 <= code <= 255) {
        return Refused(Invalid);
      }
      if id !in records {
        return Refused(Invalid);
      }
      ValidIdentity(records[id], id);
      ExitNeedsContainer(records[id], id);
      if Exited(records[id], code, oom, io).Done? { ExitedWrites(records[id], code, oom, io, id); }
      r := Store(id, Exited(records[id], code, oom, io));
    }

    method PreparePhase(id: AttemptId, phase: AttemptState, event: RequestId, io: bool) returns (r: Saved<PhaseReport>)
      requires AllValid()
      modifies this
      ensures AllValid() && Changed(old(records), records, id)
      ensures id !in old(records) ==> r == Refused(Invalid)
      ensures id in old(records) ==> var o := Prepared(old(records)[id], phase, event, io);
                if o.Done? then r == Done(o.value.1) && records == old(records)[id := o.value.0] else r == Refused(o.error) && records == old(records)
      ensures id in old(records) ==> WrittenOnce(old(records)[id], records[id])
      // Reported once: the reply is the only report of its phase, and a saved one is replayed verbatim.
      ensures r.Done? ==> id in old(records) && r.value in records[id].phases && r.value.phase == phase
                          && forall i :: 0 <= i < |records[id].phases| && records[id].phases[i].phase == phase ==> records[id].phases[i] == r.value
      ensures r.Done? && r.value in old(records)[id].phases ==> records == old(records)
    {
      hide Valid;
      hide WrittenOnce;
      hide Prepared;
      AllSame(records);
      if id !in records {
        return Refused(Invalid);
      }
      var outcome := Prepared(records[id], phase, event, io);
      ValidIdentity(records[id], id);
      if outcome.Done? { PreparedWrites(records[id], phase, event, io, id); }
      if outcome.Refused? {
        return Refused(outcome.error);
      }
      records := records[id := outcome.value.0];
      return Done(outcome.value.1);
    }

    method PersistCompletion(c: Completion, io: bool) returns (r: Saved<()>)
      requires AllValid()
      modifies this
      ensures AllValid() && Changed(old(records), records, c.authority.attempt)
      ensures var id := c.authority.attempt;
              id in old(records) ==> var o := Persisted(old(records)[id], c, io);
                r.Done? == o.Done? && records == if o.Done? then old(records)[id := o.value] else old(records)
      // Stored once, with the exit observed; another one is a conflict.
      ensures var id := c.authority.attempt;
              && (id in old(records) ==> WrittenOnce(old(records)[id], records[id]))
              && (r.Done? ==> id in old(records) && records[id].completion == Some(c)
                              && (old(records)[id].completion.None? ==> c.exit == ExitCode(old(records)[id])))
              && ((id in old(records) && RequestOk(c) && c.authority == old(records)[id].authority
                   && old(records)[id].completion.Some? && old(records)[id].completion != Some(c)) ==> r == Refused(Conflict))
    {
      hide Valid;
      hide WrittenOnce;
      hide CompletionOk;
      AllSame(records);
      var id := c.authority.attempt;
      if !RequestOk(c) {
        return Refused(Invalid);
      }
      if id !in records {
        return Refused(Invalid);
      }
      ValidIdentity(records[id], id);
      if Persisted(records[id], c, io).Done? { PersistedWrites(records[id], c, io, id); }
      r := Store(id, Persisted(records[id], c, io));
    }

    method SupersedeRejectedCompletion(c: Completion, io: bool) returns (r: Saved<()>)
      requires AllValid()
      modifies this
      ensures AllValid() && Changed(old(records), records, c.authority.attempt)
      ensures var id := c.authority.attempt;
              id in old(records) ==> var o := Superseded(old(records)[id], c, io);
                r.Done? == o.Done? && records == if o.Done? then old(records)[id := o.value] else old(records)
      // Only a result the server answered with a stop gives way, once, and stays on file.
      ensures var id := c.authority.attempt;
              && (id in old(records) ==> WrittenOnce(old(records)[id], records[id]))
              && (r.Done? ==> && id in old(records) && records[id].completion == Some(c) && IsCancellation(c) && records[id].response.None?
                              && old(records)[id].rejected.None? && records[id].rejected == old(records)[id].completion
                              && records[id].rejectedReply == old(records)[id].response
                              && old(records)[id].response.Some? && old(records)[id].response.value.decision.StopRequested?)
    {
      hide Valid;
      hide WrittenOnce;
      AllSame(records);
      var id := c.authority.attempt;
      if !RequestOk(c) {
        return Refused(Invalid);
      }
      if id !in records {
        return Refused(Invalid);
      }
      ValidIdentity(records[id], id);
      if Superseded(records[id], c, io).Done? { SupersededWrites(records[id], c, io, id); }
      r := Store(id, Superseded(records[id], c, io));
    }

    method RecordCompletionResponse(c: Completion, reply: Reply, io: bool) returns (r: Saved<()>)
      requires AllValid()
      modifies this
      ensures AllValid() && Changed(old(records), records, c.authority.attempt)
      ensures var id := c.authority.attempt;
              id in old(records) ==> var o := Answered(old(records)[id], c, reply, io);
                r.Done? == o.Done? && records == if o.Done? then old(records)[id := o.value] else old(records)
      // A reply binds to the completion it answers; any but a stop is final.
      ensures var id := c.authority.attempt;
              && (id in old(records) ==> WrittenOnce(old(records)[id], records[id]))
              && (r.Done? ==> id in old(records) && records[id].completion == Some(c) && records[id].response == Some(reply) && ReplyOk(c, reply))
              && ((id in old(records) && old(records)[id].completion == Some(c) && ReplyOk(c, reply) && old(records)[id].response.Some?
                   && !old(records)[id].response.value.decision.StopRequested? && old(records)[id].response != Some(reply)) ==> r == Refused(Conflict))
    {
      hide Valid;
      hide WrittenOnce;
      AllSame(records);
      var id := c.authority.attempt;
      if id !in records {
        return Refused(Invalid);
      }
      ValidIdentity(records[id], id);
      if Answered(records[id], c, reply, io).Done? { AnsweredWrites(records[id], c, reply, io, id); }
      r := Store(id, Answered(records[id], c, reply, io));
    }
  }

  /** Records are never lost, and only `id` may differ. */
  ghost predicate Changed(a: map<AttemptId, Record>, b: map<AttemptId, Record>, id: AttemptId)
  {
    a.Keys == b.Keys && forall x :: x in a && x != id ==> b[x] == a[x]
  }

  lemma ExitNeedsContainer(r: Record, id: AttemptId)
    requires Valid(r, id)
    ensures r.exit.Some? ==> r.container.Some?
  {
  }

  lemma ValidIdentity(r: Record, id: AttemptId)
    requires Valid(r, id)
    ensures r.authority.attempt == id
  {
  }
}
