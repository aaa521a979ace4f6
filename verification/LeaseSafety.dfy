/** Lease exclusion end to end: the control plane, a network that delays, drops and repeats, and workers. */
module LeaseSafety {
  import opened Base
  import opened Schema
  import opened Transactions
  import opened Protocol
  import opened Evolution
  import opened Runs
  import opened LeaseWindow
  import opened AuthorityControl

  /** A reply on its way: what the wire says, when its request was sent on the worker's clock, and
      (for the proof only) the phase the attempt was in when the server answered. */
  datatype Reply = Reply(result: LeaseResult, sent: MonoTime, opens: bool, since: AttemptState)

  /** A worker's controller, with the phase in which its present window was granted. */
  datatype Control = Control(state: AuthorityState, since: AttemptState)

  datatype System = System(db: Db, sends: set<MonoTime>, replies: set<Reply>, controls: map<Authority, Control>)

  datatype Move =
    | Server(act: Action)
    | Send
    | Serve(act: Action, sent: MonoTime)
    | Deliver(reply: Reply)
    | Halt(authority: Authority, reason: StopReason)

  /** Both clocks run at the same rate: the worker's reads `skew` more than the server's. */
  predicate OnWorker(db: Db, skew: int)
  {
    0 <= db.clock + skew <= MAX_MONO
  }

  /** What a renewal or acquisition puts on the wire. */
  ghost function Results(db: Db, act: Action): set<LeaseResult>
  {
    match act
    case DoRenew(c) =>
      var r := Renew(db, c).reply;
      if r.Ok? && forall g :: g in r.value ==> OnWire(g) then set g | g in r.value :: WireResult(g) else {}
    case DoAcquire(c) =>
      var r := Acquire(db, c).reply;
      if r.Ok? && r.value.Assignment? then {WireAssignment(r.value.authority, r.value.lease, r.value.phase, r.value.serverTime)} else {}
    case _ => {}
  }

  function PhaseIn(d: Db, x: AttemptId): AttemptState
  {
    if x in d.attempts then d.attempts[x].state else Lost
  }

  ghost function Replies(db: Db, act: Action, d: Db, sent: MonoTime): set<Reply>
  {
    set r | r in Results(db, act) :: Reply(r, sent, act.DoAcquire?, PhaseIn(d, r.authority.attempt))
  }

  /** decode_renewals and the controller: a window, a stop, or no change when the reply is malformed. */
  function Delivered(controls: map<Authority, Control>, r: Reply, now: MonoTime): map<Authority, Control>
  {
    var a := r.result.authority;
    var grant := FromGrant(r.sent, now, r.result.remainingMs, r.result.phaseRemainingMs);
    if a !in controls then
      if r.opens && r.result.decision.Accepted? && grant.Good? && IsLive(Live(grant.value), Some(now))
      then controls[a := Control(Live(grant.value), r.since)] else controls
    else if r.opens then controls
    else
      var c := controls[a];
      if !r.result.decision.Accepted? then controls[a := c.(state := Updated(c.state, Stopped(ByServer(r.result.decision)), Some(now)))]
      else if grant.Good? then
        var s := Updated(c.state, Live(grant.value), Some(now));
        controls[a := Control(s, if s == Live(grant.value) then r.since else c.since)]
      else if grant.error.Expired? then controls[a := c.(state := Updated(c.state, Stopped(AuthorityExpired), Some(now)))]
      else controls
  }

  ghost predicate Moves(skew: int, s: System, m: Move, t: System)
  {
    match m
    case Server(act) => Next(s.db, act, t.db) && OnWorker(t.db, skew) && t == s.(db := t.db)
    case Send => OnWorker(s.db, skew) && t == s.(sends := s.sends + {s.db.clock + skew})
    // A request is served after it was sent, possibly again and again; its reply may never be delivered.
    case Serve(act, sent) =>
      && sent in s.sends && Next(s.db, act, t.db) && OnWorker(t.db, skew)
      && t == s.(db := t.db, replies := s.replies + Replies(s.db, act, t.db, sent))
    case Deliver(r) =>
      r in s.replies && OnWorker(s.db, skew) && t == s.(controls := Delivered(s.controls, r, s.db.clock + skew))
    case Halt(a, reason) =>
      && a in s.controls && OnWorker(s.db, skew)
      && t == s.(controls := s.controls[a := s.controls[a].(state := Updated(s.controls[a].state, Stopped(reason), Some(s.db.clock + skew)))])
  }

  // --------------------------------------------------------------------- invariant

  /** Authority that reaches `until` on the worker's clock, with the margin to come, is covered by the
      stored lease, and by the phase deadline while the attempt stays in the phase of the grant. */
  ghost predicate Covered(skew: int, db: Db, a: Authority, lease: int, phase: int, since: AttemptState)
  {
    && a.attempt in db.attempts && AuthorityOf(a.attempt, db.attempts[a.attempt]) == a
    && lease <= db.attempts[a.attempt].lease + skew
    && PhaseRank(since) <= PhaseRank(db.attempts[a.attempt].state)
    && (PhaseRank(since) == PhaseRank(db.attempts[a.attempt].state) ==> phase <= db.attempts[a.attempt].phase + skew)
  }

  ghost predicate ReplyOk(skew: int, db: Db, r: Reply)
  {
    r.result.decision.Accepted? ==>
      Covered(skew, db, r.result.authority, r.sent + r.result.remainingMs * MILLISECOND,
              r.sent + r.result.phaseRemainingMs * MILLISECOND, r.since)
  }

  ghost predicate ControlOk(skew: int, db: Db, a: Authority, c: Control)
  {
    c.state.Live? ==> Covered(skew, db, a, c.state.window.deadline + MARGIN, c.state.window.deadline, c.since)
  }

  ghost predicate Safe(skew: int, s: System)
  {
    && Inv(s.db)
    && (forall t {:trigger t in s.sends} :: t in s.sends ==> t <= s.db.clock + skew)
    && (forall r {:trigger r in s.replies} :: r in s.replies ==> ReplyOk(skew, s.db, r))
    && (forall a {:trigger s.controls[a]} :: a in s.controls ==> ControlOk(skew, s.db, a, s.controls[a]))
  }

  lemma CoverKept(skew: int, db: Db, d: Db, a: Authority, lease: int, phase: int, since: AttemptState)
    requires Covered(skew, db, a, lease, phase, since) && Evolves(db, d)
    ensures Covered(skew, d, a, lease, phase, since)
  {
    assert AttemptEvolves(db, d, a.attempt);
  }

  lemma ServerKeepsSafe(skew: int, s: System, act: Action, t: System)
    requires Safe(skew, s) && Next(s.db, act, t.db) && t == s.(db := t.db)
    ensures Safe(skew, t)
  {
    ActionKeepsInv(s.db, act, t.db);
    forall r | r in t.replies ensures ReplyOk(skew, t.db, r) {
      if r.result.decision.Accepted? {
        CoverKept(skew, s.db, t.db, r.result.authority, r.sent + r.result.remainingMs * MILLISECOND,
                  r.sent + r.result.phaseRemainingMs * MILLISECOND, r.since);
      }
    }
    forall a | a in t.controls ensures ControlOk(skew, t.db, a, t.controls[a]) {
      var c := s.controls[a];
      if c.state.Live? { CoverKept(skew, s.db, t.db, a, c.state.window.deadline + MARGIN, c.state.window.deadline, c.since); }
    }
  }

  // ------------------------------------------------------------------- new replies

  /** A grant whose deadlines the rows `d` honour. */
  ghost predicate Honoured(d: Db, a: Authority, lease: Time, phase: Time)
  {
    && a.attempt in d.attempts && AuthorityOf(a.attempt, d.attempts[a.attempt]) == a
    && lease <= d.attempts[a.attempt].lease && phase <= d.attempts[a.attempt].phase
  }

  lemma HonouredOnWire(skew: int, d: Db, g: LeaseGrant, sent: MonoTime, r: Reply)
    requires OnWire(g) && r.result == WireResult(g) && r.sent == sent && sent <= g.serverTime + skew
    requires g.decision.Accepted? ==> Honoured(d, g.authority, g.lease.value, g.phase.value)
    requires r.since == PhaseIn(d, g.authority.attempt)
    ensures ReplyOk(skew, d, r)
  {
    if r.result.decision.Accepted? {
      FloorsDown(g.lease.value - g.serverTime);
      FloorsDown(g.phase.value - g.serverTime);
    }
  }

  lemma FreshHonoured(db: Db, c: RenewCall, d: Db, m: Authority)
    requires RenewalWellFormed(c) && d == Renewed(db, c) && m in c.members
    ensures FreshGrant(db, m, c.now).serverTime == c.now && FreshGrant(db, m, c.now).authority == m
    ensures FreshGrant(db, m, c.now).decision.Accepted? ==>
              Honoured(d, m, FreshGrant(db, m, c.now).lease.value, FreshGrant(db, m, c.now).phase.value)
  {
  }

  lemma ReplayHonoured(db: Db, m: Authority, prior: LeaseGrant, now: Time)
    ensures var g := ReplayGrant(db, m, prior, now);
            && g.serverTime == now && g.authority == m
            && (g.decision.Accepted? ==> g.lease.Some? && g.phase.Some? && Honoured(db, m, g.lease.value, g.phase.value))
  {
  }

  lemma RenewHonoured(db: Db, c: RenewCall, d: Db, g: LeaseGrant)
    requires d == Renew(db, c).db && Renew(db, c).reply.Ok? && g in Renew(db, c).reply.value
    ensures g.serverTime == c.now
    ensures g.decision.Accepted? ==> g.lease.Some? && g.phase.Some? && Honoured(d, g.authority, g.lease.value, g.phase.value)
  {
    var key := RequestKey(c.worker, c.session, c.request);
    var i :| 0 <= i < |c.members| && g == Renew(db, c).reply.value[i];
    if key in db.renewals {
      ReplayHonoured(db, c.members[i], db.renewals[key].grants[c.members[i].attempt], c.now);
    } else {
      FreshHonoured(db, c, d, c.members[i]);
    }
  }

  lemma AcquireHonoured(db: Db, c: AcquireCall, d: Db)
    requires d == Acquire(db, c).db && Acquire(db, c).reply.Ok? && Acquire(db, c).reply.value.Assignment?
    ensures var r := Acquire(db, c).reply.value;
            Honoured(d, r.authority, r.lease, r.phase) && r.serverTime == c.now
  {
    hide AcquireReason;
    hide ValidSpec;
    hide CurrentSession;
  }

  /** The clock part of a transaction does not touch what a reply promised. */
  lemma HonouredClock(d: Db, e: Db, a: Authority, lease: Time, phase: Time)
    requires e == d.(clock := e.clock) && Honoured(d, a, lease, phase)
    ensures Honoured(e, a, lease, phase)
  {
  }

  lemma RenewReplyOk(skew: int, db: Db, c: RenewCall, d: Db, sent: MonoTime, r: Reply)
    requires Next(db, DoRenew(c), d) && sent <= db.clock + skew && r in Replies(db, DoRenew(c), d, sent)
    ensures ReplyOk(skew, d, r)
  {
    hide Renew;
    var grants := Renew(db, c).reply.value;
    var g :| g in grants && r.result == WireResult(g);
    var mid := Renew(db, c).db;
    RenewHonoured(db, c, mid, g);
    if g.decision.Accepted? { HonouredClock(mid, d, g.authority, g.lease.value, g.phase.value); }
    HonouredOnWire(skew, d, g, sent, r);
  }

  lemma AcquireReplyOk(skew: int, db: Db, c: AcquireCall, d: Db, sent: MonoTime, r: Reply)
    requires Next(db, DoAcquire(c), d) && sent <= db.clock + skew && r in Replies(db, DoAcquire(c), d, sent)
    ensures ReplyOk(skew, d, r)
  {
    hide Acquire;
    var mid := Acquire(db, c).db;
    AcquireHonoured(db, c, mid);
    var a := Acquire(db, c).reply.value;
    HonouredClock(mid, d, a.authority, a.lease, a.phase);
    FloorsDown(a.lease - a.serverTime);
    FloorsDown(a.phase - a.serverTime);
  }

  lemma ServeKeepsSafe(skew: int, s: System, act: Action, sent: MonoTime, mid: System, t: System)
    requires Safe(skew, s) && sent in s.sends && Next(s.db, act, t.db) && mid == s.(db := t.db)
    requires t == mid.(replies := s.replies + Replies(s.db, act, t.db, sent))
    ensures Safe(skew, t)
  {
    ServerKeepsSafe(skew, s, act, mid);
    forall r | r in t.replies ensures ReplyOk(skew, t.db, r) {
      if r in mid.replies {
        assert ReplyOk(skew, mid.db, r);
      } else if act.DoRenew? {
        RenewReplyOk(skew, s.db, act.renew, t.db, sent, r);
      } else {
        AcquireReplyOk(skew, s.db, act.acquire, t.db, sent, r);
      }
    }
    forall a | a in t.controls ensures ControlOk(skew, t.db, a, t.controls[a]) { assert ControlOk(skew, mid.db, a, mid.controls[a]); }
  }

  // ------------------------------------------------------------------ the worker side

  lemma WindowCovered(skew: int, db: Db, r: Reply, now: MonoTime)
    requires ReplyOk(skew, db, r) && r.result.decision.Accepted?
    requires FromGrant(r.sent, now, r.result.remainingMs, r.result.phaseRemainingMs).Good?
    ensures ControlOk(skew, db, r.result.authority, Control(Live(FromGrant(r.sent, now, r.result.remainingMs, r.result.phaseRemainingMs).value), r.since))
  {
  }

  lemma DeliverKeepsSafe(skew: int, s: System, r: Reply, t: System)
    requires Safe(skew, s) && Moves(skew, s, Deliver(r), t)
    ensures Safe(skew, t)
  {
    var now: MonoTime := s.db.clock + skew;
    assert ReplyOk(skew, s.db, r);
    if r.result.decision.Accepted? && FromGrant(r.sent, now, r.result.remainingMs, r.result.phaseRemainingMs).Good? {
      WindowCovered(skew, s.db, r, now);
    }
    forall a | a in t.controls ensures ControlOk(skew, t.db, a, t.controls[a]) {
      if a in s.controls { assert ControlOk(skew, s.db, a, s.controls[a]); }
    }
  }

  lemma MoveKeepsSafe(skew: int, s: System, m: Move, t: System)
    requires Safe(skew, s) && Moves(skew, s, m, t)
    ensures Safe(skew, t)
  {
    match m {
      case Server(act) => ServerKeepsSafe(skew, s, act, t);
      case Send =>
      case Serve(act, sent) => ServeKeepsSafe(skew, s, act, sent, s.(db := t.db), t);
      case Deliver(r) => DeliverKeepsSafe(skew, s, r, t);
      case Halt(a, reason) =>
        forall b | b in t.controls ensures ControlOk(skew, t.db, b, t.controls[b]) { assert ControlOk(skew, s.db, b, s.controls[b]); }
    }
  }

  // ------------------------------------------------------------------------ system runs

  ghost predicate SystemRun(skew: int, run: seq<System>, moves: seq<Move>)
  {
    && |run| == |moves| + 1 && Init(run[0].db) && run[0].sends == {} && run[0].replies == {} && run[0].controls == map[]
    && forall i {:trigger moves[i]} :: 0 <= i < |moves| ==> Moves(skew, run[i], moves[i], run[i + 1])
  }

  lemma {:induction false} SystemSafe(skew: int, run: seq<System>, moves: seq<Move>, i: nat)
    requires SystemRun(skew, run, moves) && i < |run|
    ensures Safe(skew, run[i])
    decreases i
  {
    if i == 0 {
      InitInv(run[0].db);
    } else {
      SystemSafe(skew, run, moves, i - 1);
      var m := moves[i - 1];
      MoveKeepsSafe(skew, run[i - 1], m, run[i]);
    }
  }

  /** While a worker believes it has authority, the stored lease ends more than five seconds later; and
      if the attempt is still in the phase of that grant, its phase deadline has not come either. */
  lemma LeaseExclusion(skew: int, run: seq<System>, moves: seq<Move>, i: nat, a: Authority, now: MonoTime)
    requires SystemRun(skew, run, moves) && i < |run| && a in run[i].controls && IsLive(run[i].controls[a].state, Some(now))
    ensures var db := run[i].db;
            && a.attempt in db.attempts && AuthorityOf(a.attempt, db.attempts[a.attempt]) == a
            && now + MARGIN < db.attempts[a.attempt].lease + skew
            && (PhaseRank(run[i].controls[a].since) == PhaseRank(db.attempts[a.attempt].state) ==>
                  now < db.attempts[a.attempt].phase + skew)
  {
    SystemSafe(skew, run, moves, i);
    assert ControlOk(skew, run[i].db, a, run[i].controls[a]);
  }
}
