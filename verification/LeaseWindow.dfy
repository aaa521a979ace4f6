/** A grant's journey: floored to whole milliseconds by the server, shrunk to a window by the worker. */
module LeaseWindow {
  import opened Base
  import opened Schema
  import opened Decisions
  import opened Transactions

  // ------------------------------------------------------------- the server's reply

  datatype LeaseResult = LeaseResult(authority: Authority, decision: Decision, remainingMs: nat, phaseRemainingMs: nat)

  /** Go's Duration.Milliseconds truncates toward zero. */
  function Milliseconds(d: int): int
  {
    if d >= 0 then d / MILLISECOND else -((-d) / MILLISECOND)
  }

  predicate OnWire(g: LeaseGrant)
  {
    && 1 <= g.authority.generation
    && (g.decision.Accepted? ==> g.lease.Some? && g.phase.Some? && g.lease.value - g.serverTime <= INITIAL_LEASE)
  }

  /** One grant of leaseResponse. */
  function WireResult(g: LeaseGrant): LeaseResult
    requires OnWire(g)
  {
    if !g.decision.Accepted? then LeaseResult(g.authority, g.decision, 0, 0)
    else
      var lease, phase := Milliseconds(g.lease.value - g.serverTime), Milliseconds(g.phase.value - g.serverTime);
      if lease <= 0 then LeaseResult(g.authority, Fenced, 0, 0)
      else if phase <= 0 then LeaseResult(g.authority, StopRequested, 0, 0)
      else LeaseResult(g.authority, Accepted, lease, phase)
  }

  /** leaseResponse: all grants in order, or an error when one is out of bounds. */
  method LeaseResponse(grants: seq<LeaseGrant>) returns (r: Result<seq<LeaseResult>>)
    ensures r.Ok? <==> 1 <= |grants| <= 64 && forall i :: 0 <= i < |grants| ==> OnWire(grants[i])
    ensures r.Ok? ==> |r.value| == |grants| && forall i :: 0 <= i < |grants| ==> r.value[i] == WireResult(grants[i])
  {
    if |grants| < 1 || |grants| > 64 {
      return Err(ErrInternal);
    }
    var results := [];
    for i := 0 to |grants|
      invariant |results| == i
      invariant forall k :: 0 <= k < i ==> OnWire(grants[k]) && results[k] == WireResult(grants[k])
    {
      if !OnWire(grants[i]) {
        return Err(ErrInternal);
      }
      results := results + [WireResult(grants[i])];
    }
    return Ok(results);
  }

  /** acquisitionResponse: an assignment whose deadlines floor to nothing is a rejection. */
  function WireAssignment(authority: Authority, lease: Time, phase: Time, serverTime: Time): LeaseResult
  {
    var l, p := Milliseconds(lease - serverTime), Milliseconds(phase - serverTime);
    if l <= 0 then LeaseResult(authority, Fenced, 0, 0)
    else if p <= 0 then LeaseResult(authority, StopRequested, 0, 0)
    else LeaseResult(authority, Accepted, l, p)
  }

  /** Flooring gives time away by less than a millisecond and never invents any. */
  lemma FloorsDown(d: int)
    ensures Milliseconds(d) > 0 ==> Milliseconds(d) * MILLISECOND <= d < (Milliseconds(d) + 1) * MILLISECOND
    ensures d < MILLISECOND ==> Milliseconds(d) <= 0
  {
  }

  /** Grants that the store produces are always encodable, and an accepted one is refused on the wire
      exactly when less than a millisecond of lease or of phase is left. */
  lemma BoundedGrantsEncode(g: LeaseGrant)
    requires GrantBounded(g) && 1 <= g.authority.generation
    ensures OnWire(g)
    ensures WireResult(g).decision.Accepted? <==>
              g.decision.Accepted? && g.lease.value - g.serverTime >= MILLISECOND && g.phase.value - g.serverTime >= MILLISECOND
  {
  }

  // ------------------------------------------------------------- the worker's window

  /** Nanoseconds on the worker's boot clock, as far as a Duration reaches. */
  const MAX_MONO: int := 0x1_0000_0000_0000_0000 * SECOND - 1
  type MonoTime = t: int | 0 <= t <= MAX_MONO

  const LEASE_MARGIN_MS := 5_000
  const MARGIN: Time := LEASE_MARGIN_MS * MILLISECOND

  datatype LeaseError = Invalid | Clock | Expired

  datatype Outcome<+T> = Good(value: T) | Bad(error: LeaseError)

  datatype Window = Window(sent: MonoTime, deadline: MonoTime)

  function RemainingAt(w: Window, now: MonoTime): Outcome<int>
  {
    if now < w.sent then Bad(Clock) else if now >= w.deadline then Bad(Expired) else Good(w.deadline - now)
  }

  /** AuthorityWindow::from_grant. */
  function FromGrant(sent: MonoTime, received: MonoTime, leaseMs: nat, phaseMs: nat): Outcome<Window>
  {
    if received < sent then Bad(Clock)
    else if leaseMs == 0 || leaseMs > 30_000 || phaseMs == 0 || phaseMs > 604_800_000 then Bad(Invalid)
    else if leaseMs < LEASE_MARGIN_MS then Bad(Expired)
    else
      var deadline := sent + Min(leaseMs - LEASE_MARGIN_MS, phaseMs) * MILLISECOND;
      if deadline > MAX_MONO then Bad(Invalid)
      else if received >= deadline then Bad(Expired)
      else Good(Window(sent, deadline))
  }

  /** A window opens exactly when the reply arrives with time left after the margin; it starts at the
      send and is live exactly until its deadline, however late the reply arrived. */
  lemma WindowMeaning(sent: MonoTime, received: MonoTime, leaseMs: nat, phaseMs: nat, now: MonoTime)
    ensures FromGrant(sent, received, leaseMs, phaseMs).Good? <==>
              && sent <= received && leaseMs <= 30_000 && phaseMs <= 604_800_000
              && received + MARGIN < sent + leaseMs * MILLISECOND && received < sent + phaseMs * MILLISECOND
              && (sent + leaseMs * MILLISECOND - MARGIN <= MAX_MONO || sent + phaseMs * MILLISECOND <= MAX_MONO)
    ensures FromGrant(sent, received, leaseMs, phaseMs).Good? ==>
              var w := FromGrant(sent, received, leaseMs, phaseMs).value;
              RemainingAt(w, now).Good? <==>
                sent <= now && now + MARGIN < sent + leaseMs * MILLISECOND && now < sent + phaseMs * MILLISECOND
  {
  }

  /** PhaseDeadline::at: a bound that starts before the phase report is sent. */
  function PhaseDeadlineAt(sent: MonoTime, seconds: nat): Outcome<Window>
  {
    if !(1 <= seconds <= 604_800) || sent + seconds * SECOND > MAX_MONO then Bad(Invalid)
    else Good(Window(sent, sent + seconds * SECOND))
  }

  /** Later replies to the same request never give a longer window. */
  lemma DelayNeverHelps(sent: MonoTime, early: MonoTime, late: MonoTime, leaseMs: nat, phaseMs: nat)
    requires early <= late && FromGrant(sent, late, leaseMs, phaseMs).Good?
    ensures early < sent || FromGrant(sent, early, leaseMs, phaseMs) == FromGrant(sent, late, leaseMs, phaseMs)
  {
  }

  // ---------------------------------------------------------- graceful termination

  const CLEANUP_BUDGET: int := 5 * SECOND

  /** terminate_requested: the grace given to a container that is asked to stop. */
  function TerminationGrace(requested: nat, remaining: nat): (grace: nat)
    ensures grace <= requested && grace <= 300
  {
    var available := Max(0, remaining - CLEANUP_BUDGET * 3);
    Min(requested, Min(available / SECOND, 300))
  }

  /** Grace, the daemon call around it and the forced path after it all end before local authority does,
      and no longer grace within the request and the cap would leave that room. */
  lemma GraceFits(requested: nat, remaining: nat)
    ensures var grace := TerminationGrace(requested, remaining);
            grace > 0 ==> (grace * SECOND + CLEANUP_BUDGET) + CLEANUP_BUDGET + CLEANUP_BUDGET <= remaining
    ensures forall g: nat :: TerminationGrace(requested, remaining) < g <= Min(requested, 300) ==>
              g * SECOND + CLEANUP_BUDGET * 3 > remaining
  {
    forall g: nat | TerminationGrace(requested, remaining) < g <= Min(requested, 300)
      ensures g * SECOND + CLEANUP_BUDGET * 3 > remaining
    {
    }
  }
}
