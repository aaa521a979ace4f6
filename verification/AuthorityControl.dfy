/** The worker's authority over one attempt: shared by every clone of the controller, and live only once. */
module AuthorityControl {
  import opened Base
  import opened Schema
  import opened LeaseWindow

  datatype StopReason = AuthorityExpired | ByServer(decision: Decision) | ControllerLost | RenewalFailed | RuntimeUnavailable

  datatype AuthorityState = Live(window: Window) | Stopped(reason: StopReason)

  datatype UpdateError = Identity | InvalidDecision | ExpiredGrant

  datatype Update<+T> = Done(value: T) | Refused(error: UpdateError)

  /** A reading of the boot clock; the call itself can fail. */
  type Reading = Option<MonoTime>

  predicate IsLive(s: AuthorityState, now: Reading)
  {
    s.Live? && now.Some? && RemainingAt(s.window, now.value).Good?
  }

  /** The new shared state when an update that names the right attempt arrives. */
  function Updated(current: AuthorityState, next: AuthorityState, now: Reading): AuthorityState
  {
    if current.Stopped? then current
    else if !IsLive(current, now) || (next.Live? && !IsLive(next, now)) then Stopped(AuthorityExpired)
    else next
  }

  datatype Renewal = Extended(identity: Authority, window: Window) | Denied(identity: Authority, decision: Decision) | Late(identity: Authority)

  /** What an accepted or refused renewal asks of the state; an acceptance without a window is no outcome. */
  function Demand(r: Renewal): Option<AuthorityState>
  {
    match r
    case Extended(_, window) => Some(Live(window))
    case Late(_) => Some(Stopped(AuthorityExpired))
    case Denied(_, decision) => if decision.Accepted? then None else Some(Stopped(ByServer(decision)))
  }

  /** AuthorityController: clones share the watch channel, so they share this object. */
  class AuthorityController {
    const identity: Authority
    var state: AuthorityState

    /** The state a new channel starts in. */
    constructor (identity: Authority, window: Window)
      ensures this.identity == identity && state == Live(window)
    {
      this.identity := identity;
      state := Live(window);
    }

    method Update(who: Authority, next: AuthorityState, now: Reading) returns (r: Update<()>)
      modifies this`state
      ensures who != identity ==> r == Refused(Identity) && state == old(state)
      ensures who == identity ==> r == Done(()) && state == Updated(old(state), next, now)
    {
      if who != identity {
        return Refused(Identity);
      }
      if !state.Stopped? {
        if !IsLive(state, now) || (next.Live? && !IsLive(next, now)) {
          state := Stopped(AuthorityExpired);
        } else {
          state := next;
        }
      }
      return Done(());
    }

    method Halt(reason: StopReason, now: Reading)
      modifies this`state
      ensures state == Updated(old(state), Stopped(reason), now) && state.Stopped?
    {
      var _ := Update(identity, Stopped(reason), now);
    }

    method Apply(outcome: Renewal, now: Reading) returns (r: Update<()>)
      modifies this`state
      ensures Demand(outcome).None? ==> r == Refused(InvalidDecision) && state == old(state)
      ensures Demand(outcome).Some? && outcome.identity != identity ==> r == Refused(Identity) && state == old(state)
      ensures Demand(outcome).Some? && outcome.identity == identity ==>
                r == Done(()) && state == Updated(old(state), Demand(outcome).value, now)
    {
      match outcome {
        case Extended(who, window) => r := Update(who, Live(window), now);
        case Late(who) => r := Update(who, Stopped(AuthorityExpired), now);
        case Denied(who, decision) =>
          if decision.Accepted? {
            return Refused(InvalidDecision);
          }
          r := Update(who, Stopped(ByServer(decision)), now);
      }
    }
  }

  /** Generations are positive 63-bit numbers on the wire. */
  const MAX_GENERATION := 0x7fff_ffff_ffff_ffff

  method OpenChannel(identity: Authority, window: Window, now: Reading) returns (r: Update<AuthorityController>)
    ensures r.Done? <==> 1 <= identity.generation <= MAX_GENERATION && IsLive(Live(window), now)
    ensures r.Done? ==> fresh(r.value) && r.value.identity == identity && r.value.state == Live(window)
  {
    if identity.generation < 1 || identity.generation > MAX_GENERATION {
      return Refused(Identity);
    }
    if !IsLive(Live(window), now) {
      return Refused(ExpiredGrant);
    }
    var c := new AuthorityController(identity, window);
    return Done(c);
  }

  // --------------------------------------------------------------------- histories

  /** An update by any clone: who it claims to be for, what it asks, and the clock it read. */
  datatype Event = Event(who: Authority, next: AuthorityState, now: Reading)

  /** The state after the first `n` updates. */
  function StateAfter(identity: Authority, start: AuthorityState, events: seq<Event>, n: nat): AuthorityState
    requires n <= |events|
  {
    if n == 0 then start
    else
      var before, e := StateAfter(identity, start, events, n - 1), events[n - 1];
      if e.who == identity then Updated(before, e.next, e.now) else before
  }

  /** Readings never run backwards, and none is earlier than the opening of the channel. */
  ghost predicate Ordered(opened': MonoTime, events: seq<Event>)
  {
    && (forall i :: 0 <= i < |events| && events[i].now.Some? ==> opened' <= events[i].now.value)
    && (forall i, k :: 0 <= i < k < |events| && events[i].now.Some? && events[k].now.Some? ==> events[i].now.value <= events[k].now.value)
  }

  /** The updates in an attempt's own name. */
  function Own(identity: Authority, events: seq<Event>): seq<Event>
  {
    if events == [] then []
    else
      var before, e := Own(identity, events[..|events| - 1]), events[|events| - 1];
      if e.who == identity then before + [e] else before
  }

  lemma {:induction false} StateAfterPrefix(identity: Authority, start: AuthorityState, a: seq<Event>, b: seq<Event>, n: nat)
    requires n <= |a| && n <= |b| && a[..n] == b[..n]
    ensures StateAfter(identity, start, a, n) == StateAfter(identity, start, b, n)
  {
    if n > 0 {
      assert a[..n][n - 1] == b[..n][n - 1] && a[..n][..n - 1] == a[..n - 1] && b[..n][..n - 1] == b[..n - 1];
      StateAfterPrefix(identity, start, a, b, n - 1);
    }
  }

  /** Updates in the name of other attempts leave no trace: what remains is the history of one's own. */
  lemma {:induction false} ForeignUpdatesIgnored(identity: Authority, start: AuthorityState, events: seq<Event>)
    ensures StateAfter(identity, start, events, |events|) == StateAfter(identity, start, Own(identity, events), |Own(identity, events)|)
  {
    if events != [] {
      var n := |events| - 1;
      var before, all := Own(identity, events[..n]), Own(identity, events);
      ForeignUpdatesIgnored(identity, start, events[..n]);
      StateAfterPrefix(identity, start, events, events[..n], n);
      if events[n].who == identity { StateAfterPrefix(identity, start, all, before, |before|); }
    }
  }

  /** A stop is final. */
  lemma {:induction false} StopIsFinal(identity: Authority, start: AuthorityState, events: seq<Event>, i: nat, k: nat)
    requires i <= k <= |events| && StateAfter(identity, start, events, i).Stopped?
    ensures StateAfter(identity, start, events, k) == StateAfter(identity, start, events, i)
  {
    if i < k { StopIsFinal(identity, start, events, i, k - 1); }
  }

  /** A live state's window began before it was installed. */
  lemma {:induction false} WindowHasBegun(identity: Authority, start: AuthorityState, events: seq<Event>, n: nat, opened': MonoTime, now: MonoTime)
    requires n <= |events| && IsLive(start, Some(opened')) && opened' <= now
    requires forall i :: 0 <= i < n && events[i].now.Some? ==> events[i].now.value <= now
    ensures StateAfter(identity, start, events, n).Live? ==> StateAfter(identity, start, events, n).window.sent <= now
  {
    if n > 0 {
      WindowHasBegun(identity, start, events, n - 1, opened', now);
    }
  }

  /** Once the state is stopped or its window is over, it is never live again, whatever any clone does:
      `early` is a moment after the first `i` updates at which it is not live, `late` any later moment. */
  lemma {:induction false} LiveOnlyOnPrefix(
    identity: Authority, start: AuthorityState, events: seq<Event>, opened': MonoTime, i: nat, early: MonoTime, k: nat, late: MonoTime)
    requires i <= k <= |events| && IsLive(start, Some(opened')) && opened' <= early <= late && Ordered(opened', events)
    requires forall m :: 0 <= m < i && events[m].now.Some? ==> events[m].now.value <= early
    requires forall m :: i <= m < |events| && events[m].now.Some? ==> early <= events[m].now.value
    requires forall m :: 0 <= m < k && events[m].now.Some? ==> events[m].now.value <= late
    requires !IsLive(StateAfter(identity, start, events, i), Some(early))
    ensures !IsLive(StateAfter(identity, start, events, k), Some(late))
    decreases k
  {
    WindowHasBegun(identity, start, events, i, opened', early);
    if i < k {
      var e := events[k - 1];
      var at := if e.now.Some? then e.now.value else early;
      if e.now.Some? {
        LiveOnlyOnPrefix(identity, start, events, opened', i, early, k - 1, at);
      }
      LiveOnlyOnPrefix(identity, start, events, opened', i, early, k - 1, late);
    }
  }
}
