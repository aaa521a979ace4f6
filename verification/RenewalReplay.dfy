/** Stored renewal grants: a replay always decodes and never promises more than the rows allow. */
module RenewalReplay {
  import opened Base
  import opened Schema
  import opened Decisions
  import opened Transactions
  import opened Changes
  import opened Evolution

  ghost predicate GrantOk(db: Db, id: AttemptId, g: LeaseGrant)
  {
    && GrantBounded(g) && g.serverTime <= db.clock
    && (g.decision.Accepted? ==>
          id in db.attempts && g.authority == AuthorityOf(id, db.attempts[id]) && g.lease.value <= db.attempts[id].lease)
  }

  ghost predicate RecordOk(db: Db, r: RenewalRecord)
  {
    && |r.grants| == |r.members|
    && (forall m {:trigger m in r.members} :: m in r.members ==> m.attempt in r.grants && r.grants[m.attempt].authority == m)
    && (forall id {:trigger r.grants[id]} :: id in r.grants ==> GrantOk(db, id, r.grants[id]))
  }

  ghost predicate ReplaysOk(db: Db)
  {
    forall key {:trigger db.renewals[key]} :: key in db.renewals ==> RecordOk(db, db.renewals[key])
  }

  lemma RecordKept(db: Db, d: Db, r: RenewalRecord)
    requires Evolves(db, d) && RecordOk(db, r)
    ensures RecordOk(d, r)
  {
    forall id | id in r.grants ensures GrantOk(d, id, r.grants[id]) {
      assert GrantOk(db, id, r.grants[id]);
      if r.grants[id].decision.Accepted? { assert AttemptEvolves(db, d, id); }
    }
  }

  ghost predicate Distinct(members: seq<Authority>)
  {
    forall i, k :: 0 <= i < k < |members| ==> members[i].attempt != members[k].attempt
  }

  function AttemptSet(members: seq<Authority>): set<AttemptId>
  {
    set a | a in members :: a.attempt
  }

  lemma SetsOfLast(members: seq<Authority>)
    requires members != []
    ensures var n := |members| - 1;
            && MemberSet(members) == MemberSet(members[..n]) + {members[n]}
            && AttemptSet(members) == AttemptSet(members[..n]) + {members[n].attempt}
  {
    var n := |members| - 1;
    assert members == members[..n] + [members[n]];
  }

  lemma {:induction false} DistinctSizes(members: seq<Authority>)
    requires Distinct(members)
    ensures |MemberSet(members)| == |members| && |AttemptSet(members)| == |members|
  {
    if members != [] {
      var n := |members| - 1;
      DistinctSizes(members[..n]);
      SetsOfLast(members);
    }
  }

  lemma FreshGrantOk(db: Db, auth: Authority, now: Time, d: Db)
    requires db.clock <= now <= d.clock
    requires LeaseDecision(db, auth, now).Accepted? ==>
               auth.attempt in d.attempts && AuthorityOf(auth.attempt, d.attempts[auth.attempt]) == auth
               && now + INITIAL_LEASE <= d.attempts[auth.attempt].lease
    ensures GrantOk(d, auth.attempt, FreshGrant(db, auth, now))
  {
  }

  lemma NewGrantOk(db: Db, c: RenewCall, d: Db, m: Authority)
    requires CanExtend(db, c) && d == Renewed(db, c) && m in c.members
    ensures GrantOk(d, m.attempt, FreshGrant(db, m, c.now))
  {
    FreshGrantOk(db, m, c.now, d);
  }

  lemma GrantMapRows(db: Db, members: seq<Authority>, now: Time, grants: map<AttemptId, LeaseGrant>)
    requires Distinct(members) && grants == GrantMap(db, members, now)
    ensures grants.Keys == AttemptSet(members)
    ensures forall m {:trigger m in members} :: m in members ==> m.attempt in grants && grants[m.attempt] == FreshGrant(db, m, now)
  {
  }

  lemma RecordFromGrants(db: Db, members: seq<Authority>, now: Time, d: Db, grants: map<AttemptId, LeaseGrant>)
    requires Distinct(members) && grants == GrantMap(db, members, now)
    requires forall m {:trigger m in members} :: m in members ==> GrantOk(d, m.attempt, FreshGrant(db, m, now))
    ensures RecordOk(d, RenewalRecord(MemberSet(members), grants))
  {
    DistinctSizes(members);
    GrantMapRows(db, members, now, grants);
    forall id | id in grants ensures GrantOk(d, id, grants[id]) {
      var m :| m in members && m.attempt == id;
    }
  }

  lemma NewRecordOk(db: Db, c: RenewCall, d: Db, r: RenewalRecord)
    requires CanExtend(db, c) && d == Renewed(db, c) && r == d.renewals[RequestKey(c.worker, c.session, c.request)]
    ensures RecordOk(d, r)
  {
    forall m | m in c.members ensures GrantOk(d, m.attempt, FreshGrant(db, m, c.now)) { NewGrantOk(db, c, d, m); }
    RecordFromGrants(db, c.members, c.now, d, r.grants);
  }

  lemma ExtendKeepsReplays(db: Db, c: RenewCall, d: Db)
    requires ReplaysOk(db) && Evolves(db, d) && CanExtend(db, c) && d == Renewed(db, c)
    ensures ReplaysOk(d)
  {
    NewRecordOk(db, c, d, d.renewals[RequestKey(c.worker, c.session, c.request)]);
    forall key | key in d.renewals ensures RecordOk(d, d.renewals[key]) {
      if key in db.renewals { RecordKept(db, d, db.renewals[key]); }
    }
  }

  lemma SameKeepsReplays(db: Db, d: Db)
    requires ReplaysOk(db) && Evolves(db, d) && d.renewals == db.renewals
    ensures ReplaysOk(d)
  {
    forall key | key in d.renewals ensures RecordOk(d, d.renewals[key]) { RecordKept(db, d, db.renewals[key]); }
  }

  lemma ChangeKeepsReplays(db: Db, ch: Change, d: Db)
    requires ReplaysOk(db) && Makes(db, ch, d) && Evolves(db, d)
    ensures ReplaysOk(d)
  {
    if ch.Extend? {
      ExtendKeepsReplays(db, ch.renewal, d);
    } else {
      if ch.End? { EndedShape(db, ch.attempt, ch.ending, ch.record, d); }
      SameKeepsReplays(db, d);
    }
  }

  /** A stored renewal answers a retry of the same members: its decode error is unreachable. */
  lemma ReplayDecodesAlways(db: Db, c: RenewCall)
    requires ReplaysOk(db) && RenewalWellFormed(c) && RequestKey(c.worker, c.session, c.request) in db.renewals
    requires db.renewals[RequestKey(c.worker, c.session, c.request)].members == MemberSet(c.members)
    ensures ReplayDecodes(db.renewals[RequestKey(c.worker, c.session, c.request)], c.members)
  {
    var saved := db.renewals[RequestKey(c.worker, c.session, c.request)];
    assert RecordOk(db, saved);
    DistinctSizes(c.members);
    forall id | id in saved.grants ensures GrantBounded(saved.grants[id]) { assert GrantOk(db, id, saved.grants[id]); }
    forall i | 0 <= i < |c.members|
      ensures c.members[i].attempt in saved.grants && saved.grants[c.members[i].attempt].authority == c.members[i]
    {
      assert c.members[i] in saved.members;
    }
  }
}
