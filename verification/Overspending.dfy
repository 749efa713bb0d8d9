/** How a prepaid voucher is overspent though the NAS keeps to every grant: by exactly what
    the copy that an accept was decided on had missed (internal/radius/auth.go). */
module Overspending {
  import opened Domain
  import opened Sums
  import opened Counters
  import opened ServerSpec
  import opened Cluster
  import opened Applied
  import opened Metering
  import opened Budget
  import SimultaneousUse

  // ----- what a grant is worth -----

  predicate MetersAs(m: Mem, n: string, uid: string) { IsMetered(m, n) && m.subscribers[n].id == uid }

  /** The copy of a prepaid user passes every check, and no other timeout is configured. */
  predicate Passes(u: User, ss: map<string, Session>, n: string, now: Time, limit: int) {
    && IsPrepaid(u.plan) && u.plan.limitSeconds == limit && EffectiveTimeout(u) == 0 && u.usage.seconds >= 0
    && !Refused(u, now) && !TooManySessions(ss, n, u)
  }

  /** The step decides a request of the user, on a copy that passes, at process `i`. */
  predicate Grants(s: State, step: Step, i: nat, n: string, limit: int) {
    && Judged(s, step, n).Some? && i == Actor(s, step) && i < |s.insts| && step.encoded
    && Passes(Judged(s, step, n).value, s.insts[i].mem.sessions, n, step.now, limit)
  }

  /** The last answer grants the user this time alone. */
  predicate GrantedLast(s: State, i: nat, n: string, seconds: int) {
    s.answers != [] && var a := s.answers[|s.answers| - 1];
    a.inst == i && a.username == n && a.reply == Accept([seconds])
  }

  lemma GrantApplied(s: State, step: Step, i: nat, n: string, uid: string, limit: int) returns (s': State)
    requires Enabled(s, step) && Grants(s, step, i, n, limit) && MetersAs(s.insts[i].mem, n, uid)
    ensures s' == Apply(s, step) && s'.charges == s.charges && |s'.insts| == |s.insts|
    ensures GrantedLast(s', i, n, limit - Judged(s, step, n).value.usage.seconds)
    ensures MetersAs(s'.insts[i].mem, n, uid) && s'.insts[i].mem.sessions == s.insts[i].mem.sessions
  {
    AcceptGrantsTheRest(s.insts[i].mem.sessions, n, Judged(s, step, n).value, step.now, true);
    if step.Authenticate? {
      s' := AuthApplied(s, step);
    } else {
      s' := DecideApplied(s, step);
    }
  }

  lemma KeepsGrantsTwo(s: State, s1: State, a: Step, b: Step, n: string, standing: Standing)
    requires Enabled(s, a) && s1 == Apply(s, a) && Enabled(s1, b) && IsRun(s, [a, b])
    requires KeepsGrant(s, a, n, standing) && KeepsGrant(s1, b, n, NextStanding(s, a, n, standing))
    ensures KeepsGrants(s, [a, b], n, standing)
  {
    RunOne(s1, b);
    assert KeepsGrants(s1, [b], n, NextStanding(s, a, n, standing));
    assert [a, b][1..] == [b];
  }

  /** A session that reports no more than was granted keeps to the grant. */
  lemma SessionKeepsGrant(s: State, s1: State, start: Step, report: Step, n: string, grant: int)
    requires start.StartSession? && start.username == n && Enabled(s, start) && s1 == Apply(s, start)
    requires report.Account? && report.inst == start.inst && report.id == start.id && Enabled(s1, report)
    requires Stored(s1.insts[start.inst].mem.sessions[start.id]).seconds == 0 <= Reported(report.report).seconds <= grant
    requires IsRun(s, [start, report])
    ensures KeepsGrants(s, [start, report], n, Granted(grant))
  {
    assert NextStanding(s, start, n, Granted(grant)) == Online(start.inst, start.id, grant);
    KeepsGrantsTwo(s, s1, start, report, n, Granted(grant));
  }

  /** A new session reports once, and is charged all of it. */
  lemma StartAndSpend(s: State, i: nat, id: string, n: string, uid: string, nasIp: string, r: Report, stop: bool, now: Time)
    returns (s': State)
    requires i < |s.insts| && MetersAs(s.insts[i].mem, n, uid) && id !in s.insts[i].mem.sessions && Sane(r)
    ensures var steps := [StartSession(i, id, id, n, nasIp, now), Account(i, id, r, stop, now)];
            IsRun(s, steps) && s' == Run(s, steps) && KeepsGrants(s, steps, n, Granted(Reported(r).seconds))
    ensures ChargesTo(s', uid, Seconds) == ChargesTo(s, uid, Seconds) + Reported(r).seconds
  {
    var start, report := StartSession(i, id, id, n, nasIp, now), Account(i, id, r, stop, now);
    var s1 := StartApplied(s, start);
    s' := SpentMore(s1, report, n, uid);
    RunTwo(s, start, report);
    SaneReport(r);
    SessionKeepsGrant(s, s1, start, report, n, Reported(r).seconds);
  }

  /** An update of a metered record charges the growth of its session time. */
  lemma SpentMore(s: State, step: Step, n: string, uid: string) returns (s': State)
    requires step.Account? && Enabled(s, step) && MetersAs(s.insts[step.inst].mem, n, uid)
    requires var x := s.insts[step.inst].mem.sessions[step.id];
             x.username == n && SaneUsage(Stored(x)) && Stored(x).seconds <= Reported(step.report).seconds
    ensures s' == Apply(s, step) && s'.requests == s.requests
    ensures s'.insts == WithMem(s, step.inst, AcctUpdate(s.insts[step.inst].mem, step.id, step.report, step.stop, step.now).mem)
    ensures ChargesTo(s', uid, Seconds) == ChargesTo(s, uid, Seconds) + Reported(step.report).seconds
                                           - Stored(s.insts[step.inst].mem.sessions[step.id]).seconds
  {
    s' := AccountApplied(s, step);
    AccountCharge(s, step, uid, Seconds);
    SumConcat(ChargedTo(uid, Seconds), s.charges, NewCharges(s, step));
    SaneReport(step.report);
    DeltaExact(Reported(step.report).seconds, Stored(s.insts[step.inst].mem.sessions[step.id]).seconds);
  }

  /** Main result. From every state in which a prepaid user is about to be accepted, in one
      piece or at the end of an open request: the accept, and a session of exactly the time it
      grants, bring the total beyond the limit by what the copy had missed. So the limit is
      passed if and only if the copy shows less than what was charged. */
  lemma GrantOverspendsIff(s: State, accept: Step, i: nat, n: string, uid: string, base: Usage, limit: int,
                           id: string, nasIp: string, r: Report, stop: bool, now: Time) returns (s1: State, s2: State)
    requires Enabled(s, accept) && Grants(s, accept, i, n, limit)
    requires MetersAs(s.insts[i].mem, n, uid) && id !in s.insts[i].mem.sessions
    requires Sane(r) && Reported(r).seconds == limit - Judged(s, accept, n).value.usage.seconds
    ensures s1 == Apply(s, accept) && GrantedLast(s1, i, n, Reported(r).seconds)
    ensures var steps := [StartSession(i, id, id, n, nasIp, now), Account(i, id, r, stop, now)];
            IsRun(s1, steps) && s2 == Run(s1, steps) && KeepsGrants(s1, steps, n, Granted(Reported(r).seconds))
    ensures Used(s2, uid, base) - limit == Used(s, uid, base) - Judged(s, accept, n).value.usage.seconds
    ensures Used(s2, uid, base) > limit <==> Judged(s, accept, n).value.usage.seconds < Used(s, uid, base)
  {
    s1 := GrantApplied(s, accept, i, n, uid, limit);
    s2 := StartAndSpend(s1, i, id, n, uid, nasIp, r, stop, now);
  }

  // ----- how a copy comes to miss a charge -----

  /** The process is ready to accept the user, and its cache shows all that was charged. */
  ghost predicate ReadyToAccept(s: State, i: nat, n: string, uid: string, base: Usage, now: Time, limit: int) {
    && i < |s.insts| && MetersAs(s.insts[i].mem, n, uid)
    && (var u := s.insts[i].mem.subscribers[n];
        u.enabled && u.usage.seconds == Used(s, uid, base) && Passes(u, s.insts[i].mem.sessions, n, now, limit))
  }

  /** The report makes the session time of a record of the user grow. */
  predicate GrowsBy(m: Mem, id: string, n: string, r: Report, seconds: int) {
    && id in m.sessions && m.sessions[id].username == n && SaneUsage(Stored(m.sessions[id])) && Sane(r)
    && Reported(r).seconds == Stored(m.sessions[id]).seconds + seconds && seconds > 0
  }

  /** An update brings in no session, and neither forgets nor renames the user. */
  lemma UpdateKeepsPassing(m: Mem, id: string, r: Report, stop: bool, at: Time, n: string, uid: string, u: User,
                           now: Time, limit: int)
    requires id in m.sessions && MetersAs(m, n, uid) && Passes(u, m.sessions, n, now, limit)
    ensures var m' := AcctUpdate(m, id, r, stop, at).mem;
            MetersAs(m', n, uid) && m'.sessions.Keys == m.sessions.Keys && Passes(u, m'.sessions, n, now, limit)
  {
    SimultaneousUse.AccountCounts(m, id, r, stop, at, n);
  }

  /** A request reads the user, and an update of a session charges more time. */
  lemma ReadThenCharged(s: State, i: nat, n: string, uid: string, base: Usage, limit: int,
                        id: string, r: Report, stop: bool, now: Time, grown: int) returns (s': State)
    requires ReadyToAccept(s, i, n, uid, base, now, limit) && GrowsBy(s.insts[i].mem, id, n, r, grown)
    ensures var steps := [AuthRead(i, n, true, now), Account(i, id, r, stop, now)];
            IsRun(s, steps) && s' == Run(s, steps)
    ensures s.nextRequest in s'.requests && s'.requests[s.nextRequest] == Request(i, n, s.insts[i].mem.subscribers[n], false)
    ensures |s'.insts| == |s.insts| && MetersAs(s'.insts[i].mem, n, uid)
    ensures s'.insts[i].mem.sessions.Keys == s.insts[i].mem.sessions.Keys
    ensures Passes(s.insts[i].mem.subscribers[n], s'.insts[i].mem.sessions, n, now, limit)
    ensures Used(s', uid, base) == Used(s, uid, base) + grown
  {
    var read, report := AuthRead(i, n, true, now), Account(i, id, r, stop, now);
    var s1 := ReadApplied(s, read);
    s' := SpentMore(s1, report, n, uid);
    UpdateKeepsPassing(s.insts[i].mem, id, r, stop, now, n, uid, s.insts[i].mem.subscribers[n], now, limit);
    RunTwo(s, read, report);
  }

  /** The request records the first login, and is then decided on its old copy. */
  lemma MarkedRequestGrants(s: State, k: nat, i: nat, n: string, uid: string, u: User, limit: int, now: Time)
    returns (s': State)
    requires k in s.requests && s.requests[k] == Request(i, n, u, false)
    requires i < |s.insts| && MetersAs(s.insts[i].mem, n, uid) && Passes(u, s.insts[i].mem.sessions, n, now, limit)
    ensures Enabled(s, AuthMark(k, now)) && s' == Apply(s, AuthMark(k, now)) && s'.charges == s.charges
    ensures |s'.insts| == |s.insts| && MetersAs(s'.insts[i].mem, n, uid)
    ensures s'.insts[i].mem.sessions == s.insts[i].mem.sessions
    ensures var decide := AuthDecide(k, now, true);
            && Enabled(s', decide) && Grants(s', decide, i, n, limit)
            && Judged(s', decide, n).value.usage == u.usage
  {
    s' := MarkApplied(s, AuthMark(k, now));
  }

  /** The step is about to accept the user on a copy that has missed `grown` seconds. */
  ghost predicate Missed(s: State, accept: Step, i: nat, n: string, uid: string, base: Usage, limit: int, grown: int) {
    && Enabled(s, accept) && Grants(s, accept, i, n, limit) && MetersAs(s.insts[i].mem, n, uid)
    && Judged(s, accept, n).value.usage.seconds + grown == Used(s, uid, base)
  }

  /** Such a request, as a state: a request on a copy that has missed `grown` seconds. */
  lemma StaleRequestArises(s: State, i: nat, n: string, uid: string, base: Usage, limit: int,
                           id: string, r: Report, stop: bool, now: Time, grown: int) returns (s': State)
    requires ReadyToAccept(s, i, n, uid, base, now, limit) && GrowsBy(s.insts[i].mem, id, n, r, grown)
    ensures LeadsTo(s, s') && Missed(s', AuthDecide(s.nextRequest, now, true), i, n, uid, base, limit, grown)
    ensures s'.insts[i].mem.sessions.Keys == s.insts[i].mem.sessions.Keys
    ensures Used(s', uid, base) == Used(s, uid, base) + grown
  {
    var s1 := ReadThenCharged(s, i, n, uid, base, limit, id, r, stop, now, grown);
    RunLeads(s, [AuthRead(i, n, true, now), Account(i, id, r, stop, now)]);
    s' := MarkedRequestGrants(s1, s.nextRequest, i, n, uid, s.insts[i].mem.subscribers[n], limit, now);
    StepLeads(s1, AuthMark(s.nextRequest, now));
    LeadsThen(s, s1, s');
  }

  lemma CacheMisses(s: State, s': State, i: nat, n: string, uid: string, base: Usage, limit: int, now: Time, grown: int)
    requires ReadyToAccept(s, i, n, uid, base, now, limit) && i < |s'.insts| && s'.insts[i] == s.insts[i]
    requires Used(s', uid, base) == Used(s, uid, base) + grown
    ensures Missed(s', Authenticate(i, n, true, now, true), i, n, uid, base, limit, grown)
  {
    var auth, u := Authenticate(i, n, true, now, true), s.insts[i].mem.subscribers[n];
    assert Judged(s', auth, n) == Some(MarkSnapshot(u, now));
    assert Passes(MarkSnapshot(u, now), s.insts[i].mem.sessions, n, now, limit);
  }

  /** So is a second process that has not heard of a charge. */
  lemma LaggingProcessArises(s: State, j: nat, i: nat, n: string, uid: string, base: Usage, limit: int,
                             id: string, r: Report, stop: bool, now: Time, grown: int) returns (s': State)
    requires ReadyToAccept(s, i, n, uid, base, now, limit) && j < |s.insts| && j != i
    requires MetersAs(s.insts[j].mem, n, uid) && GrowsBy(s.insts[j].mem, id, n, r, grown)
    ensures LeadsTo(s, s') && Missed(s', Authenticate(i, n, true, now, true), i, n, uid, base, limit, grown)
    ensures s'.insts[i].mem.sessions.Keys == s.insts[i].mem.sessions.Keys
    ensures Used(s', uid, base) == Used(s, uid, base) + grown
  {
    s' := SpentMore(s, Account(j, id, r, stop, now), n, uid);
    StepLeads(s, Account(j, id, r, stop, now));
    CacheMisses(s, s', i, n, uid, base, limit, now, grown);
  }

  /** The session that is granted then, used up, passes the limit by as much. */
  lemma MissedIsOverspent(s: State, accept: Step, i: nat, n: string, uid: string, base: Usage, limit: int, grown: int,
                          next: string, full: Report, nasIp: string, stop: bool, now: Time) returns (s1: State, s2: State)
    requires Missed(s, accept, i, n, uid, base, limit, grown) && next !in s.insts[i].mem.sessions
    requires Sane(full) && Reported(full).seconds == limit - (Used(s, uid, base) - grown)
    ensures LeadsTo(s, s1) && LeadsTo(s1, s2)
    ensures GrantedLast(s1, i, n, Reported(full).seconds) && Used(s2, uid, base) == limit + grown
  {
    s1, s2 := GrantOverspendsIff(s, accept, i, n, uid, base, limit, next, nasIp, full, stop, now);
    StepLeads(s, accept);
    RunLeads(s1, [StartSession(i, next, next, n, nasIp, now), Account(i, next, full, stop, now)]);
  }

  /** From every state in which one process is ready to accept a prepaid user who has a
      session there: a request reads the user, the session goes on, and the request is
      decided. The session it grants passes the limit by what the other one went on. */
  lemma StaleRequestOverspends(s: State, i: nat, n: string, uid: string, base: Usage, limit: int, id: string, r: Report,
                               next: string, full: Report, nasIp: string, stop: bool, now: Time, grown: int)
    returns (s1: State, s2: State, s3: State)
    requires ReadyToAccept(s, i, n, uid, base, now, limit) && GrowsBy(s.insts[i].mem, id, n, r, grown)
    requires next !in s.insts[i].mem.sessions && Sane(full) && Reported(full).seconds == limit - Used(s, uid, base)
    ensures LeadsTo(s, s1) && LeadsTo(s1, s2) && LeadsTo(s2, s3)
    ensures Used(s1, uid, base) == Used(s, uid, base) + grown
    ensures GrantedLast(s2, i, n, limit - Used(s, uid, base))
    ensures Used(s3, uid, base) == limit + grown
  {
    s1 := StaleRequestArises(s, i, n, uid, base, limit, id, r, stop, now, grown);
    s2, s3 := MissedIsOverspent(s1, AuthDecide(s.nextRequest, now, true), i, n, uid, base, limit, grown,
                                next, full, nasIp, stop, now);
  }

  /** From every state in which a second process is ready to accept the user: the first one
      charges more time, and the second grants what its cache still shows, in one piece. */
  lemma LaggingProcessOverspends(s: State, j: nat, i: nat, n: string, uid: string, base: Usage, limit: int,
                                 id: string, r: Report, next: string, full: Report, nasIp: string, stop: bool, now: Time, grown: int)
    returns (s1: State, s2: State, s3: State)
    requires j < |s.insts| && j != i && MetersAs(s.insts[j].mem, n, uid) && GrowsBy(s.insts[j].mem, id, n, r, grown)
    requires ReadyToAccept(s, i, n, uid, base, now, limit)
    requires next !in s.insts[i].mem.sessions && Sane(full) && Reported(full).seconds == limit - Used(s, uid, base)
    ensures LeadsTo(s, s1) && LeadsTo(s1, s2) && LeadsTo(s2, s3)
    ensures Used(s1, uid, base) == Used(s, uid, base) + grown
    ensures GrantedLast(s2, i, n, limit - Used(s, uid, base))
    ensures Used(s3, uid, base) == limit + grown
  {
    s1 := LaggingProcessArises(s, j, i, n, uid, base, limit, id, r, stop, now, grown);
    s2, s3 := MissedIsOverspent(s1, Authenticate(i, n, true, now, true), i, n, uid, base, limit, grown,
                                next, full, nasIp, stop, now);
  }
}
