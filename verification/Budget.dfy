/** Prepaid time: a voucher whose NAS ends each session within the granted time is never
    charged more than it was sold, when every accept is decided on all that was charged
    (internal/radius/auth.go, accounting.go). */
module Budget {
  import opened Domain
  import opened Sums
  import opened Counters
  import opened ServerSpec
  import opened Cluster
  import opened PopulationLaws
  import opened Metering
  import opened Ceilings
  import opened Convergence
  import opened Conservation
  import Records

  // ----- what an accept grants -----

  predicate IsPrepaid(p: Plan) { p.isVoucher && p.limitType == UsageLimit && 0 < p.limitSeconds <= INT32_MAX }

  /** Exactly when an accept of a prepaid voucher carries a single Session-Timeout, the time
      its copy `u` has not used: no other session timeout is configured. Otherwise the
      configured one comes first, whether or not that much time is left. */
  lemma AcceptGrantsTheRest(ss: map<string, Session>, n: string, u: User, now: Time, encoded: bool)
    requires IsPrepaid(u.plan) && u.usage.seconds >= 0 && Decide(ss, n, u, now, encoded).Accept?
    ensures var granted, rest := Decide(ss, n, u, now, encoded).timeouts, u.plan.limitSeconds - u.usage.seconds;
            && rest > 0
            && (EffectiveTimeout(u) == 0 <==> |granted| == 1)
            && (EffectiveTimeout(u) == 0 ==> granted == [rest])
            && (EffectiveTimeout(u) > 0 ==> granted == [EffectiveTimeout(u) % TWO_32, rest])
  {
  }

  // ----- sessions that keep to their grants -----

  /** How far the user has got: nothing granted, granted, or in a session on a grant at
      some process. */
  datatype Standing = Offline | Granted(grant: int) | Online(inst: nat, id: string, grant: int)

  /** The copy of the user on which the step decides a request of user `n`, if it does. */
  function Judged(s: State, step: Step, n: string): Option<User> {
    if step.Authenticate? && step.username == n && step.inst < |s.insts|
       && Admitted(s.insts[step.inst].mem, n, step.passwordOk)
    then Some(MarkSnapshot(s.insts[step.inst].mem.subscribers[n], step.now))
    else if step.AuthDecide? && step.request in s.requests && s.requests[step.request].username == n
            && s.requests[step.request].inst < |s.insts|
    then Some(s.requests[step.request].user)
    else None
  }

  function ReplyNow(s: State, step: Step, n: string): Reply {
    if Judged(s, step, n).None? then Reject
    else
      var i := if step.Authenticate? then step.inst else s.requests[step.request].inst;
      Decide(s.insts[i].mem.sessions, n, Judged(s, step, n).value, step.now, step.encoded)
  }

  /** That is the reply the step gives. */
  lemma ReplyIsAnswer(s: State, step: Step, n: string)
    requires Enabled(s, step)
    ensures forall a :: a in NewAnswers(s, step) && a.username == n ==> a.reply == ReplyNow(s, step, n)
    ensures ReplyNow(s, step, n).Accept? ==> exists a :: a in NewAnswers(s, step) && a.username == n
  {
    if ReplyNow(s, step, n).Accept? {
      assert NewAnswers(s, step)[0] in NewAnswers(s, step);
    }
  }

  /** The seconds charged to the user so far, on top of the initial ones. */
  function Used(s: State, uid: string, base: Usage): int { base.seconds + ChargesTo(s, uid, Seconds) }

  /** If the step accepts the user, it does so on a copy that shows all that was charged,
      by whatever process. */
  predicate OnTheTotal(s: State, step: Step, n: string, uid: string, base: Usage) {
    ReplyNow(s, step, n).Accept? ==> Judged(s, step, n).value.usage.seconds == Used(s, uid, base)
  }

  /** The step accepts the user with one Session-Timeout; starts a session of the user only
      on a fresh grant; and reports for the user only a session time that is unchanged, or
      that grows within the grant. */
  ghost predicate KeepsGrant(s: State, step: Step, n: string, standing: Standing)
    requires Enabled(s, step)
  {
    && (ReplyNow(s, step, n).Accept? ==> |ReplyNow(s, step, n).timeouts| == 1)
    && (step.StartSession? && step.username == n ==> standing.Granted?)
    && (step.Account? && s.insts[step.inst].mem.sessions[step.id].username == n ==>
          var was, now := Stored(s.insts[step.inst].mem.sessions[step.id]).seconds, Reported(step.report).seconds;
          now == was || (standing == Online(step.inst, step.id, GrantOf(standing)) && was <= now <= GrantOf(standing)))
  }

  function GrantOf(standing: Standing): int { if standing.Offline? then 0 else standing.grant }

  ghost function NextStanding(s: State, step: Step, n: string, standing: Standing): Standing {
    var reply := ReplyNow(s, step, n);
    if reply.Accept? && |reply.timeouts| == 1 then Granted(reply.timeouts[0])
    else if step.StartSession? && step.username == n && standing.Granted? then Online(step.inst, step.id, standing.grant)
    else standing
  }

  ghost predicate KeepsGrants(s: State, steps: seq<Step>, n: string, standing: Standing)
    requires IsRun(s, steps)
    decreases |steps|
  {
    steps != [] ==>
    && KeepsGrant(s, steps[0], n, standing)
    && KeepsGrants(Apply(s, steps[0]), steps[1..], n, NextStanding(s, steps[0], n, standing))
  }

  ghost predicate AllOnTheTotal(s: State, steps: seq<Step>, n: string, uid: string, base: Usage)
    requires IsRun(s, steps)
    decreases |steps|
  {
    steps != [] ==>
    && OnTheTotal(s, steps[0], n, uid, base)
    && AllOnTheTotal(Apply(s, steps[0]), steps[1..], n, uid, base)
  }

  ghost function StandingAfter(s: State, steps: seq<Step>, n: string, standing: Standing): Standing
    requires IsRun(s, steps)
    decreases |steps|
  {
    if steps == [] then standing else StandingAfter(Apply(s, steps[0]), steps[1..], n, NextStanding(s, steps[0], n, standing))
  }

  // ----- the budget -----

  /** What is used, and what is granted on top of it, stays within the limit. */
  predicate InBudget(insts: seq<Instance>, n: string, used: int, standing: Standing, limit: int) {
    && used <= limit
    && match standing
       case Offline => true
       case Granted(grant) => used + grant <= limit
       case Online(i, id, grant) =>
         && i < |insts| && id in insts[i].mem.sessions && insts[i].mem.sessions[id].username == n
         && used - Stored(insts[i].mem.sessions[id]).seconds + grant <= limit
  }

  ghost predicate Prepaid(s: State, n: string, uid: string, limit: int) {
    && uid in s.db.users && s.db.users[uid].username == n
    && IsPrepaid(s.db.users[uid].plan) && s.db.users[uid].plan.limitSeconds == limit
  }

  /** Everything that is kept about a prepaid user, by any number of processes. */
  ghost predicate Solvent(s: State, n: string, uid: string, base: Usage, standing: Standing, limit: int) {
    Healthy(s, uid, base) && Prepaid(s, n, uid, limit) && InBudget(s.insts, n, Used(s, uid, base), standing, limit)
  }

  lemma UsedNonNegative(s: State, uid: string, base: Usage)
    requires Books(s, uid, base)
    ensures Used(s, uid, base) >= 0
  {
    forall c | c in s.charges ensures ChargedTo(uid, Seconds)(c) >= 0 {
      assert c.delta.Of(Seconds) >= 0;
    }
    SumNonNegative(ChargedTo(uid, Seconds), s.charges);
  }

  /** A step charges the user exactly the growth of the reported session time. */
  lemma ChargedGrowth(s: State, step: Step, n: string, uid: string, standing: Standing)
    requires Population(s) && SaneState(s) && Enabled(s, step) && !step.Flush?
    requires uid in s.db.users && s.db.users[uid].username == n && KeepsGrant(s, step, n, standing)
    ensures StepCharge(NewCharges(s, step), uid, Seconds) ==
              if step.Account? && s.insts[step.inst].mem.sessions[step.id].username == n && IsMetered(s.insts[step.inst].mem, n)
              then Reported(step.report).seconds - Stored(s.insts[step.inst].mem.sessions[step.id]).seconds else 0
  {
    if step.Account? {
      var m := s.insts[step.inst].mem;
      assert RootedInstance(s.insts[step.inst], s.db);
      AccountCharge(s, step, uid, Seconds);
      assert SaneSessions(m.sessions);
      SaneReport(step.report);
      DeltaExact(Reported(step.report).seconds, Stored(m.sessions[step.id]).seconds);
    } else {
      OnlyAccountingCharges(s, step);
    }
  }

  /** The record of the session in progress after a step of its process. */
  lemma OnlineRecord(s: State, step: Step, id: string)
    requires Enabled(s, step) && !step.Flush? && SaneState(s) && id in s.insts[Actor(s, step)].mem.sessions
    ensures var before, after := s.insts[Actor(s, step)].mem.sessions, Section(s, step).mem.sessions;
            && id in after && after[id].username == before[id].username
            && Stored(after[id]).seconds
                 == if step.Account? && step.id == id then Reported(step.report).seconds else Stored(before[id]).seconds
  {
    Records.SectionKeepsRecord(s, step, id);
    if step.Account? && step.id == id {
      UpdateKeepsSane(s.insts[step.inst].mem.sessions[id], step.report, step.stop, step.now);
    }
  }

  lemma StartedRecord(s: State, step: Step)
    requires Enabled(s, step) && step.StartSession?
    ensures var after := Section(s, step).mem.sessions;
            step.id in after && after[step.id].username == step.username && Stored(after[step.id]).seconds == 0
  {
  }

  /** The copy on which a request of the user is decided has the plan of the row. */
  lemma JudgedPlan(s: State, step: Step, n: string, uid: string, limit: int)
    requires Population(s) && Prepaid(s, n, uid, limit) && Judged(s, step, n).Some?
    ensures var u := Judged(s, step, n).value;
            u.id == uid && IsPrepaid(u.plan) && u.plan.limitSeconds == limit
  {
    if step.Authenticate? {
      assert RootedInstance(s.insts[step.inst], s.db) && Rooted(s.insts[step.inst].mem.subscribers[n], n, s.db);
    } else {
      assert Rooted(s.requests[step.request].user, n, s.db);
    }
  }

  /** An accept on the total grants exactly the time left. */
  lemma AcceptKeepsBudget(s: State, step: Step, n: string, uid: string, base: Usage, standing: Standing, limit: int)
    requires Solvent(s, n, uid, base, standing, limit) && Enabled(s, step) && ReplyNow(s, step, n).Accept?
    requires KeepsGrant(s, step, n, standing) && OnTheTotal(s, step, n, uid, base)
    ensures NextStanding(s, step, n, standing) == Granted(limit - Used(s, uid, base)) && NewCharges(s, step) == []
  {
    var i := if step.Authenticate? then step.inst else s.requests[step.request].inst;
    JudgedPlan(s, step, n, uid, limit);
    UsedNonNegative(s, uid, base);
    AcceptGrantsTheRest(s.insts[i].mem.sessions, n, Judged(s, step, n).value, step.now, step.encoded);
  }

  /** The session in progress takes its charge out of its grant. */
  lemma RecordKeepsBudget(s: State, step: Step, o: Outcome, n: string, standing: Standing, used: int, charge: int,
                          limit: int)
    requires SaneState(s) && Enabled(s, step) && !step.Flush? && o == Act(s, step)
    requires InBudget(s.insts, n, used, standing, limit) && standing.Online?
    requires charge == 0 || (step.Account? && step.inst == standing.inst && step.id == standing.id)
    requires step.Account? && step.inst == standing.inst && step.id == standing.id ==>
               var was, now := Stored(s.insts[step.inst].mem.sessions[step.id]).seconds, Reported(step.report).seconds;
               (now == was || was <= now <= standing.grant) && charge <= now - was
    ensures InBudget(s.insts[o.actor := o.inst], n, used + charge, standing, limit)
  {
    if standing.inst == o.actor {
      OnlineRecord(s, step, standing.id);
    }
  }

  lemma StartKeepsBudget(s: State, step: Step, o: Outcome, n: string, standing: Standing, used: int, limit: int)
    requires Enabled(s, step) && step.StartSession? && step.username == n && o == Act(s, step)
    requires InBudget(s.insts, n, used, standing, limit) && standing.Granted?
    ensures InBudget(s.insts[o.actor := o.inst], n, used, Online(step.inst, step.id, standing.grant), limit)
  {
    StartedRecord(s, step);
  }

  /** Any step but an accept keeps the budget, with the time it charges. */
  lemma SectionKeepsBudget(s: State, step: Step, o: Outcome, n: string, uid: string, standing: Standing, used: int,
                           limit: int)
    requires Population(s) && SaneState(s) && Enabled(s, step) && !step.Flush? && ReplyNow(s, step, n) == Reject
    requires uid in s.db.users && s.db.users[uid].username == n && KeepsGrant(s, step, n, standing) && o == Act(s, step)
    requires InBudget(s.insts, n, used, standing, limit)
    ensures InBudget(s.insts[o.actor := o.inst], n, used + StepCharge(o.charges, uid, Seconds), NextStanding(s, step, n, standing), limit)
  {
    ChargedGrowth(s, step, n, uid, standing);
    if step.StartSession? && step.username == n {
      StartKeepsBudget(s, step, o, n, standing, used, limit);
    } else if standing.Online? {
      RecordKeepsBudget(s, step, o, n, standing, used, StepCharge(o.charges, uid, Seconds), limit);
    }
  }

  lemma ActKeepsBudget(s: State, step: Step, o: Outcome, n: string, uid: string, base: Usage, standing: Standing, limit: int)
    requires Solvent(s, n, uid, base, standing, limit) && Enabled(s, step) && !step.Flush? && o == Act(s, step)
    requires KeepsGrant(s, step, n, standing) && OnTheTotal(s, step, n, uid, base)
    ensures InBudget(s.insts[o.actor := o.inst], n, Used(s, uid, base) + StepCharge(o.charges, uid, Seconds),
                     NextStanding(s, step, n, standing), limit)
  {
    if ReplyNow(s, step, n).Accept? {
      AcceptKeepsBudget(s, step, n, uid, base, standing, limit);
      assert StepCharge([], uid, Seconds) == 0;
    } else {
      SectionKeepsBudget(s, step, o, n, uid, standing, Used(s, uid, base), limit);
    }
  }

  lemma UsedAfter(s: State, o: Outcome, uid: string, base: Usage)
    requires o.actor < |s.insts|
    ensures Used(Commit(s, o), uid, base) == Used(s, uid, base) + StepCharge(o.charges, uid, Seconds)
  {
    CommitAdds(s, o, uid, Seconds);
  }

  lemma BudgetStep(s: State, step: Step, n: string, uid: string, base: Usage, standing: Standing, limit: int)
    requires Solvent(s, n, uid, base, standing, limit) && Enabled(s, step)
    requires KeepsGrant(s, step, n, standing) && OnTheTotal(s, step, n, uid, base)
    ensures InBudget(Apply(s, step).insts, n, Used(Apply(s, step), uid, base), NextStanding(s, step, n, standing), limit)
  {
    if !step.Flush? {
      ActKeepsBudget(s, step, Act(s, step), n, uid, base, standing, limit);
      UsedAfter(s, Act(s, step), uid, base);
    }
  }

  lemma SolventStep(s: State, step: Step, n: string, uid: string, base: Usage, standing: Standing, limit: int)
    requires Solvent(s, n, uid, base, standing, limit) && Enabled(s, step)
    requires KeepsGrant(s, step, n, standing) && OnTheTotal(s, step, n, uid, base)
    ensures Solvent(Apply(s, step), n, uid, base, NextStanding(s, step, n, standing), limit)
  {
    PopulationStep(s, step);
    HealthyStep(s, step, uid, base);
    BudgetStep(s, step, n, uid, base, standing, limit);
  }

  lemma {:induction false} SolventRun(s: State, steps: seq<Step>, n: string, uid: string, base: Usage,
                                      standing: Standing, limit: int)
    requires Solvent(s, n, uid, base, standing, limit) && IsRun(s, steps)
    requires KeepsGrants(s, steps, n, standing) && AllOnTheTotal(s, steps, n, uid, base)
    ensures Solvent(Run(s, steps), n, uid, base, StandingAfter(s, steps, n, standing), limit)
    decreases |steps|
  {
    if steps != [] {
      SolventStep(s, steps[0], n, uid, base, standing, limit);
      SolventRun(Apply(s, steps[0]), steps[1..], n, uid, base, NextStanding(s, steps[0], n, standing), limit);
    }
  }

  /** A run from the start in which the NAS keeps to the grants of a prepaid voucher. */
  ghost predicate PrepaidRun(s0: State, steps: seq<Step>, n: string, uid: string, limit: int) {
    && Init(s0) && Prepaid(s0, n, uid, limit) && s0.db.users[uid].usage.seconds <= limit
    && IsRun(s0, steps) && KeepsGrants(s0, steps, n, Offline)
  }

  lemma PrepaidRunStarts(s0: State, steps: seq<Step>, n: string, uid: string, limit: int)
    requires PrepaidRun(s0, steps, n, uid, limit)
    ensures Solvent(s0, n, uid, s0.db.users[uid].usage, Offline, limit)
    ensures PendingFor(s0, uid, Seconds) == 0 && ChargesTo(s0, uid, Seconds) == 0
  {
    InitBooks(s0, uid);
  }

  /** Main result. With any number of processes, and however requests, database writes,
      refreshes and cleanups fall: a prepaid voucher whose sessions follow one another, each
      within its grant, and whose accepts are decided on the total charged, is never charged
      more than its limit. `Overspending` shows that the last condition is needed. */
  lemma PrepaidTimeIsNeverOverspent(s0: State, steps: seq<Step>, n: string, uid: string, limit: int)
    requires PrepaidRun(s0, steps, n, uid, limit) && AllOnTheTotal(s0, steps, n, uid, s0.db.users[uid].usage)
    ensures s0.db.users[uid].usage.seconds + ChargesTo(Run(s0, steps), uid, Seconds) <= limit
  {
    PrepaidRunStarts(s0, steps, n, uid, limit);
    SolventRun(s0, steps, n, uid, s0.db.users[uid].usage, Offline, limit);
  }

  // ----- one process -----

  /** An accept is decided on a copy that shows what the cache shows: since the copy was
      read the user has not been charged. A request handled without interruption is. */
  predicate UpToDate(s: State, step: Step, n: string) {
    step.AuthDecide? && ReplyNow(s, step, n).Accept? ==>
      var m := s.insts[s.requests[step.request].inst].mem;
      n in m.subscribers && s.requests[step.request].user.usage.seconds == m.subscribers[n].usage.seconds
  }

  ghost predicate AllUpToDate(s: State, steps: seq<Step>, n: string)
    requires IsRun(s, steps)
    decreases |steps|
  {
    steps != [] ==> UpToDate(s, steps[0], n) && AllUpToDate(Apply(s, steps[0]), steps[1..], n)
  }

  ghost predicate OctetsFit(s: State, uid: string, base: Usage) { base.octets + ChargesTo(s, uid, Octets) <= INT64_MAX }

  /** There is one process, and its cache shows all that was charged. */
  ghost predicate Shown(s: State, uid: string, base: Usage) {
    Kept(s, uid, base) && FitsInt64(s, uid, base) && Exact(s, uid, base, Seconds)
  }

  lemma CachedIsUsed(s: State, n: string, uid: string, base: Usage)
    requires Shown(s, uid, base) && s.db.users[uid].username == n && n in s.insts[0].mem.subscribers
    ensures s.insts[0].mem.subscribers[n].id == uid && s.insts[0].mem.subscribers[n].usage.seconds == Used(s, uid, base)
  {
    assert RootedInstance(s.insts[0], s.db) && Rooted(s.insts[0].mem.subscribers[n], n, s.db);
    assert s.insts[0].mem.subscribers[n].usage.Of(Seconds) == Total(s, uid, base, Seconds);
  }

  /** So what is up to date with the cache is decided on the total. */
  lemma UpToDateIsOnTheTotal(s: State, step: Step, n: string, uid: string, base: Usage)
    requires Shown(s, uid, base) && s.db.users[uid].username == n
    requires Enabled(s, step) && UpToDate(s, step, n)
    ensures OnTheTotal(s, step, n, uid, base)
  {
    if ReplyNow(s, step, n).Accept? {
      CachedIsUsed(s, n, uid, base);
    }
  }

  lemma InBudgetFits(s: State, n: string, uid: string, base: Usage, standing: Standing, limit: int)
    requires Solvent(s, n, uid, base, standing, limit) && OctetsFit(s, uid, base)
    ensures FitsInt64(s, uid, base)
  {
    forall d: Dim ensures Total(s, uid, base, d) <= INT64_MAX {
      assert d == Seconds || d == Octets;
    }
  }

  lemma ShownStep(s: State, step: Step, uid: string, base: Usage)
    requires Shown(s, uid, base) && Enabled(s, step) && FitsInt64(Apply(s, step), uid, base)
    ensures Shown(Apply(s, step), uid, base)
  {
    KeptStep(s, step, uid, base);
    ExactStep(s, step, uid, base, Seconds);
  }

  lemma {:induction false} UpToDateRun(s: State, steps: seq<Step>, n: string, uid: string, base: Usage,
                                       standing: Standing, limit: int)
    requires Solvent(s, n, uid, base, standing, limit) && Shown(s, uid, base) && IsRun(s, steps)
    requires KeepsGrants(s, steps, n, standing) && AllUpToDate(s, steps, n) && OctetsFit(Run(s, steps), uid, base)
    ensures AllOnTheTotal(s, steps, n, uid, base) && Shown(Run(s, steps), uid, base)
    decreases |steps|
  {
    if steps != [] {
      var s1 := Apply(s, steps[0]);
      UpToDateIsOnTheTotal(s, steps[0], n, uid, base);
      SolventStep(s, steps[0], n, uid, base, standing, limit);
      ChargesGrow(s1, steps[1..], uid, base, Octets);
      InBudgetFits(s1, n, uid, base, NextStanding(s, steps[0], n, standing), limit);
      ShownStep(s, steps[0], uid, base);
      UpToDateRun(s1, steps[1..], n, uid, base, NextStanding(s, steps[0], n, standing), limit);
    }
  }

  lemma OneProcessRun(s0: State, steps: seq<Step>, n: string, uid: string, limit: int)
    requires PrepaidRun(s0, steps, n, uid, limit) && |s0.insts| == 1 && AllUpToDate(s0, steps, n)
    requires OctetsFit(Run(s0, steps), uid, s0.db.users[uid].usage)
    ensures AllOnTheTotal(s0, steps, n, uid, s0.db.users[uid].usage) && Shown(Run(s0, steps), uid, s0.db.users[uid].usage)
  {
    var base := s0.db.users[uid].usage;
    PrepaidRunStarts(s0, steps, n, uid, limit);
    InitExact(s0, uid, Seconds);
    ChargesGrow(s0, steps, uid, base, Octets);
    InBudgetFits(s0, n, uid, base, Offline, limit);
    UpToDateRun(s0, steps, n, uid, base, Offline, limit);
  }

  /** With one process it is enough that no accept is decided on a copy read before the last
      charge, which a request handled without interruption never is; and what the cache shows
      is what was charged. */
  lemma OneProcessNeverOverspends(s0: State, steps: seq<Step>, n: string, uid: string, limit: int)
    requires PrepaidRun(s0, steps, n, uid, limit) && |s0.insts| == 1 && AllUpToDate(s0, steps, n)
    requires OctetsFit(Run(s0, steps), uid, s0.db.users[uid].usage)
    ensures var s, used := Run(s0, steps), s0.db.users[uid].usage.seconds + ChargesTo(Run(s0, steps), uid, Seconds);
            && used <= limit && |s.insts| == 1
            && (n in s.insts[0].mem.subscribers ==> s.insts[0].mem.subscribers[n].usage.seconds == used)
  {
    var base := s0.db.users[uid].usage;
    OneProcessRun(s0, steps, n, uid, limit);
    PrepaidRunStarts(s0, steps, n, uid, limit);
    SolventRun(s0, steps, n, uid, base, Offline, limit);
    if n in Run(s0, steps).insts[0].mem.subscribers {
      CachedIsUsed(Run(s0, steps), n, uid, base);
    }
  }
}
