/** When an accounting update reports a limit as reached: never before the total has reached
    it, and with one process as soon as it has (internal/radius/accounting.go). */
module Limits {
  import opened Domain
  import opened ServerSpec
  import opened Cluster
  import opened Applied
  import opened Metering
  import opened Ceilings
  import opened Conservation
  import opened Budget

  /** One of the two limits of the plan is reached by this usage. */
  predicate LimitReached(p: Plan, seconds: int, octets: int) {
    || (p.limitType == UsageLimit && 0 < p.limitSeconds <= seconds)
    || 0 < p.dataCap <= octets
  }

  /** The update is for a record of the user, at a process that meters it. */
  ghost predicate UpdatesUser(s: State, step: Step, n: string, uid: string)
    requires Enabled(s, step)
  {
    && step.Account? && s.insts[step.inst].mem.sessions[step.id].username == n
    && IsMetered(s.insts[step.inst].mem, n) && s.insts[step.inst].mem.subscribers[n].id == uid
  }

  /** The cached user at the process, and what the update makes of it. */
  function CachedUser(s: State, i: nat, n: string): User
    requires i < |s.insts| && n in s.insts[i].mem.subscribers
  {
    s.insts[i].mem.subscribers[n]
  }

  ghost function MeteredUser(s: State, step: Step, n: string, uid: string): User
    requires Enabled(s, step) && UpdatesUser(s, step, n, uid)
  {
    Meter(CachedUser(s, step.inst, n), AcctDelta(s.insts[step.inst].mem, step.id, step.report))
  }

  lemma TotalAfter(s: State, step: Step, uid: string, base: Usage, d: Dim)
    requires Enabled(s, step) && !step.Flush?
    ensures Total(Apply(s, step), uid, base, d) == Total(s, uid, base, d) + StepCharge(NewCharges(s, step), uid, d)
  {
    CommitAdds(s, Act(s, step), uid, d);
  }

  lemma CachedCopy(s: State, i: nat, n: string, uid: string, base: Usage, d: Dim)
    requires Kept(s, uid, base) && FitsInt64(s, uid, base) && i < |s.insts|
    requires n in s.insts[i].mem.subscribers && CachedUser(s, i, n).id == uid
    ensures 0 <= CachedUser(s, i, n).usage.Of(d) <= Total(s, uid, base, d) && CachedUser(s, i, n).plan == s.db.users[uid].plan
  {
    assert Capped(s, uid, base, d) && Below(s.insts[i], uid, d, Total(s, uid, base, d));
    assert Within(CachedUser(s, i, n), uid, d, Total(s, uid, base, d));
    assert RootedInstance(s.insts[i], s.db) && Rooted(CachedUser(s, i, n), n, s.db);
  }

  /** What the update compares with the limits is behind the total by what the cache was. */
  lemma MeteredIsCached(s: State, step: Step, n: string, uid: string, base: Usage, d: Dim)
    requires Kept(s, uid, base) && Enabled(s, step) && UpdatesUser(s, step, n, uid)
    requires FitsInt64(Apply(s, step), uid, base)
    ensures 0 <= CachedUser(s, step.inst, n).usage.Of(d) <= Total(s, uid, base, d)
    ensures MeteredUser(s, step, n, uid).plan == s.db.users[uid].plan
    ensures MeteredUser(s, step, n, uid).usage.Of(d) - CachedUser(s, step.inst, n).usage.Of(d)
         == Total(Apply(s, step), uid, base, d) - Total(s, uid, base, d) >= 0
  {
    KeptStep(s, step, uid, base);
    CachedCopy(s, step.inst, n, uid, base, d);
    TotalAfter(s, step, uid, base, d);
    assert Total(Apply(s, step), uid, base, d) <= INT64_MAX;
    AccountDelta(s, step);
    AccountCharge(s, step, uid, d);
    MeterExact(CachedUser(s, step.inst, n), AcctDelta(s.insts[step.inst].mem, step.id, step.report), d);
  }

  /** The total charged has reached a limit. */
  predicate TotalReached(s: State, uid: string, base: Usage) {
    uid in s.db.users && LimitReached(s.db.users[uid].plan, Total(s, uid, base, Seconds), Total(s, uid, base, Octets))
  }

  /** The cache shows everything charged. */
  predicate ShowsTotal(u: User, s: State, uid: string, base: Usage) {
    u.usage.seconds == Total(s, uid, base, Seconds) && u.usage.octets == Total(s, uid, base, Octets)
  }

  lemma HitMeansReached(s: State, step: Step, n: string, uid: string, base: Usage)
    requires Kept(s, uid, base) && Enabled(s, step) && UpdatesUser(s, step, n, uid)
    requires FitsInt64(Apply(s, step), uid, base)
    ensures AcctHit(s.insts[step.inst].mem, step.id, step.report) ==> TotalReached(Apply(s, step), uid, base)
    ensures ShowsTotal(CachedUser(s, step.inst, n), s, uid, base) && TotalReached(Apply(s, step), uid, base) ==>
              AcctHit(s.insts[step.inst].mem, step.id, step.report)
  {
    MeteredIsCached(s, step, n, uid, base, Seconds);
    MeteredIsCached(s, step, n, uid, base, Octets);
    var s' := AccountApplied(s, step);
  }

  lemma OneProcessShows(s0: State, steps: seq<Step>, s: State, i: nat, n: string, uid: string, d: Dim)
    requires Init(s0) && |s0.insts| == 1 && IsRun(s0, steps) && s == Run(s0, steps) && uid in s0.db.users
    requires FitsInt64(s, uid, s0.db.users[uid].usage)
    requires i < |s.insts| && n in s.insts[i].mem.subscribers && CachedUser(s, i, n).id == uid
    ensures CachedUser(s, i, n).usage.Of(d) == Total(s, uid, s0.db.users[uid].usage, d)
  {
    SingleProcessConserves(s0, steps, n, uid, d);
    assert i == 0;
    assert CachedUser(s, 0, n).usage.Of(d) == s0.db.users[uid].usage.Of(d) + ChargesTo(s, uid, d);
  }

  lemma FitBefore(s: State, step: Step, uid: string, base: Usage)
    requires Kept(s, uid, base) && Enabled(s, step) && FitsInt64(Apply(s, step), uid, base)
    ensures FitsInt64(s, uid, base)
  {
    KeptStep(s, step, uid, base);
  }

  lemma KeptFromStart(s0: State, steps: seq<Step>, s: State, uid: string)
    requires Init(s0) && IsRun(s0, steps) && s == Run(s0, steps) && uid in s0.db.users
    ensures Kept(s, uid, s0.db.users[uid].usage)
  {
    InitKept(s0, uid);
    KeptRun(s0, steps, uid, s0.db.users[uid].usage);
  }

  /** Main result. In every run of any number of processes, an accounting update reports a
      limit, of time or of data, only when the total charged has reached it; and with one
      process, exactly when it has, even if the database refuses the charge. */
  lemma HitExactlyAtTheLimit(s0: State, steps: seq<Step>, s: State, step: Step, n: string, uid: string)
    requires Init(s0) && IsRun(s0, steps) && s == Run(s0, steps) && uid in s0.db.users
    requires Enabled(s, step) && UpdatesUser(s, step, n, uid) && FitsInt64(Apply(s, step), uid, s0.db.users[uid].usage)
    ensures AcctHit(s.insts[step.inst].mem, step.id, step.report) ==> TotalReached(Apply(s, step), uid, s0.db.users[uid].usage)
    ensures |s0.insts| == 1 && TotalReached(Apply(s, step), uid, s0.db.users[uid].usage) ==>
              AcctHit(s.insts[step.inst].mem, step.id, step.report)
  {
    KeptFromStart(s0, steps, s, uid);
    HitMeansReached(s, step, n, uid, s0.db.users[uid].usage);
    if |s0.insts| == 1 {
      FitBefore(s, step, uid, s0.db.users[uid].usage);
      OneProcessShows(s0, steps, s, step.inst, n, uid, Seconds);
      OneProcessShows(s0, steps, s, step.inst, n, uid, Octets);
    }
  }

  lemma TimeHitAt(s: State, step: Step, n: string, uid: string, base: Usage, standing: Standing, limit: int)
    requires Solvent(s, n, uid, base, standing, limit) && Kept(s, uid, base) && Enabled(s, step) && UpdatesUser(s, step, n, uid)
    requires KeepsGrant(s, step, n, standing) && OctetsFit(Apply(s, step), uid, base)
    ensures TimeUsedUp(MeteredUser(s, step, n, uid)) <==>
              Used(Apply(s, step), uid, base) == limit && CachedUser(s, step.inst, n).usage.seconds == Used(s, uid, base)
  {
    SolventStep(s, step, n, uid, base, standing, limit);
    InBudgetFits(Apply(s, step), n, uid, base, NextStanding(s, step, n, standing), limit);
    MeteredIsCached(s, step, n, uid, base, Seconds);
  }

  /** While the NAS keeps to its grants, the time limit is reported by exactly those updates
      that bring the total to it at a process whose cache was not behind. */
  lemma TimeHitIff(s0: State, steps: seq<Step>, s: State, step: Step, n: string, uid: string, limit: int)
    requires PrepaidRun(s0, steps, n, uid, limit) && AllOnTheTotal(s0, steps, n, uid, s0.db.users[uid].usage)
    requires s == Run(s0, steps) && Enabled(s, step) && UpdatesUser(s, step, n, uid)
    requires KeepsGrant(s, step, n, StandingAfter(s0, steps, n, Offline))
    requires OctetsFit(Apply(s, step), uid, s0.db.users[uid].usage)
    ensures var base := s0.db.users[uid].usage;
            TimeUsedUp(MeteredUser(s, step, n, uid)) <==>
              Used(Apply(s, step), uid, base) == limit && CachedUser(s, step.inst, n).usage.seconds == Used(s, uid, base)
  {
    PrepaidRunStarts(s0, steps, n, uid, limit);
    SolventRun(s0, steps, n, uid, s0.db.users[uid].usage, Offline, limit);
    KeptFromStart(s0, steps, s, uid);
    TimeHitAt(s, step, n, uid, s0.db.users[uid].usage, StandingAfter(s0, steps, n, Offline), limit);
  }
}
