/** A voucher whose row has reached a limit is refused by every process that has refreshed
    since (internal/radius/service.go, auth.go). */
module SpentEverywhere {
  import opened Domain
  import opened ServerSpec
  import opened Cluster
  import opened PopulationLaws
  import opened Metering
  import opened Ceilings
  import opened Convergence
  import opened Enforcement

  /** This many seconds, or octets, are at the voucher's limit. */
  predicate AtLimit(p: Plan, d: Dim, used: int) {
    p.isVoucher &&
    match d
    case Seconds => p.limitType == UsageLimit && 0 < p.limitSeconds <= used
    case Octets => 0 < p.dataCap <= used
  }

  lemma HoldingIsExhausted(s: State, i: nat, n: string, uid: string, d: Dim, value: int)
    requires Population(s) && uid in s.db.users && HoldsAtLeast(s, i, n, uid, d, value)
    requires AtLimit(s.db.users[uid].plan, d, value)
    ensures Exhausted(s.insts[i].mem, n)
  {
    assert RootedInstance(s.insts[i], s.db) && Rooted(s.insts[i].mem.subscribers[n], n, s.db);
  }

  lemma SamePlan(s0: State, steps: seq<Step>, uid: string)
    requires Init(s0) && IsRun(s0, steps) && uid in s0.db.users
    ensures var s := Run(s0, steps);
            && Population(s) && uid in s.db.users && s.db.users[uid].plan == s0.db.users[uid].plan
            && s.db.users[uid].username == s0.db.users[uid].username
  {
    InitBooks(s0, uid);
    PopulationRun(s0, steps);
  }

  lemma FitsBefore(s0: State, steps: seq<Step>, s: State, rest: seq<Step>, uid: string)
    requires Init(s0) && uid in s0.db.users && IsRun(s0, steps) && s == Run(s0, steps) && IsRun(s, rest)
    requires FitsInt64(Run(s, rest), uid, s0.db.users[uid].usage)
    ensures FitsInt64(s, uid, s0.db.users[uid].usage)
  {
    InitKept(s0, uid);
    KeptRun(s0, steps, uid, s0.db.users[uid].usage);
    KeptRun(s, rest, uid, s0.db.users[uid].usage);
  }

  lemma SpentIsExhausted(s0: State, steps: seq<Step>, s: State, more: seq<Step>, s1: State, i: nat, uid: string, d: Dim)
    requires Init(s0) && uid in s0.db.users && IsRun(s0, steps) && s == Run(s0, steps)
    requires uid in s.db.users && AtLimit(s0.db.users[uid].plan, d, s.db.users[uid].usage.Of(d))
    requires IsRun(s, more) && s1 == Run(s, more) && i < |s.insts| && Refreshes(more, i, |s.insts[i].listings|)
    requires FitsInt64(s1, uid, s0.db.users[uid].usage)
    ensures var n := s0.db.users[uid].username;
            i < |s1.insts| && Exhausted(s1.insts[i].mem, n) && s1.insts[i].mem.subscribers[n].id == uid
  {
    EveryRefreshCatchesUp(s0, steps, s, more, s1, uid, d);
    SamePlan(s0, steps, uid);
    RunConcat(s0, steps, more);
    SamePlan(s0, steps + more, uid);
    HoldingIsExhausted(s1, i, s0.db.users[uid].username, uid, d, s.db.users[uid].usage.Of(d));
  }

  /** Main result. From every state in which the row of a voucher shows one of its limits as
      reached: each process that has merged a list it read since then rejects every request
      that reads its cache from then on, in every continuation, whatever is charged, refused
      or under way, and whatever the other processes know. */
  lemma SpentIsRejectedEverywhere(s0: State, steps: seq<Step>, s: State, more: seq<Step>, s1: State,
                                  rest: seq<Step>, s': State, i: nat, uid: string, d: Dim)
    requires Init(s0) && uid in s0.db.users && IsRun(s0, steps) && s == Run(s0, steps)
    requires uid in s.db.users && AtLimit(s0.db.users[uid].plan, d, s.db.users[uid].usage.Of(d))
    requires IsRun(s, more) && s1 == Run(s, more) && i < |s.insts| && Refreshes(more, i, |s.insts[i].listings|)
    requires IsRun(s1, rest) && s' == Run(s1, rest) && FitsInt64(s', uid, s0.db.users[uid].usage)
    ensures i < |s'.insts| && Exhausted(s'.insts[i].mem, s0.db.users[uid].username)
    ensures var n := s0.db.users[uid].username;
            forall a :: a in s'.answers && a.request >= s1.nextRequest && a.inst == i && a.username == n ==> a.reply == Reject
  {
    RunConcat(s0, steps, more);
    FitsBefore(s0, steps + more, s1, rest, uid);
    SpentIsExhausted(s0, steps, s, more, s1, i, uid, d);
    ExhaustedMeansRejectedForever(s0, steps + more, s1, rest, s', i, s0.db.users[uid].username, uid);
  }

  /** Once nothing is under way the row shows the total, so the same holds from the moment
      the total is at a limit. */
  lemma SpentTotalIsRejectedEverywhere(s0: State, steps: seq<Step>, s: State, more: seq<Step>, s1: State,
                                       rest: seq<Step>, s': State, i: nat, uid: string, d: Dim)
    requires Init(s0) && uid in s0.db.users && IsRun(s0, steps) && s == Run(s0, steps) && PendingFor(s, uid, d) == 0
    requires InColumns(s, uid, s0.db.users[uid].usage)
    requires AtLimit(s0.db.users[uid].plan, d, Total(s, uid, s0.db.users[uid].usage, d))
    requires IsRun(s, more) && s1 == Run(s, more) && i < |s.insts| && Refreshes(more, i, |s.insts[i].listings|)
    requires IsRun(s1, rest) && s' == Run(s1, rest) && FitsInt64(s', uid, s0.db.users[uid].usage)
    ensures i < |s'.insts| && Exhausted(s'.insts[i].mem, s0.db.users[uid].username)
    ensures var n := s0.db.users[uid].username;
            forall a :: a in s'.answers && a.request >= s1.nextRequest && a.inst == i && a.username == n ==> a.reply == Reject
  {
    CountersAreAccountedFor(s0, steps, uid, d);
    SpentIsRejectedEverywhere(s0, steps, s, more, s1, rest, s', i, uid, d);
  }
}
