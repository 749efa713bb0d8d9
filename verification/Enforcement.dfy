/** Limits are enforced: an exhausted voucher is rejected for good
    (internal/radius/auth.go). */
module Enforcement {
  import opened Domain
  import opened Counters
  import opened ServerSpec
  import opened Database
  import opened Cluster
  import opened PopulationLaws
  import opened Metering
  import opened Ceilings

  // ----- exhausted means rejected, from then on -----

  predicate Exhausted(m: Mem, n: string) { IsMetered(m, n) && UsedUp(m.subscribers[n]) }

  /** The process lets the user in no more. */
  predicate Shut(m: Mem, n: string) { Exhausted(m, n) || (n in m.subscribers && !m.subscribers[n].enabled) }

  predicate Numbered(s: State) { forall r :: r in s.requests ==> r < s.nextRequest }

  /** Every request numbered `r0` or later, of this user at this process, carries an
      exhausted copy of the user, or was answered with a reject. */
  ghost predicate Barred(s: State, i: nat, n: string, r0: nat) {
    && (forall r :: r in s.requests && r >= r0 && s.requests[r].inst == i && s.requests[r].username == n ==>
          s.requests[r].user.plan.isVoucher && UsedUp(s.requests[r].user))
    && (forall a :: a in s.answers && a.request >= r0 && a.inst == i && a.username == n ==> a.reply == Reject)
  }

  lemma ExhaustedStays(s: State, s': State, i: nat, n: string, uid: string)
    requires Population(s) && Population(s') && SamePopulation(s.db, s'.db) && i < |s.insts|
    requires Progress(s, s', uid, Seconds) && Progress(s, s', uid, Octets)
    requires Exhausted(s.insts[i].mem, n) && s.insts[i].mem.subscribers[n].id == uid
    ensures i < |s'.insts| && Exhausted(s'.insts[i].mem, n) && s'.insts[i].mem.subscribers[n].id == uid
  {
  }

  lemma BarredStep(s: State, step: Step, i: nat, n: string, r0: nat)
    requires Numbered(s) && Enabled(s, step) && i < |s.insts| && Shut(s.insts[i].mem, n) && Barred(s, i, n, r0)
    ensures Numbered(Apply(s, step)) && Barred(Apply(s, step), i, n, r0)
  {
    if !step.Flush? {
      BarredRequests(s, step, i, n, r0);
      BarredAnswers(s, step, i, n, r0);
    }
  }

  lemma BarredRequests(s: State, step: Step, i: nat, n: string, r0: nat)
    requires Numbered(s) && Enabled(s, step) && i < |s.insts| && Shut(s.insts[i].mem, n) && Barred(s, i, n, r0)
    ensures forall r :: r in NextRequests(s, step) ==> r < s.nextRequest + if step.AuthRead? then 1 else 0
    ensures forall r :: r in NextRequests(s, step) && r >= r0 ==>
              var q := NextRequests(s, step)[r];
              q.inst == i && q.username == n ==> q.user.plan.isVoucher && UsedUp(q.user)
  {
  }

  lemma BarredAnswers(s: State, step: Step, i: nat, n: string, r0: nat)
    requires Numbered(s) && Enabled(s, step) && i < |s.insts| && Shut(s.insts[i].mem, n) && Barred(s, i, n, r0)
    ensures forall a :: a in NewAnswers(s, step) && a.request >= r0 && a.inst == i && a.username == n ==> a.reply == Reject
  {
  }

  lemma {:induction false} BarredRun(s: State, steps: seq<Step>, i: nat, n: string, uid: string, base: Usage, r0: nat)
    requires Kept(s, uid, base) && Numbered(s) && IsRun(s, steps) && FitsInt64(Run(s, steps), uid, base)
    requires i < |s.insts| && Exhausted(s.insts[i].mem, n) && s.insts[i].mem.subscribers[n].id == uid
    requires Barred(s, i, n, r0)
    ensures var s' := Run(s, steps);
            i < |s'.insts| && Exhausted(s'.insts[i].mem, n) && Barred(s', i, n, r0)
    decreases |steps|
  {
    if steps != [] {
      var s1 := Apply(s, steps[0]);
      KeptStep(s, steps[0], uid, base);
      PopulationStep(s, steps[0]);
      KeptRun(s1, steps[1..], uid, base);
      ProgressStep(s, steps[0], uid, base, Seconds);
      ProgressStep(s, steps[0], uid, base, Octets);
      ExhaustedStays(s, s1, i, n, uid);
      BarredStep(s, steps[0], i, n, r0);
      BarredRun(s1, steps[1..], i, n, uid, base, r0);
    }
  }

  lemma {:induction false} NumberedRun(s: State, steps: seq<Step>)
    requires Numbered(s) && IsRun(s, steps) && (forall a :: a in s.answers ==> a.request < s.nextRequest)
    ensures Numbered(Run(s, steps)) && forall a :: a in Run(s, steps).answers ==> a.request < Run(s, steps).nextRequest
    decreases |steps|
  {
    if steps != [] {
      NumberedStep(s, steps[0]);
      NumberedRun(Apply(s, steps[0]), steps[1..]);
    }
  }

  lemma NumberedStep(s: State, step: Step)
    requires Numbered(s) && Enabled(s, step) && (forall a :: a in s.answers ==> a.request < s.nextRequest)
    ensures Numbered(Apply(s, step)) && forall a :: a in Apply(s, step).answers ==> a.request < Apply(s, step).nextRequest
  {
  }

  /** Main result. From the moment a voucher's cached usage reaches its time limit or data
      cap at a process, every request that reads the cache there from then on is rejected,
      in every continuation of the run: whatever stale lists are merged in whatever order,
      whatever the database says, and however late the voucher is disabled. */
  lemma ExhaustedMeansRejectedForever(s0: State, steps: seq<Step>, s: State, more: seq<Step>, s': State,
                                      i: nat, n: string, uid: string)
    requires Init(s0) && uid in s0.db.users && IsRun(s0, steps) && s == Run(s0, steps)
    requires i < |s.insts| && Exhausted(s.insts[i].mem, n) && s.insts[i].mem.subscribers[n].id == uid
    requires IsRun(s, more) && s' == Run(s, more) && FitsInt64(s', uid, s0.db.users[uid].usage)
    ensures i < |s'.insts| && Exhausted(s'.insts[i].mem, n)
    ensures forall a :: a in s'.answers && a.request >= s.nextRequest && a.inst == i && a.username == n ==> a.reply == Reject
  {
    var base := s0.db.users[uid].usage;
    InitKept(s0, uid);
    KeptRun(s0, steps, uid, base);
    NumberedRun(s0, steps);
    BarredRun(s, more, i, n, uid, base, s.nextRequest);
  }

  // ----- disabled means rejected, from then on -----

  /** A cached user that is disabled stays cached and disabled. */
  ghost predicate StaysOff(before: Mem, after: Mem) {
    forall n :: n in before.subscribers && !before.subscribers[n].enabled ==>
      n in after.subscribers && !after.subscribers[n].enabled
  }

  /** No cache and no row goes from disabled to enabled. */
  ghost predicate NothingEnables(s: State, s': State) {
    && |s.insts| == |s'.insts|
    && (forall i :: 0 <= i < |s.insts| ==> StaysOff(s.insts[i].mem, s'.insts[i].mem))
    && (forall id :: id in s.db.users && !s.db.users[id].enabled ==> id in s'.db.users && !s'.db.users[id].enabled)
  }

  lemma RefreshStaysOff(inst: Instance, l: Listing, db: Db)
    requires RootedDb(db) && RootedInstance(inst, db) && l in inst.listings
    ensures StaysOff(inst.mem, Refresh(inst.mem, l))
  {
    forall n | n in inst.mem.subscribers && !inst.mem.subscribers[n].enabled
      ensures n in Refresh(inst.mem, l).subscribers && !Refresh(inst.mem, l).subscribers[n].enabled
    {
      var j := RefreshedUser(inst.mem, l, db, n);
    }
  }

  lemma MarkStaysOff(m: Mem, n: string, u: User, now: Time)
    ensures StaysOff(m, MarkCached(m, n, u, now).mem)
  {
  }

  lemma AuthStaysOff(m: Mem, n: string, passwordOk: bool, now: Time)
    ensures StaysOff(m, AuthEffect(m, n, passwordOk, now).mem)
  {
  }

  lemma AccountStaysOff(m: Mem, id: string, r: Report, stop: bool, now: Time)
    requires id in m.sessions
    ensures StaysOff(m, AcctUpdate(m, id, r, stop, now).mem)
  {
  }

  lemma SectionStaysOff(s: State, step: Step)
    requires Population(s) && Enabled(s, step) && !step.Flush?
    ensures StaysOff(s.insts[Actor(s, step)].mem, Section(s, step).mem)
  {
    var inst := s.insts[Actor(s, step)];
    match step
    case MergeLists(_, k) =>
      assert RootedInstance(inst, s.db);
      RefreshStaysOff(inst, inst.listings[k], s.db);
    case Authenticate(_, n, passwordOk, now, _) => AuthStaysOff(inst.mem, n, passwordOk, now);
    case AuthMark(r, now) => MarkStaysOff(inst.mem, s.requests[r].username, s.requests[r].user, now);
    case Account(_, id, r, stop, now) => AccountStaysOff(inst.mem, id, r, stop, now);
    case _ =>
  }

  lemma NothingEnablesStep(s: State, step: Step)
    requires Population(s) && Enabled(s, step)
    ensures NothingEnables(s, Apply(s, step))
  {
    if step.Flush? {
      LandStaysOff(s, step.k, step.now);
    } else {
      SectionStaysOff(s, step);
      CommitStaysOff(s, Act(s, step));
    }
  }

  lemma LandStaysOff(s: State, k: nat, now: Time)
    requires k < |s.pending|
    ensures NothingEnables(s, Land(s, k, now))
  {
  }

  lemma CommitStaysOff(s: State, o: Outcome)
    requires o.actor < |s.insts| && StaysOff(s.insts[o.actor].mem, o.inst.mem)
    ensures NothingEnables(s, Commit(s, o))
  {
  }

  lemma NothingEnablesTransitive(a: State, b: State, c: State)
    requires NothingEnables(a, b) && NothingEnables(b, c)
    ensures NothingEnables(a, c)
  {
    forall i | 0 <= i < |a.insts| ensures StaysOff(a.insts[i].mem, c.insts[i].mem) {
      assert StaysOff(a.insts[i].mem, b.insts[i].mem) && StaysOff(b.insts[i].mem, c.insts[i].mem);
    }
  }

  lemma {:induction false} DisabledRun(s: State, steps: seq<Step>, i: nat, n: string, r0: nat)
    requires Population(s) && Numbered(s) && IsRun(s, steps) && Barred(s, i, n, r0)
    requires i < |s.insts| && n in s.insts[i].mem.subscribers && !s.insts[i].mem.subscribers[n].enabled
    ensures NothingEnables(s, Run(s, steps)) && Barred(Run(s, steps), i, n, r0)
    decreases |steps|
  {
    if steps != [] {
      var s1 := Apply(s, steps[0]);
      PopulationStep(s, steps[0]);
      NothingEnablesStep(s, steps[0]);
      assert StaysOff(s.insts[i].mem, s1.insts[i].mem);
      BarredStep(s, steps[0], i, n, r0);
      DisabledRun(s1, steps[1..], i, n, r0);
      NothingEnablesTransitive(s, s1, Run(s1, steps[1..]));
    }
  }

  /** Main result. A user disabled in memory is rejected by every later request at that
      process, and no refresh ever enables it again there, nor any statement its row. */
  lemma DisabledMeansRejectedForever(s0: State, steps: seq<Step>, s: State, more: seq<Step>, s': State, i: nat, n: string)
    requires Init(s0) && IsRun(s0, steps) && s == Run(s0, steps)
    requires i < |s.insts| && n in s.insts[i].mem.subscribers && !s.insts[i].mem.subscribers[n].enabled
    requires IsRun(s, more) && s' == Run(s, more)
    ensures NothingEnables(s, s')
    ensures forall a :: a in s'.answers && a.request >= s.nextRequest && a.inst == i && a.username == n ==> a.reply == Reject
  {
    PopulationRun(s0, steps);
    NumberedRun(s0, steps);
    DisabledRun(s, more, i, n, s.nextRequest);
  }

  /** A refused voucher is disabled in memory at once, and its row once the statement that
      the refusal leaves behind has landed; so a refusal is final. */
  lemma RefusalDisables(m: Mem, n: string, now: Time, db: Db, later: Time)
    requires Admitted(m, n, true) && Refused(MarkSnapshot(m.subscribers[n], now), now) && m.subscribers[n].id in db.users
    ensures var e := AuthEffect(m, n, true, now);
            && n in e.mem.subscribers && !e.mem.subscribers[n].enabled
            && (exists k :: 0 <= k < |e.writes| && !Execute(db, e.writes[k], later).users[m.subscribers[n].id].enabled)
  {
    var writes := AuthEffect(m, n, true, now).writes;
    assert writes[|writes| - 1] == Disable(m.subscribers[n].id);
  }
}
