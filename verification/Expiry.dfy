/** How long a calendar voucher can be used: what a process accepts, exactly when its limit
    holds from some moment on, and how it is overstayed otherwise (internal/radius/auth.go). */
module Expiry {
  import opened Domain
  import opened Counters
  import opened ServerSpec
  import opened Database
  import opened Cluster
  import opened Applied
  import opened PopulationLaws
  import opened Metering
  import opened Calendar

  // ----- one request -----

  /** The voucher passes everything but its calendar limit. */
  predicate OtherwiseFine(m: Mem, n: string) {
    && n in m.subscribers && m.subscribers[n].enabled && !UsedUp(m.subscribers[n])
    && !TooManySessions(m.sessions, n, m.subscribers[n])
  }

  /** Exactly when a process accepts such a voucher: it knows of no first login, or the
      limit has not passed since the one it knows of. */
  lemma AcceptsIff(m: Mem, n: string, now: Time)
    requires OtherwiseFine(m, n) && IsCalendar(m.subscribers[n].plan) && Paired(m.subscribers[n])
    ensures AuthReply(m, n, true, now, true).Accept?
       <==> m.subscribers[n].firstLogin.None?
            || now <= m.subscribers[n].firstLogin.value + m.subscribers[n].plan.limitSeconds * SECOND
  {
  }

  /** The time granted by an Accept of a calendar voucher: whole seconds up to the expiry,
      and nothing at all on the first login, so that the first session is not bounded. */
  lemma GrantEndsByExpiry(m: Mem, n: string, now: Time, encoded: bool)
    requires n in m.subscribers && Paired(m.subscribers[n]) && EffectiveTimeout(m.subscribers[n]) == 0
    requires var u := m.subscribers[n];
             && IsCalendar(u.plan) && u.plan.limitSeconds <= INT32_MAX
             && (u.firstLogin.Some? ==> u.firstLogin.value <= now)
    requires AuthReply(m, n, true, now, encoded).Accept?
    ensures var u, granted := m.subscribers[n], AuthReply(m, n, true, now, encoded).timeouts;
            && (granted == [] <==> u.firstLogin.None? || u.expires.value < now + SECOND)
            && (granted != [] ==>
                  |granted| == 1 && now + granted[0] * SECOND <= u.expires.value < now + (granted[0] + 1) * SECOND)
  {
    var u := m.subscribers[n];
    if u.firstLogin.Some? {
      var left := u.expires.value - now;
      assert !Expired(u, now) && 0 <= left <= u.plan.limitSeconds * SECOND;
      assert left == left / SECOND * SECOND + left % SECOND;
    }
  }

  /** Exactly when a request moves a first login that is cached: its own copy has none. */
  lemma MarkMovesIff(m: Mem, n: string, u: User, now: Time)
    requires n in m.subscribers && m.subscribers[n].firstLogin.Some? && m.subscribers[n].firstLogin.value != now
    requires u.plan.isVoucher
    ensures n in MarkCached(m, n, u, now).mem.subscribers
    ensures MarkCached(m, n, u, now).mem.subscribers[n].firstLogin != m.subscribers[n].firstLogin <==> u.firstLogin.None?
    ensures u.firstLogin.None? ==> MarkCached(m, n, u, now).mem.subscribers[n].firstLogin == Some(now)
  {
  }

  // ----- what moves a cached first login -----

  /** The first login of user `n`, if cached, is neither forgotten nor changed. */
  predicate KeepsLogin(before: Mem, after: Mem, n: string) {
    n in before.subscribers ==>
      && n in after.subscribers && after.subscribers[n].plan == before.subscribers[n].plan
      && (before.subscribers[n].firstLogin.Some? ==> after.subscribers[n].firstLogin == before.subscribers[n].firstLogin)
  }

  lemma RefreshKeepsLogin(inst: Instance, l: Listing, db: Db, n: string)
    requires RootedDb(db) && RootedInstance(inst, db) && l in inst.listings
    ensures KeepsLogin(inst.mem, Refresh(inst.mem, l), n)
  {
    if n in inst.mem.subscribers {
      var j := RefreshedUser(inst.mem, l, db, n);
      assert Rooted(inst.mem.subscribers[n], n, db);
    }
  }

  lemma AuthKeepsLogin(m: Mem, user: string, passwordOk: bool, now: Time, n: string)
    ensures KeepsLogin(m, AuthEffect(m, user, passwordOk, now).mem, n)
  {
  }

  lemma AccountKeepsLogin(m: Mem, id: string, r: Report, stop: bool, now: Time, n: string)
    requires id in m.sessions
    ensures KeepsLogin(m, AcctUpdate(m, id, r, stop, now).mem, n)
  {
  }

  lemma MarkKeepsLogin(m: Mem, user: string, u: User, now: Time, n: string)
    requires user != n || !IsFirstLogin(u)
    ensures KeepsLogin(m, MarkCached(m, user, u, now).mem, n)
  {
  }

  /** The step marks user `n` at process `i` for a request whose copy has no first login. */
  predicate MarksAnew(s: State, step: Step, i: nat, n: string) {
    && step.AuthMark? && step.request in s.requests
    && (var r := s.requests[step.request]; r.inst == i && r.username == n && IsFirstLogin(r.user))
  }

  /** Nothing else moves it. */
  lemma SectionKeepsLogin(s: State, step: Step, n: string)
    requires Population(s) && Enabled(s, step) && !step.Flush? && !MarksAnew(s, step, Actor(s, step), n)
    ensures KeepsLogin(s.insts[Actor(s, step)].mem, Section(s, step).mem, n)
  {
    var inst := s.insts[Actor(s, step)];
    match step
    case MergeLists(_, k) =>
      assert RootedInstance(inst, s.db);
      RefreshKeepsLogin(inst, inst.listings[k], s.db, n);
    case Authenticate(_, user, passwordOk, now, _) => AuthKeepsLogin(inst.mem, user, passwordOk, now, n);
    case Account(_, id, r, stop, now) => AccountKeepsLogin(inst.mem, id, r, stop, now, n);
    case AuthMark(r, now) => MarkKeepsLogin(inst.mem, s.requests[r].username, s.requests[r].user, now, n);
    case _ =>
  }

  lemma LoginKept(s: State, step: Step, i: nat, n: string)
    requires Population(s) && Enabled(s, step) && i < |s.insts| && !MarksAnew(s, step, i, n)
    ensures i < |Apply(s, step).insts| && KeepsLogin(s.insts[i].mem, Apply(s, step).insts[i].mem, n)
  {
    if step.Flush? || Actor(s, step) != i {
      OthersUntouched(s, step, i);
    } else {
      SectionKeepsLogin(s, step, n);
    }
  }

  // ----- from when on the limit holds -----

  predicate IsRequestOf(r: Request, i: nat, n: string) { r.inst == i && r.username == n }

  /** The process caches a first login of the calendar voucher, with this expiry. */
  predicate ExpiresAt(s: State, i: nat, n: string, expiry: Time) {
    && i < |s.insts| && n in s.insts[i].mem.subscribers
    && (var u := s.insts[i].mem.subscribers[n];
        IsCalendar(u.plan) && u.firstLogin.Some? && expiry == u.firstLogin.value + u.plan.limitSeconds * SECOND)
  }

  /** Every open request of the voucher carries an expiry, none later than this one. */
  ghost predicate GuardedCopies(rs: map<nat, Request>, i: nat, n: string, expiry: Time) {
    forall r :: r in rs && IsRequestOf(rs[r], i, n) ==> rs[r].user.expires.Some? && rs[r].user.expires.value <= expiry
  }

  ghost predicate Guarded(s: State, i: nat, n: string, expiry: Time) { GuardedCopies(s.requests, i, n, expiry) }

  predicate IsLate(a: Answer, i: nat, n: string, expiry: Time) {
    a.inst == i && a.username == n && a.reply.Accept? && a.at > expiry
  }

  /** None of the answers from `from` on accepts the voucher after the expiry. */
  ghost predicate NoneLate(s: State, from: nat, i: nat, n: string, expiry: Time) {
    forall k :: from <= k < |s.answers| ==> !IsLate(s.answers[k], i, n, expiry)
  }

  lemma CopyHasLogin(s: State, k: nat, i: nat, n: string, expiry: Time)
    requires PairedState(s) && Population(s) && ExpiresAt(s, i, n, expiry) && Guarded(s, i, n, expiry)
    requires k in s.requests && IsRequestOf(s.requests[k], i, n)
    ensures s.requests[k].user.firstLogin.Some?
  {
    assert RootedInstance(s.insts[i], s.db);
    assert Rooted(s.requests[k].user, n, s.db) && Rooted(s.insts[i].mem.subscribers[n], n, s.db);
    assert PairedCopy(s.requests[k]);
  }

  lemma GuardedNoneAnew(s: State, step: Step, i: nat, n: string, expiry: Time)
    requires PairedState(s) && Population(s) && ExpiresAt(s, i, n, expiry) && Guarded(s, i, n, expiry) && Enabled(s, step)
    ensures !MarksAnew(s, step, i, n)
  {
    if step.AuthMark? && IsRequestOf(s.requests[step.request], i, n) {
      CopyHasLogin(s, step.request, i, n, expiry);
    }
  }

  lemma ExpiryStays(s: State, step: Step, i: nat, n: string, expiry: Time)
    requires PairedState(s) && Population(s) && ExpiresAt(s, i, n, expiry) && Guarded(s, i, n, expiry) && Enabled(s, step)
    ensures ExpiresAt(Apply(s, step), i, n, expiry)
  {
    GuardedNoneAnew(s, step, i, n, expiry);
    LoginKept(s, step, i, n);
  }

  lemma CachedCopyIsGuarded(s: State, i: nat, n: string, expiry: Time)
    requires PairedState(s) && ExpiresAt(s, i, n, expiry)
    ensures s.insts[i].mem.subscribers[n].expires == Some(expiry)
  {
    assert PairedInstance(s.insts[i]);
  }

  lemma GuardStays(s: State, step: Step, i: nat, n: string, expiry: Time)
    requires PairedState(s) && Population(s) && ExpiresAt(s, i, n, expiry) && Guarded(s, i, n, expiry) && Enabled(s, step)
    ensures GuardedCopies(NextRequests(s, step), i, n, expiry)
  {
    if step.AuthRead? {
      CachedCopyIsGuarded(s, i, n, expiry);
    } else if step.AuthMark? && IsRequestOf(s.requests[step.request], i, n) {
      CopyHasLogin(s, step.request, i, n, expiry);
    }
  }

  lemma AnswersInTime(s: State, step: Step, i: nat, n: string, expiry: Time)
    requires PairedState(s) && Population(s) && ExpiresAt(s, i, n, expiry) && Guarded(s, i, n, expiry) && Enabled(s, step)
    ensures forall a :: a in NewAnswers(s, step) ==> !IsLate(a, i, n, expiry)
  {
    if step.Authenticate? {
      assert PairedInstance(s.insts[step.inst]);
    } else if step.AuthDecide? {
      var r := s.requests[step.request];
      assert Rooted(r.user, r.username, s.db);
      assert RootedInstance(s.insts[i], s.db) && Rooted(s.insts[i].mem.subscribers[n], n, s.db);
    }
  }

  lemma GuardedStep(s: State, step: Step, from: nat, i: nat, n: string, expiry: Time)
    requires PairedState(s) && Population(s) && ExpiresAt(s, i, n, expiry) && Guarded(s, i, n, expiry) && Enabled(s, step)
    requires NoneLate(s, from, i, n, expiry)
    ensures ExpiresAt(Apply(s, step), i, n, expiry) && Guarded(Apply(s, step), i, n, expiry)
    ensures NoneLate(Apply(s, step), from, i, n, expiry)
  {
    ExpiryStays(s, step, i, n, expiry);
    if !step.Flush? {
      GuardStays(s, step, i, n, expiry);
      AnswersInTime(s, step, i, n, expiry);
      CommitGuards(s, Act(s, step), from, i, n, expiry);
    }
  }

  lemma CommitGuards(s: State, o: Outcome, from: nat, i: nat, n: string, expiry: Time)
    requires o.actor < |s.insts| && NoneLate(s, from, i, n, expiry)
    requires forall a :: a in o.answers ==> !IsLate(a, i, n, expiry)
    requires GuardedCopies(o.requests, i, n, expiry)
    ensures Guarded(Commit(s, o), i, n, expiry) && NoneLate(Commit(s, o), from, i, n, expiry)
  {
  }

  lemma {:induction false} GuardedRun(s: State, steps: seq<Step>, from: nat, i: nat, n: string, expiry: Time)
    requires PairedState(s) && Population(s) && ExpiresAt(s, i, n, expiry) && Guarded(s, i, n, expiry)
    requires NoneLate(s, from, i, n, expiry) && IsRun(s, steps)
    ensures ExpiresAt(Run(s, steps), i, n, expiry) && NoneLate(Run(s, steps), from, i, n, expiry)
    decreases |steps|
  {
    if steps != [] {
      PopulationStep(s, steps[0]);
      PairedStep(s, steps[0]);
      GuardedStep(s, steps[0], from, i, n, expiry);
      GuardedRun(Apply(s, steps[0]), steps[1..], from, i, n, expiry);
    }
  }

  /** Main result. Once a first login is cached and every open request of the voucher carries
      an expiry no later than the cached one, no request is ever accepted after it, in every
      continuation, however requests, refreshes and other processes interleave; and the first
      login never moves again. */
  lemma NoAcceptAfterTheLimit(s0: State, steps: seq<Step>, s: State, more: seq<Step>, s': State,
                              i: nat, n: string, expiry: Time)
    requires Init(s0) && PairedAtStart(s0) && IsRun(s0, steps) && s == Run(s0, steps)
    requires ExpiresAt(s, i, n, expiry) && Guarded(s, i, n, expiry)
    requires IsRun(s, more) && s' == Run(s, more)
    ensures ExpiresAt(s', i, n, expiry) && NoneLate(s', |s.answers|, i, n, expiry)
  {
    InitPaired(s0);
    PairedRun(s0, steps);
    GuardedRun(s, more, |s.answers|, i, n, expiry);
  }

  // ----- and only then -----

  /** The request's copy passes everything but the calendar limit. */
  predicate FineCopy(s: State, k: nat, i: nat, n: string) {
    && k in s.requests && IsRequestOf(s.requests[k], i, n) && i < |s.insts|
    && IsCalendar(s.requests[k].user.plan) && !UsedUp(s.requests[k].user)
    && !TooManySessions(s.insts[i].mem.sessions, n, s.requests[k].user)
  }

  predicate AcceptedLast(s: State, k: nat, i: nat, n: string, at: Time) {
    s.answers != [] && var a := s.answers[|s.answers| - 1];
    a.request == k && a.inst == i && a.username == n && a.reply.Accept? && a.at == at
  }

  /** A request that is not expired at `at` is accepted then. */
  lemma DecideAccepts(s: State, k: nat, i: nat, n: string, at: Time) returns (s': State)
    requires FineCopy(s, k, i, n) && s.requests[k].marked && !Expired(s.requests[k].user, at)
    ensures Enabled(s, AuthDecide(k, at, true)) && s' == Apply(s, AuthDecide(k, at, true))
    ensures s'.insts == s.insts && |s'.answers| == |s.answers| + 1 && AcceptedLast(s', k, i, n, at)
  {
    s' := DecideApplied(s, AuthDecide(k, at, true));
  }

  /** What an open request still has to do. */
  function Rest(k: nat, r: Request, at: Time): seq<Step> {
    if r.marked then [AuthDecide(k, at, true)] else [AuthMark(k, at), AuthDecide(k, at, true)]
  }

  /** A request whose copy has no expiry, or one not before `at`, is accepted at `at`; when
      the copy has no first login it moves the cached one to `at`. */
  lemma RestAccepts(s: State, k: nat, i: nat, n: string, at: Time) returns (s': State)
    requires FineCopy(s, k, i, n) && PairedCopy(s.requests[k]) && n in s.insts[i].mem.subscribers
    requires s.requests[k].user.expires.Some? ==> at <= s.requests[k].user.expires.value
    ensures IsRun(s, Rest(k, s.requests[k], at)) && s' == Run(s, Rest(k, s.requests[k], at))
    ensures |s'.answers| == |s.answers| + 1 && AcceptedLast(s', k, i, n, at)
    ensures |s'.insts| == |s.insts| && n in s'.insts[i].mem.subscribers
    ensures s.requests[k].user.firstLogin.None? ==> s'.insts[i].mem.subscribers[n].firstLogin == Some(at)
  {
    var r := s.requests[k];
    if r.marked {
      s' := DecideAccepts(s, k, i, n, at);
      RunOne(s, AuthDecide(k, at, true));
    } else {
      var s1 := MarkApplied(s, AuthMark(k, at));
      s' := DecideAccepts(s1, k, i, n, at);
      RunTwo(s, AuthMark(k, at), AuthDecide(k, at, true));
    }
  }

  /** Exactly when the limit can still be overstayed: an open request whose copy is otherwise
      fine carries no expiry, or a later one. Such a request makes a late accept possible. */
  lemma UnguardedOverstays(s: State, k: nat, i: nat, n: string, expiry: Time) returns (late: seq<Step>, s': State)
    requires PairedState(s) && ExpiresAt(s, i, n, expiry) && FineCopy(s, k, i, n)
    requires s.requests[k].user.expires.None? || s.requests[k].user.expires.value > expiry
    ensures IsRun(s, late) && s' == Run(s, late) && !NoneLate(s', |s.answers|, i, n, expiry)
  {
    var u := s.requests[k].user;
    var at := if u.expires.Some? then u.expires.value else expiry + 1;
    late := Rest(k, s.requests[k], at);
    s' := RestAccepts(s, k, i, n, at);
    assert IsLate(s'.answers[|s.answers|], i, n, expiry);
  }

  /** So, when all open copies are otherwise fine, the cached limit holds in every
      continuation if and only if all of them carry an expiry no later than the cached one. */
  lemma LimitHoldsIff(s: State, i: nat, n: string, expiry: Time)
    requires PairedState(s) && Population(s) && ExpiresAt(s, i, n, expiry)
    requires forall k :: k in s.requests && IsRequestOf(s.requests[k], i, n) ==> FineCopy(s, k, i, n)
    ensures Guarded(s, i, n, expiry) <==>
              forall steps :: IsRun(s, steps) ==> NoneLate(Run(s, steps), |s.answers|, i, n, expiry)
  {
    if Guarded(s, i, n, expiry) {
      forall steps | IsRun(s, steps) ensures NoneLate(Run(s, steps), |s.answers|, i, n, expiry) {
        GuardedRun(s, steps, |s.answers|, i, n, expiry);
      }
    } else {
      var k :| k in s.requests && IsRequestOf(s.requests[k], i, n)
            && !(s.requests[k].user.expires.Some? && s.requests[k].user.expires.value <= expiry);
      var late, s' := UnguardedOverstays(s, k, i, n, expiry);
    }
  }

  /** A voucher nobody has used yet passes everything. */
  predicate Unused(m: Mem, n: string) {
    && OtherwiseFine(m, n) && IsCalendar(m.subscribers[n].plan)
    && m.subscribers[n].firstLogin == None && m.subscribers[n].expires == None
  }

  predicate LoginIs(m: Mem, n: string, at: Time) { n in m.subscribers && m.subscribers[n].firstLogin == Some(at) }

  /** Requests `k` and `k + 1` hold the same copy and have recorded nothing. */
  predicate BothRead(s: State, k: nat, i: nat, n: string, u: User) {
    && k in s.requests && k + 1 in s.requests
    && s.requests[k] == Request(i, n, u, false) && s.requests[k + 1] == Request(i, n, u, false)
  }

  /** Two requests read the voucher one after the other. */
  lemma ReadTwice(s: State, i: nat, n: string, now: Time) returns (s': State)
    requires i < |s.insts| && Admitted(s.insts[i].mem, n, true)
    ensures LeadsTo(s, s') && s'.insts == s.insts
    ensures BothRead(s', s.nextRequest, i, n, s.insts[i].mem.subscribers[n])
  {
    var read := AuthRead(i, n, true, now);
    var middle := ReadApplied(s, read);
    s' := ReadApplied(middle, read);
    RunTwo(s, read, read);
  }

  /** The first of them records the login. */
  lemma FirstMarks(s: State, k: nat, i: nat, n: string, t0: Time) returns (s': State)
    requires i < |s.insts| && Unused(s.insts[i].mem, n) && BothRead(s, k, i, n, s.insts[i].mem.subscribers[n])
    ensures LeadsTo(s, s') && FineCopy(s', k + 1, i, n) && LoginIs(s'.insts[i].mem, n, t0)
    ensures s'.requests[k + 1] == s.requests[k + 1]
  {
    s' := MarkApplied(s, AuthMark(k, t0));
    RunOne(s, AuthMark(k, t0));
  }

  lemma OneMarksOneWaits(s: State, i: nat, n: string, t0: Time) returns (s': State)
    requires i < |s.insts| && Unused(s.insts[i].mem, n)
    ensures LeadsTo(s, s') && FineCopy(s', s.nextRequest + 1, i, n) && LoginIs(s'.insts[i].mem, n, t0)
    ensures s'.requests[s.nextRequest + 1] == Request(i, n, s.insts[i].mem.subscribers[n], false)
  {
    var s1 := ReadTwice(s, i, n, t0);
    s' := FirstMarks(s1, s.nextRequest, i, n, t0);
    LeadsThen(s, s1, s');
  }

  /** From every state in which the voucher is unused: two requests read it, the first one
      records its login at `t0`, and the second one is accepted at any time `t1` and makes
      that the first login. */
  lemma RacingRequestsRestartTheWindow(s: State, i: nat, n: string, t0: Time, t1: Time) returns (s1: State, s2: State)
    requires i < |s.insts| && Unused(s.insts[i].mem, n)
    ensures LeadsTo(s, s1) && i < |s1.insts| && LoginIs(s1.insts[i].mem, n, t0)
    ensures LeadsTo(s1, s2) && i < |s2.insts| && LoginIs(s2.insts[i].mem, n, t1)
    ensures AcceptedLast(s2, s.nextRequest + 1, i, n, t1)
  {
    s1 := OneMarksOneWaits(s, i, n, t0);
    s2 := RestAccepts(s1, s.nextRequest + 1, i, n, t1);
    RunLeads(s1, Rest(s.nextRequest + 1, s1.requests[s.nextRequest + 1], t1));
  }

  // ----- requests one at a time -----

  /** No request of the voucher at this process is handled in interleaved pieces. */
  ghost predicate OneAtATime(steps: seq<Step>, i: nat, n: string) {
    forall k :: 0 <= k < |steps| && steps[k].AuthRead? ==> steps[k].inst != i || steps[k].username != n
  }

  ghost predicate NoneOpen(rs: map<nat, Request>, i: nat, n: string) {
    forall r :: r in rs ==> !IsRequestOf(rs[r], i, n)
  }

  function Window(p: Plan): int { Max(0, p.limitSeconds * SECOND) }

  /** The time lies inside the window that the process caches for the voucher. */
  predicate InWindow(m: Mem, n: string, at: Time) {
    n in m.subscribers &&
    var u := m.subscribers[n];
    IsCalendar(u.plan) ==> u.firstLogin.Some? && at <= u.firstLogin.value + Window(u.plan)
  }

  /** Every accept of the voucher at the process fell inside that window. */
  ghost predicate Timely(s: State, i: nat, n: string) {
    forall a :: a in s.answers && a.inst == i && a.username == n && a.reply.Accept? ==>
      i < |s.insts| && InWindow(s.insts[i].mem, n, a.at)
  }

  /** An accept leaves the cache with a first login whose window contains it. */
  lemma AcceptIsTimely(m: Mem, n: string, passwordOk: bool, now: Time, encoded: bool)
    requires PairedMem(m) && AuthReply(m, n, passwordOk, now, encoded).Accept?
    ensures InWindow(AuthEffect(m, n, passwordOk, now).mem, n, now)
  {
  }

  lemma CommitKeepsTimely(s: State, o: Outcome, i: nat, n: string)
    requires Timely(s, i, n) && o.actor < |s.insts| && i < |s.insts|
    requires o.actor == i ==> KeepsLogin(s.insts[i].mem, o.inst.mem, n)
    requires forall a :: a in o.answers && a.inst == i && a.username == n && a.reply.Accept? ==>
               o.actor == i && InWindow(o.inst.mem, n, a.at)
    requires NoneOpen(o.requests, i, n)
    ensures Timely(Commit(s, o), i, n) && NoneOpen(Commit(s, o).requests, i, n)
  {
  }

  lemma NoneOpens(s: State, step: Step, i: nat, n: string)
    requires Enabled(s, step) && NoneOpen(s.requests, i, n) && (step.AuthRead? ==> step.inst != i || step.username != n)
    ensures NoneOpen(NextRequests(s, step), i, n)
  {
  }

  lemma AnswersTimely(s: State, step: Step, i: nat, n: string)
    requires PairedState(s) && Enabled(s, step) && !step.Flush? && NoneOpen(s.requests, i, n)
    ensures forall a :: a in NewAnswers(s, step) && a.inst == i && a.username == n && a.reply.Accept? ==>
              Actor(s, step) == i && InWindow(Section(s, step).mem, n, a.at)
  {
    if step.Authenticate? && NewAnswers(s, step)[0].reply.Accept? {
      assert PairedInstance(s.insts[step.inst]);
      AcceptIsTimely(s.insts[step.inst].mem, step.username, step.passwordOk, step.now, step.encoded);
    }
  }

  lemma TimelyStep(s: State, step: Step, i: nat, n: string)
    requires Population(s) && PairedState(s) && Enabled(s, step) && i < |s.insts|
    requires NoneOpen(s.requests, i, n) && (step.AuthRead? ==> step.inst != i || step.username != n) && Timely(s, i, n)
    ensures NoneOpen(Apply(s, step).requests, i, n) && Timely(Apply(s, step), i, n)
  {
    if !step.Flush? {
      NoneOpens(s, step, i, n);
      if Actor(s, step) == i {
        SectionKeepsLogin(s, step, n);
      }
      AnswersTimely(s, step, i, n);
      CommitKeepsTimely(s, Act(s, step), i, n);
    }
  }

  lemma {:induction false} TimelyRun(s: State, steps: seq<Step>, i: nat, n: string)
    requires Population(s) && PairedState(s) && i < |s.insts| && NoneOpen(s.requests, i, n) && Timely(s, i, n)
    requires IsRun(s, steps) && OneAtATime(steps, i, n)
    ensures Timely(Run(s, steps), i, n)
    decreases |steps|
  {
    if steps != [] {
      PopulationStep(s, steps[0]);
      PairedStep(s, steps[0]);
      TimelyStep(s, steps[0], i, n);
      assert forall k :: 0 <= k < |steps[1..]| ==> steps[1..][k] == steps[k + 1];
      TimelyRun(Apply(s, steps[0]), steps[1..], i, n);
    }
  }

  /** When a process handles the requests of a voucher one at a time, all its accepts, from
      the very first, fall inside the window it caches. */
  lemma OneAtATimeIsTimely(s0: State, steps: seq<Step>, i: nat, n: string)
    requires Init(s0) && PairedAtStart(s0) && i < |s0.insts| && IsRun(s0, steps) && OneAtATime(steps, i, n)
    ensures Timely(Run(s0, steps), i, n)
  {
    InitPaired(s0);
    TimelyRun(s0, steps, i, n);
  }

  // ----- two processes -----

  lemma FirstLoginCached(m: Mem, n: string, now: Time)
    requires Unused(m, n)
    ensures var m' := AuthEffect(m, n, true, now).mem;
            n in m'.subscribers && m'.subscribers[n].firstLogin == Some(now)
  {
  }

  /** Across processes the limit does not hold: a second process whose cache has not seen
      the first login accepts the voucher however long after it, and starts a new window. */
  lemma SecondProcessOverstays(s: State, i: nat, j: nat, n: string, t0: Time, t1: Time) returns (s': State)
    requires i < |s.insts| && j < |s.insts| && i != j && Unused(s.insts[i].mem, n) && Unused(s.insts[j].mem, n)
    ensures var first, second := Authenticate(i, n, true, t0, true), Authenticate(j, n, true, t1, true);
            && IsRun(s, [first, second]) && s' == Run(s, [first, second])
            && |s'.answers| == |s.answers| + 2 && |s'.insts| == |s.insts|
            && LoginIs(s'.insts[i].mem, n, t0) && LoginIs(s'.insts[j].mem, n, t1)
            && s'.answers[|s.answers|].reply.Accept? && s'.answers[|s.answers| + 1].reply.Accept?
  {
    var first, second := Authenticate(i, n, true, t0, true), Authenticate(j, n, true, t1, true);
    AcceptsIff(s.insts[i].mem, n, t0);
    AcceptsIff(s.insts[j].mem, n, t1);
    FirstLoginCached(s.insts[i].mem, n, t0);
    FirstLoginCached(s.insts[j].mem, n, t1);
    var s1 := AuthApplied(s, first);
    s' := AuthApplied(s1, second);
    RunTwo(s, first, second);
  }
}
