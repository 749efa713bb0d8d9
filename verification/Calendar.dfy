/** Calendar vouchers: the first login and the expiry always belong together
    (internal/radius/auth.go, service.go). */
module Calendar {
  import opened Domain
  import opened Sums
  import opened Counters
  import opened ServerSpec
  import opened Database
  import opened Cluster
  import opened Metering
  import opened PopulationLaws

  predicate IsCalendar(p: Plan) { p.isVoucher && p.limitType == CalendarLimit }

  /** Both timestamps are missing, or the expiry is the first login plus the limit. */
  predicate Paired(u: User) {
    IsCalendar(u.plan) ==>
      && (u.firstLogin.Some? <==> u.expires.Some?)
      && (u.firstLogin.Some? ==> u.expires.value == u.firstLogin.value + u.plan.limitSeconds * SECOND)
  }

  ghost predicate PairedMem(m: Mem) { forall n :: n in m.subscribers ==> Paired(m.subscribers[n]) }

  ghost predicate PairedRows(rows: seq<User>) { forall j :: 0 <= j < |rows| ==> Paired(rows[j]) }

  ghost predicate PairedInstance(inst: Instance) {
    PairedMem(inst.mem) && forall l :: l in inst.listings ==> PairedRows(l.users)
  }

  /** A first login on its way to the database carries the limit of its row. */
  predicate TrueToPlan(w: Write, db: Db) {
    w.FirstLogin? && w.userId in db.users ==>
      w.limitType == db.users[w.userId].plan.limitType && w.limitSeconds == db.users[w.userId].plan.limitSeconds
  }

  /** A request's copy is paired as it was read; once marked it has a first login, and the
      expiry only if it had one before. */
  predicate PairedCopy(r: Request) {
    IsCalendar(r.user.plan) ==>
      && (r.marked ==> r.user.firstLogin.Some?)
      && (!r.marked ==> Paired(r.user))
      && (r.user.expires.Some? ==> Paired(r.user))
  }

  ghost predicate PairedState(s: State) {
    && (forall r :: r in s.requests ==> PairedCopy(s.requests[r]))
    && (forall id :: id in s.db.users ==> Paired(s.db.users[id]))
    && (forall i :: 0 <= i < |s.insts| ==> PairedInstance(s.insts[i]))
    && (forall w :: w in s.pending ==> TrueToPlan(w, s.db))
  }

  /** The merge takes both timestamps from the same side. */
  lemma MergeKeepsPairs(e: Option<User>, row: User)
    requires Paired(row) && (e.Some? ==> Paired(e.value) && e.value.plan == row.plan)
    ensures Paired(MergeUser(e, row))
  {
  }

  lemma RefreshKeepsPairs(inst: Instance, l: Listing, db: Db)
    requires RootedDb(db) && RootedInstance(inst, db) && PairedInstance(inst) && l in inst.listings
    ensures PairedMem(Refresh(inst.mem, l))
  {
    forall n | n in Refresh(inst.mem, l).subscribers ensures Paired(Refresh(inst.mem, l).subscribers[n]) {
      var j := RefreshedUser(inst.mem, l, db, n);
      var row, e := l.users[j], Get(inst.mem.subscribers, n);
      assert PairedRows(l.users) && Paired(row) && Rooted(row, n, db);
      if e.Some? {
        assert Rooted(e.value, n, db);
      }
      MergeKeepsPairs(e, row);
    }
  }

  /** Recording a first login sets both timestamps of a calendar voucher at once. */
  lemma MarkKeepsPairs(m: Mem, n: string, u: User, now: Time, db: Db)
    requires RootedDb(db) && RootedMem(m, db) && PairedMem(m) && Rooted(u, n, db)
    ensures PairedMem(MarkCached(m, n, u, now).mem)
    ensures forall w :: w in MarkCached(m, n, u, now).writes ==> TrueToPlan(w, db)
  {
  }

  lemma AuthKeepsPairs(m: Mem, n: string, passwordOk: bool, now: Time, db: Db)
    requires RootedDb(db) && RootedMem(m, db) && PairedMem(m)
    ensures PairedMem(AuthEffect(m, n, passwordOk, now).mem)
    ensures forall w :: w in AuthEffect(m, n, passwordOk, now).writes ==> TrueToPlan(w, db)
  {
  }

  lemma AccountKeepsPairs(m: Mem, id: string, r: Report, stop: bool, now: Time)
    requires PairedMem(m) && id in m.sessions
    ensures PairedMem(AcctUpdate(m, id, r, stop, now).mem)
    ensures forall w :: w in AcctUpdate(m, id, r, stop, now).writes ==> !w.FirstLogin?
  {
  }

  lemma SectionKeepsPairs(s: State, step: Step)
    requires Population(s) && PairedState(s) && Enabled(s, step) && !step.Flush?
    ensures PairedMem(Section(s, step).mem) && forall w :: w in Section(s, step).writes ==> TrueToPlan(w, s.db)
  {
    var inst := s.insts[Actor(s, step)];
    assert RootedInstance(inst, s.db) && PairedInstance(inst);
    match step
    case MergeLists(_, k) => RefreshKeepsPairs(inst, inst.listings[k], s.db);
    case Authenticate(_, n, passwordOk, now, _) => AuthKeepsPairs(inst.mem, n, passwordOk, now, s.db);
    case AuthMark(r, now) => MarkKeepsPairs(inst.mem, s.requests[r].username, s.requests[r].user, now, s.db);
    case Account(_, id, r, stop, now) => AccountKeepsPairs(inst.mem, id, r, stop, now);
    case CleanSessions(_, cutoff, now, order) => NoFirstLogins(inst.mem.sessions, order, now);
    case _ =>
  }

  lemma {:induction false} NoFirstLogins(ss: map<string, Session>, order: seq<string>, now: Time)
    ensures forall w :: w in Upserts(ss, order, now) ==> w.Upsert?
    decreases |order|
  {
    if order != [] {
      NoFirstLogins(ss, order[..|order| - 1], now);
    }
  }

  lemma ReadsStayPaired(s: State, step: Step)
    requires PairedState(s) && Enabled(s, step) && !step.Flush?
    ensures forall l :: l in NextListings(s.insts[Actor(s, step)], step) ==> PairedRows(l.users)
  {
  }

  lemma CopiesStayPaired(s: State, step: Step)
    requires PairedState(s) && Enabled(s, step)
    ensures forall r :: r in NextRequests(s, step) ==> PairedCopy(NextRequests(s, step)[r])
  {
    if step.AuthRead? {
      assert PairedInstance(s.insts[step.inst]);
    }
  }

  lemma ExecuteKeepsPairs(db: Db, w: Write, now: Time, id: string)
    requires RootedDb(db) && TrueToPlan(w, db) && id in db.users && Paired(db.users[id])
    ensures id in Execute(db, w, now).users && Paired(Execute(db, w, now).users[id])
  {
  }

  lemma LandKeepsPairs(s: State, k: nat, now: Time)
    requires Population(s) && PairedState(s) && k < |s.pending|
    ensures PairedState(Land(s, k, now))
  {
    var s', w := Land(s, k, now), s.pending[k];
    assert w in s.pending;
    ExecuteKeepsPopulation(s.db, w, now);
    forall id | id in s'.db.users ensures Paired(s'.db.users[id]) {
      ExecuteKeepsPairs(s.db, w, now, id);
    }
    forall v | v in s'.pending ensures TrueToPlan(v, s'.db) {
      RemoveAtMembers(s.pending, k, v);
      assert TrueToPlan(v, s.db);
    }
  }

  lemma CommitKeepsPairs(s: State, o: Outcome)
    requires PairedState(s) && o.actor < |s.insts| && PairedInstance(o.inst)
    requires forall w :: w in o.writes ==> TrueToPlan(w, s.db)
    requires forall r :: r in o.requests ==> PairedCopy(o.requests[r])
    ensures PairedState(Commit(s, o))
  {
  }

  lemma PairedStep(s: State, step: Step)
    requires Population(s) && PairedState(s) && Enabled(s, step)
    ensures PairedState(Apply(s, step))
  {
    if step.Flush? {
      LandKeepsPairs(s, step.k, step.now);
    } else {
      SectionKeepsPairs(s, step);
      ReadsStayPaired(s, step);
      CopiesStayPaired(s, step);
      CommitKeepsPairs(s, Act(s, step));
    }
  }

  lemma {:induction false} PairedRun(s: State, steps: seq<Step>)
    requires Population(s) && PairedState(s) && IsRun(s, steps)
    ensures Population(Run(s, steps)) && PairedState(Run(s, steps))
    decreases |steps|
  {
    if steps != [] {
      PopulationStep(s, steps[0]);
      PairedStep(s, steps[0]);
      PairedRun(Apply(s, steps[0]), steps[1..]);
    }
  }

  /** The vouchers in the rows, and in the caches if they are filled, are paired: new
      vouchers without timestamps are, and so is what an earlier run has left. */
  ghost predicate PairedAtStart(s: State) {
    && (forall id :: id in s.db.users ==> Paired(s.db.users[id]))
    && (forall i :: 0 <= i < |s.insts| ==> PairedMem(s.insts[i].mem))
  }

  lemma InitPaired(s: State)
    requires Init(s) && PairedAtStart(s)
    ensures Population(s) && PairedState(s)
  {
  }

  /** Main result. In every run, in every cache, in every list read and in every row, the
      timestamps of a calendar voucher stay paired, even when requests interleave. */
  lemma CalendarVouchersStayPaired(s0: State, steps: seq<Step>)
    requires Init(s0) && PairedAtStart(s0) && IsRun(s0, steps)
    ensures PairedState(Run(s0, steps))
  {
    InitPaired(s0);
    PairedRun(s0, steps);
  }
}
