/** Voucher metering across processes: the cached counters, the database row and the
    deltas still under way always account for exactly what was charged. */
module Metering {
  import opened Domain
  import opened Sums
  import opened Counters
  import opened ServerSpec
  import opened Database
  import opened Cluster
  import opened Applied
  import opened PopulationLaws

  // ----- counters in session records stay within 64 bits -----

  ghost predicate SaneSessions(ss: map<string, Session>) {
    forall id :: id in ss ==> SaneUsage(Stored(ss[id]))
  }

  ghost predicate SaneRows(rows: seq<Session>) {
    forall j :: 0 <= j < |rows| ==> SaneUsage(Stored(rows[j]))
  }

  ghost predicate SaneWrites(ws: seq<Write>) {
    forall w :: w in ws && w.Upsert? ==> SaneUsage(Stored(w.session))
  }

  ghost predicate SaneState(s: State) {
    && SaneSessions(s.db.sessions)
    && SaneWrites(s.pending)
    && (forall i :: 0 <= i < |s.insts| ==> SaneSessions(s.insts[i].mem.sessions))
    && (forall i :: 0 <= i < |s.insts| ==> forall rows :: rows in s.insts[i].sessionRows ==> SaneRows(rows))
  }

  lemma {:induction false} SaneUpserts(ss: map<string, Session>, order: seq<string>, now: Time)
    requires SaneSessions(ss)
    ensures SaneWrites(Upserts(ss, order, now))
    ensures forall w :: w in Upserts(ss, order, now) ==> w.Upsert?
    decreases |order|
  {
    if order != [] {
      SaneUpserts(ss, order[..|order| - 1], now);
    }
  }

  lemma SaneReconciled(ss: map<string, Session>, rows: seq<Session>)
    requires SaneSessions(ss) && SaneRows(rows)
    ensures SaneSessions(Reconciled(ss, rows))
  {
  }

  /** Marking records, as stale or as stopped, leaves their counters alone. */
  lemma MarkingKeepsCounters(ss: map<string, Session>, cutoff: Time, now: Time, n: string, nas: string, answer: PodAnswer)
    requires SaneSessions(ss)
    ensures SaneSessions(Cleaned(ss, cutoff, now)) && SaneSessions(Answered(ss, n, nas, answer, now))
  {
  }

  lemma UpdateKeepsSane(s: Session, r: Report, stop: bool, now: Time)
    requires Sane(r)
    ensures Stored(UpdateRecord(s, r, stop, now)) == Reported(r) && SaneUsage(Reported(r))
  {
  }

  lemma AccountKeepsSane(m: Mem, id: string, r: Report, stop: bool, now: Time)
    requires SaneSessions(m.sessions) && id in m.sessions && Sane(r)
    ensures SaneSessions(AcctUpdate(m, id, r, stop, now).mem.sessions) && SaneWrites(AcctUpdate(m, id, r, stop, now).writes)
  {
    UpdateKeepsSane(m.sessions[id], r, stop, now);
  }

  lemma SectionKeepsSane(s: State, step: Step)
    requires SaneState(s) && Enabled(s, step) && !step.Flush?
    ensures SaneSessions(Section(s, step).mem.sessions) && SaneWrites(Section(s, step).writes)
  {
    var inst := s.insts[Actor(s, step)];
    var ss := inst.mem.sessions;
    assert SaneSessions(ss);
    if !TouchesSessions(step) {
      SectionKeepsSessions(s, step);
    } else {
      match step
      case Account(_, id, r, stop, now) => AccountKeepsSane(inst.mem, id, r, stop, now);
      case CleanSessions(_, cutoff, now, order) =>
        SaneUpserts(ss, order, now);
        MarkingKeepsCounters(ss, cutoff, now, "", "", Ack);
      case MergeSessions(_, k) =>
        assert inst.sessionRows[k] in inst.sessionRows;
        SaneReconciled(ss, inst.sessionRows[k]);
      case PodAnswered(_, n, nas, answer, now) => MarkingKeepsCounters(ss, now, now, n, nas, answer);
      case StartSession(_, _, _, _, _, _) =>
    }
  }

  lemma CommitKeepsSane(s: State, o: Outcome)
    requires SaneState(s) && o.actor < |s.insts|
    requires SaneSessions(o.inst.mem.sessions) && SaneWrites(o.writes)
    requires forall rows :: rows in o.inst.sessionRows ==> SaneRows(rows)
    ensures SaneState(Commit(s, o))
  {
  }

  lemma LandKeepsSane(s: State, k: nat, now: Time)
    requires SaneState(s) && k < |s.pending|
    ensures SaneState(Land(s, k, now))
  {
  }

  lemma SaneStep(s: State, step: Step)
    requires SaneState(s) && Enabled(s, step)
    ensures SaneState(Apply(s, step))
  {
    if step.Flush? {
      LandKeepsSane(s, step.k, step.now);
    } else {
      SectionKeepsSane(s, step);
      SaneReads(s, step);
      CommitKeepsSane(s, Act(s, step));
    }
  }

  lemma SaneReads(s: State, step: Step)
    requires SaneState(s) && Enabled(s, step) && !step.Flush?
    ensures forall rows :: rows in NextSessionRows(s.insts[Actor(s, step)], step) ==> SaneRows(rows)
  {
  }

  // ----- the ledger of one user -----

  /** What a pending statement adds to user `uid`. */
  function Added(uid: string, d: Dim): Write -> int {
    (w: Write) => if w.AddUsage? && w.userId == uid then w.delta.Of(d) else 0
  }

  function ChargedTo(uid: string, d: Dim): Charge -> int {
    (c: Charge) => if c.userId == uid then c.delta.Of(d) else 0
  }

  function PendingFor(s: State, uid: string, d: Dim): int { Sum(Added(uid, d), s.pending) }

  function ChargesTo(s: State, uid: string, d: Dim): int { Sum(ChargedTo(uid, d), s.charges) }

  /** The database row plus everything that is still on its way to it. */
  function Outstanding(s: State, uid: string, d: Dim): int
    requires uid in s.db.users
  {
    s.db.users[uid].usage.Of(d) + PendingFor(s, uid, d)
  }

  /** The charges so far still fit the usage columns, starting from `base`. */
  ghost predicate InColumns(s: State, uid: string, base: Usage) {
    forall d: Dim :: base.Of(d) + ChargesTo(s, uid, d) <= ColumnMax(d)
  }

  ghost predicate NonNegativeWrites(ws: seq<Write>) {
    forall w, d: Dim :: w in ws && w.AddUsage? ==> w.delta.Of(d) >= 0
  }

  ghost predicate NonNegativeCharges(cs: seq<Charge>) {
    forall c, d: Dim :: c in cs ==> c.delta.Of(d) >= 0
  }

  predicate Within(u: User, uid: string, d: Dim, cap: int) {
    u.id == uid ==> 0 <= u.usage.Of(d) <= cap
  }

  ghost predicate RowsBelow(rows: seq<User>, uid: string, d: Dim, cap: int) {
    forall j :: 0 <= j < |rows| ==> Within(rows[j], uid, d, cap)
  }

  /** Every copy of the user's counter in a process is at most `cap`. */
  ghost predicate Below(inst: Instance, uid: string, d: Dim, cap: int) {
    && (forall n :: n in inst.mem.subscribers ==> Within(inst.mem.subscribers[n], uid, d, cap))
    && (forall l :: l in inst.listings ==> RowsBelow(l.users, uid, d, cap))
  }

  ghost predicate Balanced(s: State, uid: string, base: Usage, d: Dim)
    requires uid in s.db.users
  {
    && Outstanding(s, uid, d) == base.Of(d) + ChargesTo(s, uid, d)
    && 0 <= s.db.users[uid].usage.Of(d)
    && (forall i :: 0 <= i < |s.insts| ==> Below(s.insts[i], uid, d, Outstanding(s, uid, d)))
  }

  ghost predicate Books(s: State, uid: string, base: Usage) {
    && uid in s.db.users && base.seconds >= 0 && base.octets >= 0
    && NonNegativeWrites(s.pending) && NonNegativeCharges(s.charges)
    && (InColumns(s, uid, base) ==> forall d: Dim :: Balanced(s, uid, base, d))
  }

  // ----- what one step charges -----

  function StepCharge(cs: seq<Charge>, uid: string, d: Dim): int { Sum(ChargedTo(uid, d), cs) }

  lemma SumOfOne<T>(f: T -> int, x: T)
    ensures Sum(f, [x]) == f(x)
  {
  }

  /** The charge of a step is never negative, and what it writes is what it charges. */
  lemma WritesMatchCharges(s: State, step: Step, uid: string, d: Dim)
    requires Population(s) && SaneState(s) && Enabled(s, step) && !step.Flush?
    ensures NonNegativeCharges(NewCharges(s, step)) && NonNegativeWrites(Section(s, step).writes)
    ensures StepCharge(NewCharges(s, step), uid, d) == Sum(Added(uid, d), Section(s, step).writes) >= 0
  {
    var ws := Section(s, step).writes;
    if step.Account? {
      AccountWrites(s, step, uid, d);
    } else {
      OnlyAccountingCharges(s, step);
      SumZero(Added(uid, d), ws);
    }
  }

  lemma OnlyAccountingCharges(s: State, step: Step)
    requires SaneState(s) && Enabled(s, step) && !step.Flush? && !step.Account?
    ensures NewCharges(s, step) == [] && forall w :: w in Section(s, step).writes ==> !w.AddUsage?
  {
    if step.CleanSessions? {
      assert SaneSessions(s.insts[step.inst].mem.sessions);
      SaneUpserts(s.insts[step.inst].mem.sessions, step.order, step.now);
    }
  }

  /** The delta of an accounting step is between zero and what was reported. */
  lemma AccountDelta(s: State, step: Step)
    requires SaneState(s) && Enabled(s, step) && step.Account?
    ensures SaneUsage(AcctDelta(s.insts[step.inst].mem, step.id, step.report))
  {
    assert SaneSessions(s.insts[step.inst].mem.sessions);
    SaneDelta(step.report, s.insts[step.inst].mem.sessions[step.id]);
  }

  lemma SaneDelta(r: Report, x: Session)
    requires Sane(r) && SaneUsage(Stored(x))
    ensures SaneUsage(DeltaUsage(Reported(r), Stored(x)))
  {
    SaneReport(r);
    DeltaExact(Reported(r).seconds, Stored(x).seconds);
    DeltaExact(Reported(r).octets, Stored(x).octets);
  }

  lemma AccountWrites(s: State, step: Step, uid: string, d: Dim)
    requires Population(s) && SaneState(s) && Enabled(s, step) && step.Account?
    ensures NonNegativeCharges(NewCharges(s, step)) && NonNegativeWrites(Section(s, step).writes)
    ensures StepCharge(NewCharges(s, step), uid, d) == Sum(Added(uid, d), Section(s, step).writes) >= 0
  {
    var m := s.insts[step.inst].mem;
    var n, delta := m.sessions[step.id].username, AcctDelta(m, step.id, step.report);
    AccountDelta(s, step);
    var upsert := Upsert(UpdateRecord(m.sessions[step.id], step.report, step.stop, step.now));
    SumOfOne(Added(uid, d), upsert);
    if IsMetered(m, n) {
      assert RootedInstance(s.insts[step.inst], s.db);
      assert Rooted(m.subscribers[n], n, s.db);
      OneWriteOneCharge(upsert, Charge(Rec(step.inst, step.id), m.subscribers[n].id, Reported(step.report), delta), uid, d);
    }
  }

  lemma OneWriteOneCharge(upsert: Write, c: Charge, uid: string, d: Dim)
    requires upsert.Upsert?
    ensures StepCharge([c], uid, d) == Sum(Added(uid, d), [upsert] + [AddUsage(c.userId, c.delta)])
                                    == if c.userId == uid then c.delta.Of(d) else 0
  {
    SumOfOne(ChargedTo(uid, d), c);
    SumOfOne(Added(uid, d), upsert);
    SumSnoc(Added(uid, d), [upsert], AddUsage(c.userId, c.delta));
  }

  // ----- every step keeps the books -----

  /** What a step of a process does to the cached counters of one user: an accounting step
      adds its charge, a refresh takes the larger of cache and row, the rest do nothing. */
  lemma CachedUsage(s: State, step: Step, n: string, uid: string, d: Dim, cap: int)
    requires Population(s) && SaneState(s) && Enabled(s, step) && !step.Flush?
    requires cap + StepCharge(NewCharges(s, step), uid, d) <= INT64_MAX
    requires Below(s.insts[Actor(s, step)], uid, d, cap)
    ensures var before, after := s.insts[Actor(s, step)].mem.subscribers, Section(s, step).mem.subscribers;
            && (n in before ==> n in after && after[n].id == before[n].id)
            && (n in after ==> Within(after[n], uid, d, cap + StepCharge(NewCharges(s, step), uid, d)))
            && (n in before && before[n].id == uid ==> after[n].usage.Of(d) >= before[n].usage.Of(d))
  {
    var inst := s.insts[Actor(s, step)];
    WritesMatchCharges(s, step, uid, d);
    assert RootedInstance(inst, s.db);
    if step.Account? {
      CachedUsageAccount(s, step, n, uid, d, cap);
    } else if step.MergeLists? {
      CachedUsageMerge(inst, s.db, inst.listings[step.k], n, uid, d, cap);
    } else {
      SectionKeepsUsage(s, step);
    }
  }

  /** The caches know the same users, with the same plan and counters. */
  ghost predicate SameUsage(before: Mem, after: Mem) {
    && before.subscribers.Keys == after.subscribers.Keys
    && (forall n :: n in before.subscribers ==>
          var b, a := before.subscribers[n], after.subscribers[n];
          a.id == b.id && a.plan == b.plan && a.usage == b.usage)
  }

  lemma AuthKeepsUsage(m: Mem, n: string, passwordOk: bool, now: Time)
    ensures SameUsage(m, AuthEffect(m, n, passwordOk, now).mem)
  {
  }

  lemma SectionKeepsUsage(s: State, step: Step)
    requires Enabled(s, step) && !step.Flush? && !step.Account? && !step.MergeLists?
    ensures SameUsage(s.insts[Actor(s, step)].mem, Section(s, step).mem)
  {
    if step.Authenticate? {
      AuthKeepsUsage(s.insts[step.inst].mem, step.username, step.passwordOk, step.now);
    }
  }

  lemma CachedUsageMerge(inst: Instance, db: Db, l: Listing, n: string, uid: string, d: Dim, cap: int)
    requires RootedDb(db) && RootedInstance(inst, db) && l in inst.listings && Below(inst, uid, d, cap)
    ensures var before, after := inst.mem.subscribers, Refresh(inst.mem, l).subscribers;
            && (n in before ==> n in after && after[n].id == before[n].id && after[n].usage.Of(d) >= before[n].usage.Of(d))
            && (n in after ==> Within(after[n], uid, d, cap))
  {
    var j := RefreshedUser(inst.mem, l, db, n);
    if n in Refresh(inst.mem, l).subscribers {
      assert RowsBelow(l.users, uid, d, cap);
      assert Within(l.users[j], uid, d, cap);
    }
  }

  lemma MeterExact(u: User, delta: Usage, d: Dim)
    requires u.usage.Of(d) >= 0 && delta.Of(d) >= 0 && u.usage.Of(d) + delta.Of(d) <= INT64_MAX
    ensures Meter(u, delta).usage.Of(d) == u.usage.Of(d) + delta.Of(d)
  {
  }

  lemma AccountCharge(s: State, step: Step, uid: string, d: Dim)
    requires Enabled(s, step) && step.Account?
    ensures var m := s.insts[step.inst].mem;
            var n := m.sessions[step.id].username;
            StepCharge(NewCharges(s, step), uid, d)
              == if IsMetered(m, n) && m.subscribers[n].id == uid then AcctDelta(m, step.id, step.report).Of(d) else 0
  {
    if NewCharges(s, step) != [] {
      SumOfOne(ChargedTo(uid, d), NewCharges(s, step)[0]);
    }
  }

  lemma CachedUsageAccount(s: State, step: Step, n: string, uid: string, d: Dim, cap: int)
    requires Population(s) && SaneState(s) && Enabled(s, step) && step.Account?
    requires cap + StepCharge(NewCharges(s, step), uid, d) <= INT64_MAX
    requires Below(s.insts[step.inst], uid, d, cap)
    ensures var before, after := s.insts[step.inst].mem.subscribers, Section(s, step).mem.subscribers;
            && (n in before <==> n in after)
            && (n in after ==> after[n].id == before[n].id)
            && (n in before && before[n].id == uid ==>
                  && 0 <= before[n].usage.Of(d) <= cap
                  && after[n].usage.Of(d) == before[n].usage.Of(d) + StepCharge(NewCharges(s, step), uid, d)
                  && StepCharge(NewCharges(s, step), uid, d) >= 0)
  {
    var m := s.insts[step.inst].mem;
    var charged, delta := m.sessions[step.id].username, AcctDelta(m, step.id, step.report);
    AccountDelta(s, step);
    AccountCharge(s, step, uid, d);
    if n in m.subscribers && m.subscribers[n].id == uid {
      assert Within(m.subscribers[n], uid, d, cap);
      if charged in m.subscribers {
        SameNameSameId(s, step.inst, n, charged);
      }
      if n == charged && IsMetered(m, n) {
        MeterExact(m.subscribers[n], delta, d);
      }
    }
  }

  lemma SameNameSameId(s: State, i: nat, a: string, b: string)
    requires Population(s) && i < |s.insts| && a in s.insts[i].mem.subscribers && b in s.insts[i].mem.subscribers
    ensures s.insts[i].mem.subscribers[a].id == s.insts[i].mem.subscribers[b].id ==> a == b
  {
  }

  lemma ListingsStayBelow(s: State, step: Step, uid: string, d: Dim, cap: int)
    requires Enabled(s, step) && !step.Flush? && uid in s.db.users
    requires 0 <= s.db.users[uid].usage.Of(d) <= cap
    requires Below(s.insts[Actor(s, step)], uid, d, cap)
    ensures forall l :: l in NextListings(s.insts[Actor(s, step)], step) ==> RowsBelow(l.users, uid, d, cap)
  {
  }

  lemma RaiseCap(inst: Instance, uid: string, d: Dim, cap: int, cap': int)
    requires Below(inst, uid, d, cap) && cap <= cap'
    ensures Below(inst, uid, d, cap')
  {
  }

  lemma InstanceStaysBelow(s: State, step: Step, o: Outcome, uid: string, d: Dim, cap: int)
    requires Population(s) && SaneState(s) && Enabled(s, step) && !step.Flush? && uid in s.db.users && o == Act(s, step)
    requires 0 <= s.db.users[uid].usage.Of(d) <= cap && cap + StepCharge(o.charges, uid, d) <= INT64_MAX
    requires Below(s.insts[o.actor], uid, d, cap)
    ensures Below(o.inst, uid, d, cap + StepCharge(o.charges, uid, d))
  {
    var cap' := cap + StepCharge(o.charges, uid, d);
    WritesMatchCharges(s, step, uid, d);
    ListingsStayBelow(s, step, uid, d, cap);
    forall n | n in o.inst.mem.subscribers ensures Within(o.inst.mem.subscribers[n], uid, d, cap') {
      CachedUsage(s, step, n, uid, d, cap);
    }
    forall l | l in o.inst.listings ensures RowsBelow(l.users, uid, d, cap') {
      assert RowsBelow(l.users, uid, d, cap);
    }
  }

  lemma PendingNonNegative(s: State, uid: string, d: Dim)
    requires NonNegativeWrites(s.pending)
    ensures PendingFor(s, uid, d) >= 0
  {
    SumNonNegative(Added(uid, d), s.pending);
  }

  /** The outcome charges what it writes, and nothing negative. */
  ghost predicate FairOutcome(o: Outcome, uid: string) {
    && NonNegativeWrites(o.writes) && NonNegativeCharges(o.charges)
    && (forall d: Dim :: StepCharge(o.charges, uid, d) == Sum(Added(uid, d), o.writes) >= 0)
  }

  lemma CommitAdds(s: State, o: Outcome, uid: string, d: Dim)
    requires o.actor < |s.insts|
    ensures ChargesTo(Commit(s, o), uid, d) == ChargesTo(s, uid, d) + StepCharge(o.charges, uid, d)
    ensures PendingFor(Commit(s, o), uid, d) == PendingFor(s, uid, d) + Sum(Added(uid, d), o.writes)
  {
    SumConcat(ChargedTo(uid, d), s.charges, o.charges);
    SumConcat(Added(uid, d), s.pending, o.writes);
  }

  /** A step of a process adds the same amount to both sides of the balance. */
  lemma CommitKeepsBalance(s: State, o: Outcome, uid: string, base: Usage, d: Dim)
    requires Books(s, uid, base) && Balanced(s, uid, base, d) && o.actor < |s.insts| && FairOutcome(o, uid)
    requires Below(o.inst, uid, d, Outstanding(s, uid, d) + StepCharge(o.charges, uid, d))
    ensures Balanced(Commit(s, o), uid, base, d)
  {
    CommitAdds(s, o, uid, d);
    forall j | 0 <= j < |s.insts| && j != o.actor
      ensures Below(s.insts[j], uid, d, Outstanding(s, uid, d) + StepCharge(o.charges, uid, d))
    {
      RaiseCap(s.insts[j], uid, d, Outstanding(s, uid, d), Outstanding(s, uid, d) + StepCharge(o.charges, uid, d));
    }
  }

  /** Executing a pending statement moves its delta from the goroutines to the row. */
  lemma LandKeepsBalance(s: State, k: nat, now: Time, uid: string, base: Usage, d: Dim)
    requires k < |s.pending| && Books(s, uid, base) && InColumns(s, uid, base)
    ensures Balanced(Land(s, k, now), uid, base, d)
  {
    var s', w := Land(s, k, now), s.pending[k];
    assert w in s.pending;
    forall e: Dim ensures PendingFor(s', uid, e) == PendingFor(s, uid, e) - Added(uid, e)(w) >= 0 {
      SumRemove(Added(uid, e), s.pending, k);
      SumNonNegative(Added(uid, e), s'.pending);
    }
    assert Balanced(s, uid, base, d) && Balanced(s, uid, base, Seconds) && Balanced(s, uid, base, Octets);
    if w.AddUsage? && w.userId == uid {
      assert Added(uid, Seconds)(w) == w.delta.seconds && Added(uid, Octets)(w) == w.delta.octets;
      assert PendingFor(s', uid, Seconds) >= 0 && PendingFor(s', uid, Octets) >= 0;
      assert w.delta.Of(Seconds) >= 0 && w.delta.Of(Octets) >= 0;
      assert base.Of(Seconds) + ChargesTo(s, uid, Seconds) <= ColumnMax(Seconds);
      assert base.Of(Octets) + ChargesTo(s, uid, Octets) <= ColumnMax(Octets);
      assert CanAdd(s.db.users[uid], w.delta);
    }
    assert Outstanding(s', uid, d) == Outstanding(s, uid, d);
  }

  /** Exactly when a pending charge survives: the row's columns can hold the sums. A charge
      refused by the column type is silently lost. */
  lemma ChargeSurvivesIff(s: State, k: nat, now: Time, uid: string, d: Dim)
    requires k < |s.pending| && s.pending[k].AddUsage? && s.pending[k].userId == uid && uid in s.db.users
    requires s.pending[k].delta.Of(d) > 0
    ensures Outstanding(Land(s, k, now), uid, d) == Outstanding(s, uid, d)
       <==> CanAdd(s.db.users[uid], s.pending[k].delta)
    ensures Outstanding(Land(s, k, now), uid, d) <= Outstanding(s, uid, d)
  {
    SumRemove(Added(uid, d), s.pending, k);
  }

  lemma LandKeepsBooks(s: State, k: nat, now: Time, uid: string, base: Usage)
    requires k < |s.pending| && Books(s, uid, base)
    ensures Books(Land(s, k, now), uid, base)
  {
    forall d: Dim | InColumns(s, uid, base) ensures Balanced(Land(s, k, now), uid, base, d) {
      LandKeepsBalance(s, k, now, uid, base, d);
    }
  }

  /** The outcome raises every bound on the process's counters by no more than it charges. */
  ghost predicate RaisesByCharge(before: Instance, row: User, o: Outcome, uid: string) {
    forall d: Dim, cap: int ::
      Below(before, uid, d, cap) && 0 <= row.usage.Of(d) <= cap && cap + StepCharge(o.charges, uid, d) <= INT64_MAX
      ==> Below(o.inst, uid, d, cap + StepCharge(o.charges, uid, d))
  }

  lemma CommitKeepsBooks(s: State, o: Outcome, uid: string, base: Usage)
    requires Books(s, uid, base) && o.actor < |s.insts| && FairOutcome(o, uid)
    requires RaisesByCharge(s.insts[o.actor], s.db.users[uid], o, uid)
    ensures Books(Commit(s, o), uid, base)
    ensures InColumns(Commit(s, o), uid, base) ==> InColumns(s, uid, base)
  {
    var s' := Commit(s, o);
    forall d: Dim ensures ChargesTo(s', uid, d) >= ChargesTo(s, uid, d) {
      CommitAdds(s, o, uid, d);
    }
    if InColumns(s', uid, base) {
      assert InColumns(s, uid, base);
      forall d: Dim ensures Balanced(s', uid, base, d) {
        assert Balanced(s, uid, base, d) && Below(s.insts[o.actor], uid, d, Outstanding(s, uid, d));
        PendingNonNegative(s, uid, d);
        CommitAdds(s, o, uid, d);
        assert base.Of(d) + ChargesTo(s', uid, d) <= ColumnMax(d);
        CommitKeepsBalance(s, o, uid, base, d);
      }
    }
  }

  lemma ActIsFair(s: State, step: Step, uid: string)
    requires Population(s) && SaneState(s) && Enabled(s, step) && !step.Flush?
    ensures FairOutcome(Act(s, step), uid)
  {
    WritesMatchCharges(s, step, uid, Seconds);
    WritesMatchCharges(s, step, uid, Octets);
    forall d: Dim ensures StepCharge(NewCharges(s, step), uid, d) == Sum(Added(uid, d), Section(s, step).writes) >= 0 {
      assert d == Seconds || d == Octets;
    }
  }

  lemma ActRaisesByCharge(s: State, step: Step, o: Outcome, uid: string)
    requires Population(s) && SaneState(s) && Enabled(s, step) && !step.Flush? && uid in s.db.users && o == Act(s, step)
    ensures RaisesByCharge(s.insts[o.actor], s.db.users[uid], o, uid)
  {
    forall d: Dim, cap: int |
        Below(s.insts[o.actor], uid, d, cap) && 0 <= s.db.users[uid].usage.Of(d) <= cap
        && cap + StepCharge(o.charges, uid, d) <= INT64_MAX
      ensures Below(o.inst, uid, d, cap + StepCharge(o.charges, uid, d))
    {
      InstanceStaysBelow(s, step, o, uid, d, cap);
    }
  }

  lemma BooksStep(s: State, step: Step, uid: string, base: Usage)
    requires Population(s) && SaneState(s) && Enabled(s, step) && Books(s, uid, base)
    ensures Books(Apply(s, step), uid, base)
    ensures InColumns(Apply(s, step), uid, base) ==> InColumns(s, uid, base)
  {
    if step.Flush? {
      LandKeepsBooks(s, step.k, step.now, uid, base);
    } else {
      ActIsFair(s, step, uid);
      ActRaisesByCharge(s, step, Act(s, step), uid);
      CommitKeepsBooks(s, Act(s, step), uid, base);
    }
  }

  // ----- whole runs -----

  /** Processes that have just started: caches are empty or copies of the rows, and nothing
      is under way. */
  ghost predicate Init(s: State) {
    && RootedDb(s.db)
    && (forall id, d: Dim :: id in s.db.users ==> s.db.users[id].usage.Of(d) >= 0)
    && SaneSessions(s.db.sessions)
    && (forall i :: 0 <= i < |s.insts| ==>
          && s.insts[i].mem.sessions == map[] && s.insts[i].listings == [] && s.insts[i].sessionRows == []
          && (forall n :: n in s.insts[i].mem.subscribers ==>
                Rooted(s.insts[i].mem.subscribers[n], n, s.db)
                && s.insts[i].mem.subscribers[n].usage == s.db.users[s.insts[i].mem.subscribers[n].id].usage))
    && s.pending == [] && s.requests == map[] && s.answers == [] && s.charges == [] && s.metered == map[]
  }

  lemma InitBooks(s: State, uid: string)
    requires Init(s) && uid in s.db.users
    ensures Population(s) && SaneState(s) && Books(s, uid, s.db.users[uid].usage)
  {
    var base := s.db.users[uid].usage;
    forall d: Dim ensures Balanced(s, uid, base, d) {
      assert PendingFor(s, uid, d) == 0 && ChargesTo(s, uid, d) == 0;
      forall i | 0 <= i < |s.insts| ensures Below(s.insts[i], uid, d, Outstanding(s, uid, d)) {}
    }
    assert base.Of(Seconds) >= 0 && base.Of(Octets) >= 0;
  }

  lemma {:induction false} BooksRun(s: State, steps: seq<Step>, uid: string, base: Usage)
    requires Population(s) && SaneState(s) && Books(s, uid, base) && IsRun(s, steps)
    ensures var s' := Run(s, steps);
            Population(s') && SaneState(s') && Books(s', uid, base)
    ensures InColumns(Run(s, steps), uid, base) ==> InColumns(s, uid, base)
    decreases |steps|
  {
    if steps != [] {
      PopulationStep(s, steps[0]);
      SaneStep(s, steps[0]);
      BooksStep(s, steps[0], uid, base);
      BooksRun(Apply(s, steps[0]), steps[1..], uid, base);
    }
  }

  /** Main result. After any run of any number of processes, as long as the user's usage
      fits its columns: the row plus the pending deltas is the initial usage plus all
      charges, and no process's counter exceeds it. */
  lemma CountersAreAccountedFor(s0: State, steps: seq<Step>, uid: string, d: Dim)
    requires Init(s0) && IsRun(s0, steps) && uid in s0.db.users
    requires InColumns(Run(s0, steps), uid, s0.db.users[uid].usage)
    ensures var s := Run(s0, steps);
            && uid in s.db.users
            && s.db.users[uid].usage.Of(d) + PendingFor(s, uid, d) == s0.db.users[uid].usage.Of(d) + ChargesTo(s, uid, d)
            && s.db.users[uid].usage.Of(d) <= s.db.users[uid].usage.Of(d) + PendingFor(s, uid, d)
            && (forall i, n :: 0 <= i < |s.insts| && n in s.insts[i].mem.subscribers && s.insts[i].mem.subscribers[n].id == uid ==>
                  s.insts[i].mem.subscribers[n].usage.Of(d) <= s.db.users[uid].usage.Of(d) + PendingFor(s, uid, d))
  {
    InitBooks(s0, uid);
    BooksRun(s0, steps, uid, s0.db.users[uid].usage);
    var s := Run(s0, steps);
    assert Balanced(s, uid, s0.db.users[uid].usage, d);
    PendingNonNegative(s, uid, d);
    forall i, n | 0 <= i < |s.insts| && n in s.insts[i].mem.subscribers && s.insts[i].mem.subscribers[n].id == uid
      ensures s.insts[i].mem.subscribers[n].usage.Of(d) <= s.db.users[uid].usage.Of(d) + PendingFor(s, uid, d)
    {
      assert Below(s.insts[i], uid, d, Outstanding(s, uid, d));
      assert Within(s.insts[i].mem.subscribers[n], uid, d, Outstanding(s, uid, d));
    }
  }

  // ----- a charge the columns do not hold -----

  /** An accounting update that charges user `uid` this much. */
  ghost predicate ChargesUser(s: State, step: Step, uid: string, delta: Usage)
    requires Enabled(s, step)
  {
    && step.Account? && uid != "" && uid in s.db.users
    && delta == AcctDelta(s.insts[step.inst].mem, step.id, step.report) && (delta.seconds > 0 || delta.octets > 0)
    && (var m := s.insts[step.inst].mem;
        var n := m.sessions[step.id].username;
        IsMetered(m, n) && m.subscribers[n].id == uid)
  }

  /** It hands over one statement that adds to the row, behind the upsert of its record. */
  lemma ChargeHandedOver(s: State, report: Step, uid: string, delta: Usage, d: Dim) returns (s1: State)
    requires Enabled(s, report) && ChargesUser(s, report, uid, delta)
    ensures s1 == Apply(s, report) && s1.db == s.db
    ensures |s1.pending| == |s.pending| + 2 && s1.pending[|s.pending| + 1] == AddUsage(uid, delta)
    ensures ChargesTo(s1, uid, d) == ChargesTo(s, uid, d) + delta.Of(d)
    ensures Outstanding(s1, uid, d) == Outstanding(s, uid, d) + delta.Of(d)
  {
    var upsert := Upsert(UpdateRecord(s.insts[report.inst].mem.sessions[report.id], report.report, report.stop, report.now));
    s1 := AccountApplied(s, report);
    AccountCharge(s, report, uid, d);
    SumConcat(ChargedTo(uid, d), s.charges, NewCharges(s, report));
    SumConcat(Added(uid, d), s.pending, [upsert] + [AddUsage(uid, delta)]);
    SumOfOne(Added(uid, d), upsert);
    SumSnoc(Added(uid, d), [upsert], AddUsage(uid, delta));
  }

  /** The statement moves its delta to the row, or drops it. */
  lemma AddedOrLost(s: State, k: nat, now: Time, uid: string, delta: Usage, d: Dim) returns (s': State)
    requires k < |s.pending| && s.pending[k] == AddUsage(uid, delta) && uid in s.db.users
    ensures s' == Apply(s, Flush(k, now)) && uid in s'.db.users && s'.charges == s.charges
    ensures Outstanding(s', uid, d) == Outstanding(s, uid, d) - if CanAdd(s.db.users[uid], delta) then 0 else delta.Of(d)
  {
    s' := FlushApplied(s, Flush(k, now));
    SumRemove(Added(uid, d), s.pending, k);
  }

  /** From every state: an update charges the user, and the statement it left behind is the
      next to land. The charge arrives if and only if the columns hold it; otherwise all of it
      is lost, though it stays charged in memory. A session time that grows by more than
      2^31 - 1 seconds is such a charge, whatever the row shows. */
  lemma ChargeIsLostIff(s: State, report: Step, uid: string, delta: Usage, now: Time, d: Dim) returns (s1: State, s2: State)
    requires Enabled(s, report) && ChargesUser(s, report, uid, delta)
    ensures s1 == Apply(s, report) && |s1.pending| == |s.pending| + 2
    ensures s2 == Apply(s1, Flush(|s.pending| + 1, now)) && uid in s2.db.users
    ensures ChargesTo(s2, uid, d) == ChargesTo(s, uid, d) + delta.Of(d)
    ensures Outstanding(s2, uid, d) == Outstanding(s, uid, d) + if CanAdd(s.db.users[uid], delta) then delta.Of(d) else 0
    ensures var was, reported := Stored(s.insts[report.inst].mem.sessions[report.id]).seconds, Reported(report.report).seconds;
            0 <= was && reported - was > INT32_MAX ==> !CanAdd(s.db.users[uid], delta)
  {
    s1 := ChargeHandedOver(s, report, uid, delta, d);
    s2 := AddedOrLost(s1, |s.pending| + 1, now, uid, delta, d);
    SaneReport(report.report);
    if 0 <= Stored(s.insts[report.inst].mem.sessions[report.id]).seconds < Reported(report.report).seconds {
      DeltaExact(Reported(report.report).seconds, Stored(s.insts[report.inst].mem.sessions[report.id]).seconds);
    }
  }
}
