/** One session metered by two processes: the second copies the record from the database
    and goes on from the counters it found there (internal/radius/service.go). */
module SharedSessions {
  import opened Domain
  import opened Sums
  import opened Counters
  import opened ServerSpec
  import opened Database
  import opened Cluster
  import opened Applied
  import opened Metering
  import opened Records
  import SessionLaws
  import SessionRows

  // ----- the counters a copied record is metered from -----

  lemma {:induction false} StartingPointStays(s: State, steps: seq<Step>, rec: Rec)
    requires IsRun(s, steps) && rec in s.metered
    ensures rec in Run(s, steps).metered && Run(s, steps).metered[rec] == s.metered[rec]
    decreases |steps|
  {
    if steps != [] {
      StartingPointStays(Apply(s, steps[0]), steps[1..], rec);
    }
  }

  /** In every run, a record that reconciliation brings in is metered from the counters of
      the first row of its id, and this stays its starting point in the rest of the run. */
  lemma CopiedRecordEnters(s0: State, steps: seq<Step>, s: State, merge: Step, more: seq<Step>, id: string) returns (k: nat)
    requires Init(s0) && IsRun(s0, steps) && s == Run(s0, steps)
    requires Enabled(s, merge) && merge.MergeSessions? && IsRun(Apply(s, merge), more)
    requires id !in s.insts[merge.inst].mem.sessions
    requires var rows := s.insts[merge.inst].sessionRows[merge.k];
             && (exists j :: 0 <= j < |rows| && rows[j].id == id)
             && (forall j :: 0 <= j < |rows| && rows[j].id == id ==> IsMetered(s.insts[merge.inst].mem, rows[j].username))
    ensures var rows, s' := s.insts[merge.inst].sessionRows[merge.k], Run(Apply(s, merge), more);
            && k < |rows| && rows[k].id == id && (forall j :: 0 <= j < k ==> rows[j].id != id)
            && Rec(merge.inst, id) in s'.metered && s'.metered[Rec(merge.inst, id)] == Stored(rows[k])
  {
    var m, rows := s.insts[merge.inst].mem, s.insts[merge.inst].sessionRows[merge.k];
    SessionLaws.ReconcileIsExact(m.sessions, rows, id);
    k :| 0 <= k < |rows| && rows[k].id == id && Reconciled(m.sessions, rows)[id] == rows[k]
      && forall j :: 0 <= j < k ==> rows[j].id != id;
    NotYetMetered(s0, steps, s, Rec(merge.inst, id));
    NewRecordEnters(s, merge, id);
    StartingPointStays(Apply(s, merge), more, Rec(merge.inst, id));
  }

  lemma NotYetMetered(s0: State, steps: seq<Step>, s: State, rec: Rec)
    requires Init(s0) && IsRun(s0, steps) && s == Run(s0, steps) && !InMemory(s, rec)
    ensures rec !in s.metered
  {
    EveryRecordIsChargedItsPeaks(s0, steps, s, rec, Seconds);
  }

  lemma NewRecordEnters(s: State, step: Step, id: string)
    requires Enabled(s, step) && !step.Flush? && id !in s.insts[Actor(s, step)].mem.sessions
    requires MetersRecord(Section(s, step).mem, id) && Rec(Actor(s, step), id) !in s.metered
    ensures var rec := Rec(Actor(s, step), id);
            rec in Apply(s, step).metered && Apply(s, step).metered[rec] == Stored(Section(s, step).mem.sessions[id])
  {
    assert Rec(Actor(s, step), id) in NewlyMetered(Actor(s, step), s.insts[Actor(s, step)].mem, Section(s, step).mem);
  }

  // ----- what a shared session is charged, in every run -----

  /** The counter of a record never went backwards while this process metered it. */
  ghost predicate NeverReset(s: State, rec: Rec, d: Dim)
    requires rec in s.metered
  {
    NonDecreasing([s.metered[rec].Of(d)] + ReportsOf(s.charges, rec, d))
  }

  lemma PeaksWithoutReset(s0: State, steps: seq<Step>, s: State, rec: Rec, d: Dim)
    requires Init(s0) && IsRun(s0, steps) && s == Run(s0, steps) && rec in s.metered && NeverReset(s, rec, d)
    ensures InMemory(s, rec)
    ensures Peaks([s.metered[rec].Of(d)] + ReportsOf(s.charges, rec, d))
         == Stored(s.insts[rec.inst].mem.sessions[rec.id]).Of(d)
  {
    InitHistory(s0);
    HistoryRun(s0, steps);
    assert RecordBooks(s, rec, d);
    PeaksBounds([s.metered[rec].Of(d)] + ReportsOf(s.charges, rec, d));
  }

  lemma PeakSumOfTwo(s: State, a: Rec, b: Rec, d: Dim)
    requires a in s.metered && b in s.metered
    ensures PeakSum(s, [a, b], d)
         == Peaks([s.metered[a].Of(d)] + ReportsOf(s.charges, a, d)) - s.metered[a].Of(d)
            + (Peaks([s.metered[b].Of(d)] + ReportsOf(s.charges, b, d)) - s.metered[b].Of(d))
  {
    assert [a, b][1..] == [b] && [b][1..] == [];
    assert PeakSum(s, [b], d) == Peaks([s.metered[b].Of(d)] + ReportsOf(s.charges, b, d)) - s.metered[b].Of(d) + PeakSum(s, [], d);
  }

  /** Main result. In every run in which a voucher has one metered session, which one process
      meters from zero and another from the counter `c` it copied: the voucher is charged both
      processes' counters less `c`. That is the session's true total, the larger counter,
      exactly when the smaller one has not moved beyond `c`. */
  lemma SharedSessionOvercharge(s0: State, steps: seq<Step>, s: State, n: string, uid: string, id: string,
                                i: nat, j: nat, d: Dim, c: int)
    requires Init(s0) && IsRun(s0, steps) && s == Run(s0, steps)
    requires uid in s0.db.users && s0.db.users[uid].username == n
    requires i != j && RecordsOf(s, n, [Rec(i, id), Rec(j, id)])
    requires Rec(i, id) in s.metered && s.metered[Rec(i, id)].Of(d) == 0 && NeverReset(s, Rec(i, id), d)
    requires Rec(j, id) in s.metered && s.metered[Rec(j, id)].Of(d) == c && NeverReset(s, Rec(j, id), d)
    ensures InMemory(s, Rec(i, id)) && InMemory(s, Rec(j, id))
    ensures var a, b := Stored(s.insts[i].mem.sessions[id]).Of(d), Stored(s.insts[j].mem.sessions[id]).Of(d);
            && ChargesTo(s, uid, d) == a + b - c
            && (ChargesTo(s, uid, d) == Max(a, b) <==> c == if a > b then b else a)
  {
    var first, second := Rec(i, id), Rec(j, id);
    assert first in [first, second] && second in [first, second];
    UsageIsPeaksOfSessions(s0, steps, s, n, uid, [first, second], d);
    PeaksWithoutReset(s0, steps, s, first, d);
    PeaksWithoutReset(s0, steps, s, second, d);
    PeakSumOfTwo(s, first, second, d);
  }

  // ----- such a run -----

  /** Both processes meter the user, as the same row. */
  predicate BothMeter(s: State, i: nat, j: nat, n: string, uid: string) {
    && i < |s.insts| && j < |s.insts| && i != j
    && IsMetered(s.insts[i].mem, n) && s.insts[i].mem.subscribers[n].id == uid
    && IsMetered(s.insts[j].mem, n) && s.insts[j].mem.subscribers[n].id == uid
  }

  /** Process `i` holds the session as active, with the counters of this report. */
  predicate HoldsAt(s: State, i: nat, id: string, n: string, r: Report) {
    && i < |s.insts| && id in s.insts[i].mem.sessions
    && (var x := s.insts[i].mem.sessions[id]; x.username == n && x.status == Active && x.id == id && Stored(x) == Reported(r))
  }

  lemma ReportGrowth(s: State, s': State, step: Step, uid: string, d: Dim)
    requires step.Account? && Enabled(s, step) && s'.charges == s.charges + NewCharges(s, step)
    requires var m := s.insts[step.inst].mem;
             var x := m.sessions[step.id];
             && IsMetered(m, x.username) && m.subscribers[x.username].id == uid
             && SaneUsage(Stored(x)) && Stored(x).Of(d) <= Reported(step.report).Of(d)
    ensures ChargesTo(s', uid, d) == ChargesTo(s, uid, d) + Reported(step.report).Of(d)
                                     - Stored(s.insts[step.inst].mem.sessions[step.id]).Of(d)
  {
    AccountCharge(s, step, uid, d);
    SumConcat(ChargedTo(uid, d), s.charges, NewCharges(s, step));
    SaneReport(step.report);
    DeltaExact(Reported(step.report).Of(d), Stored(s.insts[step.inst].mem.sessions[step.id]).Of(d));
  }

  lemma UpdateKeepsMeter(m: Mem, id: string, r: Report, now: Time, n: string)
    requires id in m.sessions && IsMetered(m, n)
    ensures var m' := AcctUpdate(m, id, r, false, now).mem;
            && IsMetered(m', n) && m'.subscribers[n].id == m.subscribers[n].id
            && id in m'.sessions && m'.sessions[id] == UpdateRecord(m.sessions[id], r, false, now)
  {
  }

  /** A report for a metered record charges the growth of its counters. */
  lemma ReportCharges(s: State, i: nat, j: nat, step: Step, n: string, uid: string) returns (s': State)
    requires step.Account? && Enabled(s, step) && !step.stop && (step.inst == i || step.inst == j) && BothMeter(s, i, j, n, uid)
    requires var x := s.insts[step.inst].mem.sessions[step.id];
             && x.username == n && x.status == Active && x.id == step.id && SaneUsage(Stored(x))
             && (forall d: Dim :: Stored(x).Of(d) <= Reported(step.report).Of(d))
    ensures s' == Apply(s, step) && BothMeter(s', i, j, n, uid) && HoldsAt(s', step.inst, step.id, n, step.report)
    ensures |s'.insts| == |s.insts| && forall k :: 0 <= k < |s.insts| && k != step.inst ==> s'.insts[k] == s.insts[k]
    ensures s'.db == s.db && |s'.pending| > |s.pending| && s'.pending[..|s.pending|] == s.pending
    ensures s'.pending[|s.pending|]
         == Upsert(UpdateRecord(s.insts[step.inst].mem.sessions[step.id], step.report, step.stop, step.now))
    ensures forall d: Dim :: ChargesTo(s', uid, d) == ChargesTo(s, uid, d) + Reported(step.report).Of(d)
                                                      - Stored(s.insts[step.inst].mem.sessions[step.id]).Of(d)
  {
    var x := s.insts[step.inst].mem.sessions[step.id];
    s' := AccountApplied(s, step);
    UpdateKeepsSane(x, step.report, step.stop, step.now);
    UpdateKeepsMeter(s.insts[step.inst].mem, step.id, step.report, step.now, n);
    forall d: Dim ensures ChargesTo(s', uid, d) == ChargesTo(s, uid, d) + Reported(step.report).Of(d) - Stored(x).Of(d) {
      ReportGrowth(s, s', step, uid, d);
    }
  }

  function Reporting(id: string, n: string, nasIp: string, r: Report, now: Time): Session {
    UpdateRecord(SessionRows.Started(id, n, nasIp, now), r, false, now)
  }

  lemma ReportingRecord(id: string, n: string, nasIp: string, r: Report, now: Time)
    requires Sane(r)
    ensures Stored(SessionRows.Started(id, n, nasIp, now)) == Usage(0, 0)
    ensures var x := Reporting(id, n, nasIp, r, now);
            x.username == n && x.status == Active && x.id == id && Stored(x) == Reported(r)
  {
    UpdateKeepsSane(SessionRows.Started(id, n, nasIp, now), r, false, now);
  }

  lemma SameCharges(s: State, s': State, uid: string)
    requires s'.charges == s.charges
    ensures forall d: Dim :: ChargesTo(s', uid, d) == ChargesTo(s, uid, d)
  {
  }

  lemma StartHeld(s: State, i: nat, j: nat, id: string, n: string, uid: string, nasIp: string, now: Time) returns (s': State)
    requires BothMeter(s, i, j, n, uid) && id !in s.insts[i].mem.sessions
    ensures Enabled(s, StartSession(i, id, id, n, nasIp, now)) && s' == Apply(s, StartSession(i, id, id, n, nasIp, now))
    ensures |s'.insts| == |s.insts| && BothMeter(s', i, j, n, uid) && s'.insts[j] == s.insts[j]
    ensures s'.db == s.db && s'.charges == s.charges
    ensures id in s'.insts[i].mem.sessions && s'.insts[i].mem.sessions[id] == SessionRows.Started(id, n, nasIp, now)
    ensures s'.pending == s.pending + [Upsert(SessionRows.Started(id, n, nasIp, now))]
  {
    s' := StartApplied(s, StartSession(i, id, id, n, nasIp, now));
  }

  /** One process starts the session and meters a first report. */
  lemma StartAndReport(s: State, i: nat, j: nat, id: string, n: string, uid: string, nasIp: string, r: Report,
                       now: Time) returns (s': State)
    requires BothMeter(s, i, j, n, uid) && id !in s.insts[i].mem.sessions && Sane(r)
    ensures var steps := [StartSession(i, id, id, n, nasIp, now), Account(i, id, r, false, now)];
            IsRun(s, steps) && s' == Run(s, steps)
    ensures |s'.insts| == |s.insts| && BothMeter(s', i, j, n, uid) && HoldsAt(s', i, id, n, r)
    ensures s'.insts[j] == s.insts[j] && s'.db == s.db
    ensures forall d: Dim :: ChargesTo(s', uid, d) == ChargesTo(s, uid, d) + Reported(r).Of(d)
    ensures var k := |s.pending|;
            && |s'.pending| >= k + 2
            && s'.pending[k] == Upsert(SessionRows.Started(id, n, nasIp, now))
            && s'.pending[k + 1] == Upsert(Reporting(id, n, nasIp, r, now))
  {
    var start, report := StartSession(i, id, id, n, nasIp, now), Account(i, id, r, false, now);
    var s1 := StartHeld(s, i, j, id, n, uid, nasIp, now);
    SaneReport(r);
    ReportingRecord(id, n, nasIp, r, now);
    s' := ReportCharges(s1, i, j, report, n, uid);
    SameCharges(s, s1, uid);
    RunTwo(s, start, report);
  }

  /** Both upserts land, in the order they were spawned. */
  lemma LandBoth(s: State, k: nat, id: string, first: Session, second: Session, now: Time) returns (s': State)
    requires k + 1 < |s.pending| && s.pending[k] == Upsert(first) && s.pending[k + 1] == Upsert(second)
    requires first.id == id == second.id
    ensures IsRun(s, [Flush(k, now), Flush(k, now)]) && s' == Run(s, [Flush(k, now), Flush(k, now)])
    ensures s'.insts == s.insts && s'.charges == s.charges && s'.db == s.db.(sessions := s.db.sessions[id := second])
  {
    var s1 := FlushApplied(s, Flush(k, now));
    assert s1.pending[k] == s.pending[k + 1];
    s' := FlushApplied(s1, Flush(k, now));
    assert s'.db.sessions == s.db.sessions[id := second];
    RunTwo(s, Flush(k, now), Flush(k, now));
  }

  /** The next report reaches both processes, and both charge its growth. */
  lemma ReportToBoth(s: State, i: nat, j: nat, id: string, n: string, uid: string, was: Report, r: Report, now: Time)
    returns (s': State)
    requires BothMeter(s, i, j, n, uid) && HoldsAt(s, i, id, n, was) && HoldsAt(s, j, id, n, was) && Sane(was) && Sane(r)
    requires forall d: Dim :: Reported(was).Of(d) <= Reported(r).Of(d)
    ensures var steps := [Account(i, id, r, false, now), Account(j, id, r, false, now)];
            IsRun(s, steps) && s' == Run(s, steps)
    ensures forall d: Dim :: ChargesTo(s', uid, d) == ChargesTo(s, uid, d) + 2 * (Reported(r).Of(d) - Reported(was).Of(d))
  {
    SaneReport(was);
    var s1 := ReportCharges(s, i, j, Account(i, id, r, false, now), n, uid);
    s' := ReportCharges(s1, i, j, Account(j, id, r, false, now), n, uid);
    RunTwo(s, Account(i, id, r, false, now), Account(j, id, r, false, now));
  }

  lemma CopyHolds(s: State, s': State, i: nat, j: nat, id: string, n: string, uid: string, x: Session, r: Report)
    requires BothMeter(s, i, j, n, uid) && HoldsAt(s, i, id, n, r) && |s'.insts| == |s.insts| && s'.insts[i] == s.insts[i]
    requires s'.insts[j].mem.subscribers == s.insts[j].mem.subscribers
    requires id in s'.insts[j].mem.sessions && s'.insts[j].mem.sessions[id] == x
    requires x.username == n && x.status == Active && x.id == id && Stored(x) == Reported(r)
    ensures BothMeter(s', i, j, n, uid) && HoldsAt(s', i, id, n, r) && HoldsAt(s', j, id, n, r)
  {
  }

  /** Process `i` meters the session, and process `j` can read its row, with the same counters. */
  ghost predicate Copyable(s: State, i: nat, j: nat, id: string, n: string, uid: string, x: Session, r: Report,
                           rows: seq<Session>) {
    && BothMeter(s, i, j, n, uid) && HoldsAt(s, i, id, n, r) && id !in s.insts[j].mem.sessions
    && id in s.db.sessions && s.db.sessions[id] == x && ListsActive(s.db, rows)
    && x.username == n && x.status == Active && x.id == id && Stored(x) == Reported(r)
  }

  /** The second process copies the record, and the next report reaches both. */
  lemma CopyAndReport(s: State, i: nat, j: nat, id: string, n: string, uid: string, x: Session, r1: Report,
                      r2: Report, now: Time, rows: seq<Session>)
    returns (s1: State, s2: State)
    requires Copyable(s, i, j, id, n, uid, x, r1, rows)
    requires Sane(r1) && Sane(r2) && forall d: Dim :: Reported(r1).Of(d) <= Reported(r2).Of(d)
    ensures var steps := [ReadSessions(j, rows), MergeSessions(j, |s.insts[j].sessionRows|)];
            IsRun(s, steps) && s1 == Run(s, steps)
    ensures var steps := [Account(i, id, r2, false, now), Account(j, id, r2, false, now)];
            IsRun(s1, steps) && s2 == Run(s1, steps)
    ensures forall d: Dim :: ChargesTo(s2, uid, d) == ChargesTo(s, uid, d) + 2 * (Reported(r2).Of(d) - Reported(r1).Of(d))
  {
    s1 := SessionRows.ReconcileTakesRow(s, j, rows, id);
    CopyHolds(s, s1, i, j, id, n, uid, x, r1);
    SameCharges(s, s1, uid);
    s2 := ReportToBoth(s1, i, j, id, n, uid, r1, r2, now);
  }

  lemma LandedIsCopyable(s: State, s1: State, s2: State, i: nat, j: nat, id: string, n: string, uid: string,
                         x: Session, r: Report, rows: seq<Session>)
    requires BothMeter(s1, i, j, n, uid) && HoldsAt(s1, i, id, n, r) && s2.insts == s1.insts
    requires j < |s.insts| && s1.insts[j] == s.insts[j] && id !in s.insts[j].mem.sessions
    requires s1.db == s.db && s2.db == s1.db.(sessions := s1.db.sessions[id := x])
    requires ListsActive(s.db.(sessions := s.db.sessions[id := x]), rows)
    requires x.username == n && x.status == Active && x.id == id && Stored(x) == Reported(r)
    ensures Copyable(s2, i, j, id, n, uid, x, r, rows)
  {
  }

  /** From every state, for every two processes that meter a voucher, and every two reports: the
      first reaches one process, the other process copies the record, and the second report
      reaches both. The growth between them is charged twice. */
  lemma CopiedSessionIsChargedTwice(s: State, i: nat, j: nat, id: string, n: string, uid: string, nasIp: string,
                                    r1: Report, r2: Report, now: Time, rows: seq<Session>)
    returns (s1: State, s2: State, s3: State, s4: State)
    requires BothMeter(s, i, j, n, uid) && id !in s.insts[i].mem.sessions && id !in s.insts[j].mem.sessions
    requires Sane(r1) && Sane(r2) && forall d: Dim :: Reported(r1).Of(d) <= Reported(r2).Of(d)
    requires ListsActive(s.db.(sessions := s.db.sessions[id := Reporting(id, n, nasIp, r1, now)]), rows)
    ensures var steps := [StartSession(i, id, id, n, nasIp, now), Account(i, id, r1, false, now)];
            IsRun(s, steps) && s1 == Run(s, steps)
    ensures var steps := [Flush(|s.pending|, now), Flush(|s.pending|, now)];
            IsRun(s1, steps) && s2 == Run(s1, steps)
    ensures |s2.insts| == |s.insts|
    ensures var steps := [ReadSessions(j, rows), MergeSessions(j, |s2.insts[j].sessionRows|)];
            IsRun(s2, steps) && s3 == Run(s2, steps)
    ensures var steps := [Account(i, id, r2, false, now), Account(j, id, r2, false, now)];
            IsRun(s3, steps) && s4 == Run(s3, steps)
    ensures forall d: Dim :: ChargesTo(s4, uid, d) == ChargesTo(s, uid, d) + Reported(r2).Of(d)
                                                      + (Reported(r2).Of(d) - Reported(r1).Of(d))
  {
    s1 := StartAndReport(s, i, j, id, n, uid, nasIp, r1, now);
    ReportingRecord(id, n, nasIp, r1, now);
    s2 := LandBoth(s1, |s.pending|, id, SessionRows.Started(id, n, nasIp, now), Reporting(id, n, nasIp, r1, now), now);
    SameCharges(s1, s2, uid);
    LandedIsCopyable(s, s1, s2, i, j, id, n, uid, Reporting(id, n, nasIp, r1, now), r1, rows);
    s3, s4 := CopyAndReport(s2, i, j, id, n, uid, Reporting(id, n, nasIp, r1, now), r1, r2, now, rows);
  }
}
