/** Every session is charged by the simple specification: the peaks of what was reported
    for it, whichever record an update picks and whatever happens in between. */
module Records {
  import opened Domain
  import opened Sums
  import opened Counters
  import opened ServerSpec
  import opened Database
  import opened Cluster
  import opened PopulationLaws
  import opened Metering
  import SessionLaws

  /** The values reported for one record, in order. */
  function ReportsOf(cs: seq<Charge>, rec: Rec, d: Dim): seq<int> {
    if cs == [] then []
    else
      var front, c := ReportsOf(cs[..|cs| - 1], rec, d), cs[|cs| - 1];
      if c.rec == rec then front + [c.reported.Of(d)] else front
  }

  function ChargedOn(rec: Rec, d: Dim): Charge -> int {
    (c: Charge) => if c.rec == rec then c.delta.Of(d) else 0
  }

  function RecordCharge(cs: seq<Charge>, rec: Rec, d: Dim): int { Sum(ChargedOn(rec, d), cs) }

  predicate InMemory(s: State, rec: Rec) { rec.inst < |s.insts| && rec.id in s.insts[rec.inst].mem.sessions }

  function UserOf(s: State, rec: Rec): string
    requires InMemory(s, rec)
  {
    s.insts[rec.inst].mem.sessions[rec.id].username
  }

  /** The history of a record, as values: what it started from, was reported and charged. */
  ghost predicate Told(cs: seq<Charge>, rec: Rec, d: Dim, base: int, last: int) {
    var reports := [base] + ReportsOf(cs, rec, d);
    && InRange(reports) && last == reports[|reports| - 1]
    && RecordCharge(cs, rec, d) == Peaks(reports) - base
  }

  /** The history of one record since it is metered: its counter is the last value reported,
      and it has been charged the peaks of the reports. */
  ghost predicate TellsOf(m: Mem, cs: seq<Charge>, rec: Rec, d: Dim, base: int) {
    && MetersRecord(m, rec.id)
    && Told(cs, rec, d, base, Stored(m.sessions[rec.id]).Of(d))
  }

  ghost predicate RecordBooks(s: State, rec: Rec, d: Dim)
    requires rec in s.metered
  {
    rec.inst < |s.insts| && TellsOf(s.insts[rec.inst].mem, s.charges, rec, d, s.metered[rec].Of(d))
  }

  /** Updates are only ever charged to records that are metered, on the account of their user. */
  ghost predicate ChargesRooted(s: State) {
    forall c :: c in s.charges ==>
      && InMemory(s, c.rec) && c.rec in s.metered
      && c.userId in s.db.users && s.db.users[c.userId].username == UserOf(s, c.rec)
  }

  ghost predicate History(s: State) {
    && ChargesRooted(s)
    && (forall rec :: InMemory(s, rec) && MetersRecord(s.insts[rec.inst].mem, rec.id) ==> rec in s.metered)
    && (forall rec, d: Dim :: rec in s.metered ==> RecordBooks(s, rec, d))
  }

  lemma {:induction false} NoReports(cs: seq<Charge>, rec: Rec, d: Dim)
    requires forall c :: c in cs ==> c.rec != rec
    ensures ReportsOf(cs, rec, d) == [] && RecordCharge(cs, rec, d) == 0
    decreases |cs|
  {
    if cs != [] {
      NoReports(cs[..|cs| - 1], rec, d);
    }
    SumZero(ChargedOn(rec, d), cs);
  }

  lemma OneMoreCharge(cs: seq<Charge>, c: Charge, rec: Rec, d: Dim)
    ensures ReportsOf(cs + [c], rec, d) == ReportsOf(cs, rec, d) + if c.rec == rec then [c.reported.Of(d)] else []
    ensures RecordCharge(cs + [c], rec, d) == RecordCharge(cs, rec, d) + if c.rec == rec then c.delta.Of(d) else 0
  {
    assert (cs + [c])[..|cs|] == cs;
    SumSnoc(ChargedOn(rec, d), cs, c);
  }

  /** The record stays, with its owner and its counters. */
  ghost predicate KeepsRecord(before: map<string, Session>, after: map<string, Session>, id: string) {
    id in before ==> id in after && after[id].username == before[id].username && Stored(after[id]) == Stored(before[id])
  }

  lemma MarkingKeepsRecord(ss: map<string, Session>, cutoff: Time, now: Time, n: string, nas: string,
                           answer: PodAnswer, id: string)
    ensures KeepsRecord(ss, Cleaned(ss, cutoff, now), id)
    ensures KeepsRecord(ss, Answered(ss, n, nas, answer, now), id)
  {
  }

  lemma OtherRecordsKept(m: Mem, at: string, r: Report, stop: bool, now: Time, id: string)
    requires at in m.sessions
    ensures at != id ==> KeepsRecord(m.sessions, AcctUpdate(m, at, r, stop, now).mem.sessions, id)
    ensures at in AcctUpdate(m, at, r, stop, now).mem.sessions
    ensures AcctUpdate(m, at, r, stop, now).mem.sessions[at].username == m.sessions[at].username
  {
  }

  /** Apart from an accounting update, no step touches the counters, the owner or the
      presence of a record. */
  lemma SectionKeepsRecord(s: State, step: Step, id: string)
    requires Enabled(s, step) && !step.Flush?
    requires id in s.insts[Actor(s, step)].mem.sessions
    ensures var ss := s.insts[Actor(s, step)].mem.sessions;
            var ss' := Section(s, step).mem.sessions;
            && id in ss' && ss'[id].username == ss[id].username
            && (!(step.Account? && step.id == id) ==> Stored(ss'[id]) == Stored(ss[id]))
  {
    var m := s.insts[Actor(s, step)].mem;
    if !TouchesSessions(step) {
      SectionKeepsSessions(s, step);
    } else {
      match step
      case StartSession(_, _, _, _, _, _) =>
      case Account(_, at, r, stop, now) => OtherRecordsKept(m, at, r, stop, now, id);
      case CleanSessions(_, cutoff, now, _) => MarkingKeepsRecord(m.sessions, cutoff, now, "", "", Nak, id);
      case PodAnswered(_, n, nas, answer, now) => MarkingKeepsRecord(m.sessions, now, now, n, nas, answer, id);
      case MergeSessions(i, k) => SessionLaws.ReconcileIsExact(m.sessions, s.insts[i].sessionRows[k], id);
    }
  }

  lemma MergeKeepsMetered(inst: Instance, db: Db, l: Listing, n: string)
    requires RootedDb(db) && RootedInstance(inst, db) && l in inst.listings && IsMetered(inst.mem, n)
    ensures IsMetered(Refresh(inst.mem, l), n)
  {
    assert Rooted(inst.mem.subscribers[n], n, db);
    var j := RefreshedUser(inst.mem, l, db, n);
  }

  /** The voucher flag of a cached user never changes, and the user stays cached. */
  lemma SectionKeepsMetered(s: State, step: Step, n: string)
    requires Population(s) && Enabled(s, step) && !step.Flush? && IsMetered(s.insts[Actor(s, step)].mem, n)
    ensures IsMetered(Section(s, step).mem, n)
  {
    if step.MergeLists? {
      MergeKeepsMetered(s.insts[step.inst], s.db, s.insts[step.inst].listings[step.k], n);
    } else if !step.Account? {
      SectionKeepsUsage(s, step);
    }
  }

  // ----- what an outcome does to the records of its process -----

  /** The one charge of an outcome is the delta between the record and what was reported,
      and the record now holds what was reported. */
  ghost predicate ChargesRecord(before: Mem, after: Mem, actor: nat, c: Charge, db: Db) {
    && c.rec.inst == actor && MetersRecord(before, c.rec.id) && c.rec.id in after.sessions
    && c.userId in db.users && db.users[c.userId].username == before.sessions[c.rec.id].username
    && SaneUsage(c.reported) && Stored(after.sessions[c.rec.id]) == c.reported
    && (forall d: Dim :: c.delta.Of(d) == Delta(c.reported.Of(d), Stored(before.sessions[c.rec.id]).Of(d)))
  }

  ghost predicate KeepsRecords(before: Mem, after: Mem, cs: seq<Charge>) {
    && (forall id :: id in before.sessions ==>
          id in after.sessions && after.sessions[id].username == before.sessions[id].username)
    && (forall n :: IsMetered(before, n) ==> IsMetered(after, n))
    && (forall id :: id in before.sessions && IsMetered(before, before.sessions[id].username)
          && (forall c :: c in cs ==> c.rec.id != id)
          ==> Stored(after.sessions[id]) == Stored(before.sessions[id]))
  }

  ghost predicate Orderly(before: Mem, o: Outcome, db: Db) {
    && SaneSessions(before.sessions) && SaneSessions(o.inst.mem.sessions)
    && KeepsRecords(before, o.inst.mem, o.charges)
    && |o.charges| <= 1
    && (o.charges != [] ==> ChargesRecord(before, o.inst.mem, o.actor, o.charges[0], db))
  }

  lemma AccountChargesRecord(s: State, step: Step)
    requires Population(s) && Enabled(s, step) && step.Account? && NewCharges(s, step) != []
    ensures ChargesRecord(s.insts[step.inst].mem, Section(s, step).mem, step.inst, NewCharges(s, step)[0], s.db)
  {
    var m := s.insts[step.inst].mem;
    var n := m.sessions[step.id].username;
    assert RootedInstance(s.insts[step.inst], s.db) && Rooted(m.subscribers[n], n, s.db);
    UpdateKeepsSane(m.sessions[step.id], step.report, step.stop, step.now);
  }

  lemma SectionKeepsRecords(s: State, step: Step)
    requires Population(s) && SaneState(s) && Enabled(s, step) && !step.Flush?
    ensures KeepsRecords(s.insts[Actor(s, step)].mem, Section(s, step).mem, NewCharges(s, step))
  {
    var before, after := s.insts[Actor(s, step)].mem, Section(s, step).mem;
    forall id | id in before.sessions
      ensures id in after.sessions && after.sessions[id].username == before.sessions[id].username
      ensures IsMetered(before, before.sessions[id].username) && (forall c :: c in NewCharges(s, step) ==> c.rec.id != id)
              ==> Stored(after.sessions[id]) == Stored(before.sessions[id])
    {
      SectionKeepsRecord(s, step, id);
      if step.Account? && step.id == id && IsMetered(before, before.sessions[id].username) {
        assert NewCharges(s, step)[0] in NewCharges(s, step);
      }
    }
    forall n | IsMetered(before, n) ensures IsMetered(after, n) {
      SectionKeepsMetered(s, step, n);
    }
  }

  lemma ActIsOrderly(s: State, step: Step, o: Outcome)
    requires Population(s) && SaneState(s) && Enabled(s, step) && !step.Flush? && o == Act(s, step)
    ensures Orderly(s.insts[o.actor].mem, o, s.db)
  {
    SectionKeepsSane(s, step);
    SectionKeepsRecords(s, step);
    if step.Account? && NewCharges(s, step) != [] {
      AccountChargesRecord(s, step);
    }
  }

  lemma PeaksOfOne(x: int)
    ensures Peaks([x]) == x
  {
    assert PeaksUpTo([x], 1) == PeaksUpTo([x], 0) + x;
  }

  /** A record that has just begun to be metered has no history. */
  lemma NewRecord(s: State, o: Outcome, rec: Rec, d: Dim)
    requires ChargesRooted(s) && o.actor < |s.insts| && Orderly(s.insts[o.actor].mem, o, s.db)
    requires rec in NewlyMetered(o.actor, s.insts[o.actor].mem, o.inst.mem) && rec !in s.metered
    ensures TellsOf(o.inst.mem, s.charges + o.charges, rec, d, Stored(o.inst.mem.sessions[rec.id]).Of(d))
  {
    var cs := s.charges + o.charges;
    forall c | c in cs ensures c.rec != rec {
      if c in s.charges {
        assert c.rec in s.metered;
      }
    }
    NoReports(cs, rec, d);
    var base := Stored(o.inst.mem.sessions[rec.id]).Of(d);
    assert [base] + [] == [base];
    PeaksOfOne(base);
  }

  lemma ToldMore(cs: seq<Charge>, c: Charge, rec: Rec, d: Dim, base: int, last: int)
    requires Told(cs, rec, d, base, last)
    requires c.rec == rec ==> SaneUsage(c.reported) && c.delta.Of(d) == Delta(c.reported.Of(d), last)
    ensures Told(cs + [c], rec, d, base, if c.rec == rec then c.reported.Of(d) else last)
  {
    var reports := [base] + ReportsOf(cs, rec, d);
    OneMoreCharge(cs, c, rec, d);
    if c.rec == rec {
      PeaksSnoc(reports, c.reported.Of(d));
      assert [base] + ReportsOf(cs + [c], rec, d) == reports + [c.reported.Of(d)];
    }
  }

  /** A record of the process continues its history. */
  lemma ToldAfter(before: Mem, o: Outcome, cs: seq<Charge>, rec: Rec, d: Dim, base: int, db: Db)
    requires Orderly(before, o, db) && rec.inst == o.actor && TellsOf(before, cs, rec, d, base)
    ensures TellsOf(o.inst.mem, cs + o.charges, rec, d, base)
  {
    if o.charges == [] {
      assert cs + o.charges == cs;
    } else {
      assert o.charges == [o.charges[0]];
      ToldMore(cs, o.charges[0], rec, d, base, Stored(before.sessions[rec.id]).Of(d));
    }
  }

  lemma ToldElsewhere(m: Mem, before: Mem, o: Outcome, cs: seq<Charge>, rec: Rec, d: Dim, base: int, db: Db)
    requires Orderly(before, o, db) && rec.inst != o.actor && TellsOf(m, cs, rec, d, base)
    ensures TellsOf(m, cs + o.charges, rec, d, base)
  {
    if o.charges == [] {
      assert cs + o.charges == cs;
    } else {
      assert o.charges == [o.charges[0]];
      ToldMore(cs, o.charges[0], rec, d, base, Stored(m.sessions[rec.id]).Of(d));
    }
  }

  lemma RecordAfter(s: State, o: Outcome, rec: Rec, d: Dim)
    requires History(s) && o.actor < |s.insts| && Orderly(s.insts[o.actor].mem, o, s.db)
    requires rec in Commit(s, o).metered
    ensures RecordBooks(Commit(s, o), rec, d)
  {
    if rec !in s.metered {
      NewRecord(s, o, rec, d);
    } else {
      assert RecordBooks(s, rec, d);
      if rec.inst == o.actor {
        ToldAfter(s.insts[o.actor].mem, o, s.charges, rec, d, s.metered[rec].Of(d), s.db);
      } else {
        ToldElsewhere(s.insts[rec.inst].mem, s.insts[o.actor].mem, o, s.charges, rec, d, s.metered[rec].Of(d), s.db);
      }
    }
  }

  lemma CommitKeepsRooted(s: State, o: Outcome)
    requires ChargesRooted(s) && o.actor < |s.insts| && Orderly(s.insts[o.actor].mem, o, s.db)
    requires forall rec :: InMemory(s, rec) && MetersRecord(s.insts[rec.inst].mem, rec.id) ==> rec in s.metered
    ensures ChargesRooted(Commit(s, o))
  {
    var s' := Commit(s, o);
    forall c | c in s'.charges
      ensures InMemory(s', c.rec) && c.rec in s'.metered
      ensures c.userId in s'.db.users && s'.db.users[c.userId].username == UserOf(s', c.rec)
    {
      if c !in s.charges {
        assert c == o.charges[0];
      }
      ChargeStaysRooted(s, o, c);
    }
  }

  lemma ChargeStaysRooted(s: State, o: Outcome, c: Charge)
    requires o.actor < |s.insts| && KeepsRecords(s.insts[o.actor].mem, o.inst.mem, o.charges)
    requires InMemory(s, c.rec) && c.rec in s.metered
    requires c.userId in s.db.users && s.db.users[c.userId].username == UserOf(s, c.rec)
    ensures var s' := Commit(s, o);
            && InMemory(s', c.rec) && c.rec in s'.metered
            && c.userId in s'.db.users && s'.db.users[c.userId].username == UserOf(s', c.rec)
  {
  }

  lemma CommitKeepsHistory(s: State, o: Outcome)
    requires History(s) && o.actor < |s.insts| && Orderly(s.insts[o.actor].mem, o, s.db)
    ensures History(Commit(s, o))
  {
    var s' := Commit(s, o);
    CommitKeepsRooted(s, o);
    forall rec, d: Dim | rec in s'.metered ensures RecordBooks(s', rec, d) {
      RecordAfter(s, o, rec, d);
    }
  }

  lemma LandKeepsHistory(s: State, k: nat, now: Time)
    requires History(s) && k < |s.pending|
    ensures History(Land(s, k, now))
  {
    var s' := Land(s, k, now);
    ExecuteKeepsPopulation(s.db, s.pending[k], now);
    forall rec, d: Dim | rec in s'.metered ensures RecordBooks(s', rec, d) {
      assert RecordBooks(s, rec, d);
    }
  }

  lemma HistoryStep(s: State, step: Step)
    requires Population(s) && SaneState(s) && History(s) && Enabled(s, step)
    ensures History(Apply(s, step))
  {
    if step.Flush? {
      LandKeepsHistory(s, step.k, step.now);
    } else {
      ActIsOrderly(s, step, Act(s, step));
      CommitKeepsHistory(s, Act(s, step));
    }
  }

  lemma {:induction false} HistoryRun(s: State, steps: seq<Step>)
    requires Population(s) && SaneState(s) && History(s) && IsRun(s, steps)
    ensures History(Run(s, steps)) && SaneState(Run(s, steps)) && Population(Run(s, steps))
    decreases |steps|
  {
    if steps != [] {
      PopulationStep(s, steps[0]);
      SaneStep(s, steps[0]);
      HistoryStep(s, steps[0]);
      HistoryRun(Apply(s, steps[0]), steps[1..]);
    }
  }

  /** Main result. In every reachable state, the metered records are exactly those in memory
      whose user is cached as a voucher, and each has been charged the peaks of everything
      reported for it since it is metered, beyond the counter it had then. */
  lemma EveryRecordIsChargedItsPeaks(s0: State, steps: seq<Step>, s: State, rec: Rec, d: Dim)
    requires Init(s0) && IsRun(s0, steps) && s == Run(s0, steps)
    ensures rec in s.metered <==> InMemory(s, rec) && MetersRecord(s.insts[rec.inst].mem, rec.id)
    ensures rec in s.metered ==>
              RecordCharge(s.charges, rec, d)
              == Peaks([s.metered[rec].Of(d)] + ReportsOf(s.charges, rec, d)) - s.metered[rec].Of(d)
  {
    InitHistory(s0);
    HistoryRun(s0, steps);
    if rec in s.metered {
      assert RecordBooks(s, rec, d);
    }
  }

  lemma InitHistory(s: State)
    requires Init(s)
    ensures Population(s) && SaneState(s) && History(s)
  {
  }

  // ----- what a user is charged, record by record -----

  function ChargeOver(cs: seq<Charge>, recs: seq<Rec>, d: Dim): int {
    if recs == [] then 0 else RecordCharge(cs, recs[0], d) + ChargeOver(cs, recs[1..], d)
  }

  lemma {:induction false} ChargeOverMore(cs: seq<Charge>, c: Charge, recs: seq<Rec>, d: Dim)
    requires Distinct(recs)
    ensures ChargeOver(cs + [c], recs, d) == ChargeOver(cs, recs, d) + if c.rec in recs then c.delta.Of(d) else 0
    decreases |recs|
  {
    if recs != [] {
      OneMoreCharge(cs, c, recs[0], d);
      ChargeOverMore(cs, c, recs[1..], d);
      assert recs == [recs[0]] + recs[1..];
    }
  }

  lemma {:induction false} ChargeOverNone(recs: seq<Rec>, d: Dim)
    ensures ChargeOver([], recs, d) == 0
    decreases |recs|
  {
    if recs != [] {
      ChargeOverNone(recs[1..], d);
    }
  }

  /** Adding up record by record gives the same as adding up charge by charge. */
  lemma {:induction false} ChargesByRecord(cs: seq<Charge>, recs: seq<Rec>, uid: string, d: Dim)
    requires Distinct(recs) && forall c :: c in cs ==> (c.userId == uid <==> c.rec in recs)
    ensures Sum(ChargedTo(uid, d), cs) == ChargeOver(cs, recs, d)
    decreases |cs|
  {
    if cs == [] {
      ChargeOverNone(recs, d);
    } else {
      var front, c := cs[..|cs| - 1], cs[|cs| - 1];
      assert cs == front + [c];
      ChargesByRecord(front, recs, uid, d);
      ChargeOverMore(front, c, recs, d);
      SumSnoc(ChargedTo(uid, d), front, c);
    }
  }

  /** The simple specification of a user's usage: the peaks of every session. */
  function PeakSum(s: State, recs: seq<Rec>, d: Dim): int
    requires forall rec :: rec in recs ==> rec in s.metered
  {
    if recs == [] then 0
    else
      Peaks([s.metered[recs[0]].Of(d)] + ReportsOf(s.charges, recs[0], d)) - s.metered[recs[0]].Of(d)
      + PeakSum(s, recs[1..], d)
  }

  lemma {:induction false} PeaksByRecord(s: State, recs: seq<Rec>, d: Dim)
    requires History(s) && forall rec :: rec in recs ==> rec in s.metered
    ensures ChargeOver(s.charges, recs, d) == PeakSum(s, recs, d)
    decreases |recs|
  {
    if recs != [] {
      assert RecordBooks(s, recs[0], d);
      PeaksByRecord(s, recs[1..], d);
    }
  }

  /** The metered records of user `n`, each once. */
  ghost predicate RecordsOf(s: State, n: string, recs: seq<Rec>) {
    && Distinct(recs)
    && (forall rec :: rec in recs <==> rec in s.metered && InMemory(s, rec) && UserOf(s, rec) == n)
  }

  lemma UserIsChargedThePeaks(s: State, n: string, uid: string, recs: seq<Rec>, d: Dim)
    requires Population(s) && History(s) && RecordsOf(s, n, recs)
    requires uid in s.db.users && s.db.users[uid].username == n
    ensures ChargesTo(s, uid, d) == PeakSum(s, recs, d)
  {
    forall c | c in s.charges ensures c.userId == uid <==> c.rec in recs {
      assert InMemory(s, c.rec) && s.db.users[c.userId].username == UserOf(s, c.rec);
    }
    ChargesByRecord(s.charges, recs, uid, d);
    PeaksByRecord(s, recs, d);
  }

  /** Main result. A voucher is charged, in every reachable state and for any number of
      processes, exactly the sum over its metered records of the peaks reported for each
      since its process began to meter it; the database and what is on its way to it show
      the initial usage plus that sum. */
  lemma UsageIsPeaksOfSessions(s0: State, steps: seq<Step>, s: State, n: string, uid: string, recs: seq<Rec>, d: Dim)
    requires Init(s0) && IsRun(s0, steps) && s == Run(s0, steps)
    requires uid in s0.db.users && s0.db.users[uid].username == n
    requires RecordsOf(s, n, recs)
    ensures ChargesTo(s, uid, d) == PeakSum(s, recs, d)
    ensures InColumns(s, uid, s0.db.users[uid].usage) ==>
              uid in s.db.users && Outstanding(s, uid, d) == s0.db.users[uid].usage.Of(d) + PeakSum(s, recs, d)
  {
    InitHistory(s0);
    HistoryRun(s0, steps);
    PopulationRun(s0, steps);
    UserIsChargedThePeaks(s, n, uid, recs, d);
    InitBooks(s0, uid);
    BooksRun(s0, steps, uid, s0.db.users[uid].usage);
    if InColumns(s, uid, s0.db.users[uid].usage) {
      assert Balanced(s, uid, s0.db.users[uid].usage, d);
    }
  }
}
