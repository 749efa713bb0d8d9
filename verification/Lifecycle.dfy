/** The life of a session over whole runs: a process that has seen a session end never
    takes it for active again, and a disconnect all of whose NASes answer ends every
    session it was meant to end (internal/radius/service.go, coa.go). */
module Lifecycle {
  import opened Domain
  import opened Counters
  import opened Hosts
  import opened ServerSpec
  import opened Cluster
  import opened Metering
  import opened Applied

  predicate Ended(s: Session) { s.status != Active }

  // ----- no session comes back to life -----

  /** Records stay, belong to the same user at the same address, and stay ended. */
  ghost predicate Ages(before: map<string, Session>, after: map<string, Session>) {
    forall id :: id in before ==>
      && id in after && after[id].username == before[id].username && after[id].nasIp == before[id].nasIp
      && (Ended(before[id]) ==> Ended(after[id]))
  }

  ghost predicate Older(s: State, s': State) {
    && |s.insts| == |s'.insts|
    && (forall i :: 0 <= i < |s.insts| ==> Ages(s.insts[i].mem.sessions, s'.insts[i].mem.sessions))
  }

  lemma ReconciledAges(ss: map<string, Session>, rows: seq<Session>)
    ensures Ages(ss, Reconciled(ss, rows))
  {
  }

  lemma AccountAges(m: Mem, id: string, r: Report, stop: bool, now: Time)
    requires id in m.sessions
    ensures Ages(m.sessions, AcctUpdate(m, id, r, stop, now).mem.sessions)
  {
  }

  lemma SectionAges(s: State, step: Step)
    requires Enabled(s, step) && !step.Flush?
    ensures Ages(s.insts[Actor(s, step)].mem.sessions, Section(s, step).mem.sessions)
  {
    if !TouchesSessions(step) {
      SectionKeepsSessions(s, step);
    } else if step.MergeSessions? {
      ReconciledAges(s.insts[step.inst].mem.sessions, s.insts[step.inst].sessionRows[step.k]);
    } else if step.Account? {
      AccountAges(s.insts[step.inst].mem, step.id, step.report, step.stop, step.now);
    }
  }

  lemma CommitAges(s: State, o: Outcome)
    requires o.actor < |s.insts| && Ages(s.insts[o.actor].mem.sessions, o.inst.mem.sessions)
    ensures Older(s, Commit(s, o))
  {
  }

  lemma OlderStep(s: State, step: Step)
    requires Enabled(s, step)
    ensures Older(s, Apply(s, step))
  {
    if !step.Flush? {
      SectionAges(s, step);
      CommitAges(s, Act(s, step));
    }
  }

  lemma OlderTransitive(a: State, b: State, c: State)
    requires Older(a, b) && Older(b, c)
    ensures Older(a, c)
  {
  }

  /** Main result. Whatever upserts land in whatever order, and whatever stale rows are
      reconciled, a session that a process has seen end is never active there again. */
  lemma {:induction false} EndedSessionsStayEnded(s: State, steps: seq<Step>)
    requires IsRun(s, steps)
    ensures Older(s, Run(s, steps))
    decreases |steps|
  {
    if steps != [] {
      OlderStep(s, steps[0]);
      EndedSessionsStayEnded(Apply(s, steps[0]), steps[1..]);
      OlderTransitive(s, Apply(s, steps[0]), Run(s, steps));
    }
  }

  // ----- active means no stop time -----

  predicate Clocked(s: Session) { s.status == Active <==> s.stopTime.None? }

  ghost predicate ClockedTable(ss: map<string, Session>) { forall id :: id in ss ==> Clocked(ss[id]) }

  ghost predicate ClockedRows(rows: seq<Session>) { forall j :: 0 <= j < |rows| ==> Clocked(rows[j]) }

  ghost predicate ClockedWrites(ws: seq<Write>) { forall w :: w in ws && w.Upsert? ==> Clocked(w.session) }

  ghost predicate ClockedState(s: State) {
    && ClockedTable(s.db.sessions)
    && ClockedWrites(s.pending)
    && (forall i :: 0 <= i < |s.insts| ==> ClockedTable(s.insts[i].mem.sessions))
    && (forall i :: 0 <= i < |s.insts| ==> forall rows :: rows in s.insts[i].sessionRows ==> ClockedRows(rows))
  }

  lemma {:induction false} ClockedUpserts(ss: map<string, Session>, order: seq<string>, now: Time)
    ensures ClockedWrites(Upserts(ss, order, now))
    decreases |order|
  {
    if order != [] {
      ClockedUpserts(ss, order[..|order| - 1], now);
    }
  }

  lemma ClockedReconciled(ss: map<string, Session>, rows: seq<Session>)
    requires ClockedTable(ss) && ClockedRows(rows)
    ensures ClockedTable(Reconciled(ss, rows))
  {
  }

  lemma AccountKeepsClocks(m: Mem, id: string, r: Report, stop: bool, now: Time)
    requires ClockedTable(m.sessions) && id in m.sessions
    ensures ClockedTable(AcctUpdate(m, id, r, stop, now).mem.sessions)
    ensures ClockedWrites(AcctUpdate(m, id, r, stop, now).writes)
  {
  }

  lemma SectionKeepsClocks(s: State, step: Step)
    requires ClockedState(s) && Enabled(s, step) && !step.Flush?
    ensures ClockedTable(Section(s, step).mem.sessions) && ClockedWrites(Section(s, step).writes)
  {
    var inst := s.insts[Actor(s, step)];
    assert ClockedTable(inst.mem.sessions);
    if !TouchesSessions(step) {
      SectionKeepsSessions(s, step);
    } else if step.Account? {
      AccountKeepsClocks(inst.mem, step.id, step.report, step.stop, step.now);
    } else if step.CleanSessions? {
      ClockedUpserts(inst.mem.sessions, step.order, step.now);
    } else if step.MergeSessions? {
      assert inst.sessionRows[step.k] in inst.sessionRows;
      ClockedReconciled(inst.mem.sessions, inst.sessionRows[step.k]);
    }
  }

  lemma ReadsStayClocked(s: State, step: Step)
    requires ClockedState(s) && Enabled(s, step) && !step.Flush?
    ensures forall rows :: rows in NextSessionRows(s.insts[Actor(s, step)], step) ==> ClockedRows(rows)
  {
  }

  lemma CommitKeepsClocks(s: State, o: Outcome)
    requires ClockedState(s) && o.actor < |s.insts|
    requires ClockedTable(o.inst.mem.sessions) && ClockedWrites(o.writes)
    requires forall rows :: rows in o.inst.sessionRows ==> ClockedRows(rows)
    ensures ClockedState(Commit(s, o))
  {
  }

  lemma LandKeepsClocks(s: State, k: nat, now: Time)
    requires ClockedState(s) && k < |s.pending|
    ensures ClockedState(Land(s, k, now))
  {
  }

  lemma {:induction false} ClockedRun(s: State, steps: seq<Step>)
    requires ClockedState(s) && IsRun(s, steps)
    ensures ClockedState(Run(s, steps))
    decreases |steps|
  {
    if steps != [] {
      ClockedStep(s, steps[0]);
      ClockedRun(Apply(s, steps[0]), steps[1..]);
    }
  }

  /** Main result. When it is so in the rows that processes start over, then in every run, in
      every process, in every list read and in every row, a session is active exactly when it
      has no stop time. */
  lemma ActiveMeansNoStopTime(s0: State, steps: seq<Step>)
    requires Init(s0) && ClockedTable(s0.db.sessions) && IsRun(s0, steps)
    ensures ClockedState(Run(s0, steps))
  {
    ClockedRun(s0, steps);
  }

  lemma ClockedStep(s: State, step: Step)
    requires ClockedState(s) && Enabled(s, step)
    ensures ClockedState(Apply(s, step))
  {
    if step.Flush? {
      LandKeepsClocks(s, step.k, step.now);
    } else {
      SectionKeepsClocks(s, step);
      ReadsStayClocked(s, step);
      CommitKeepsClocks(s, Act(s, step));
    }
  }

  // ----- a disconnect while the server goes on working -----

  /** In the run, every NAS on the list has answered this process, and none refused. */
  ghost predicate AllAnswered(steps: seq<Step>, i: nat, n: string, nasMap: map<string, string>) {
    forall nas :: nas in nasMap ==> exists step :: step in steps && AnswersPod(step, i, n, nas)
  }

  predicate AnswersPod(step: Step, i: nat, n: string, nas: string) {
    step.PodAnswered? && step.inst == i && step.username == n && step.nas == nas && step.answer != Nak
  }

  /** A session whose NAS is registered, at an address an answer can match. */
  predicate Reachable(m: Mem, s: Session) {
    HostOf(s.nasIp) in m.nases && BracketFree(HostOf(s.nasIp)) && (s.nasIp == "" || s.nasIp[0] != '[')
  }

  /** A record that an answer from `nas` addresses. */
  predicate AddressedBy(m: Mem, id: string, n: string, nas: string) {
    && id in m.sessions && m.sessions[id].username == n
    && (var a := m.sessions[id].nasIp; BracketFree(HostOf(a)) && (a == "" || a[0] != '[') && nas == PodAddress(HostOf(a)))
  }

  /** A NAS that refuses a disconnect leaves the whole cluster as it was. */
  lemma RefusedAnswerChangesNothing(s: State, step: Step)
    requires Enabled(s, step) && step.PodAnswered? && step.answer == Nak
    ensures Apply(s, step) == s
  {
    var i, m := step.inst, s.insts[step.inst].mem;
    assert Section(s, step) == Effect(m, []);
    assert NewlyMetered(i, m, m) == map[];
    assert s.insts[i := s.insts[i]] == s.insts;
  }

  predicate EndedAt(s: State, i: nat, id: string) {
    i < |s.insts| && id in s.insts[i].mem.sessions && Ended(s.insts[i].mem.sessions[id])
  }

  lemma StaysEndedAt(s: State, steps: seq<Step>, i: nat, id: string)
    requires IsRun(s, steps) && EndedAt(s, i, id)
    ensures EndedAt(Run(s, steps), i, id)
  {
    EndedSessionsStayEnded(s, steps);
    assert Ages(s.insts[i].mem.sessions, Run(s, steps).insts[i].mem.sessions);
  }

  lemma StaysAddressed(s: State, s1: State, i: nat, n: string, nas: string, id: string)
    requires Older(s, s1) && i < |s.insts| && AddressedBy(s.insts[i].mem, id, n, nas)
    ensures i < |s1.insts| && AddressedBy(s1.insts[i].mem, id, n, nas)
  {
  }

  lemma AnswerEnds(s: State, step: Step, i: nat, n: string, nas: string, id: string)
    requires Enabled(s, step) && i < |s.insts| && AddressedBy(s.insts[i].mem, id, n, nas) && AnswersPod(step, i, n, nas)
    ensures EndedAt(Apply(s, step), i, id)
  {
    var s' := AnswerApplied(s, step);
    AnsweredEnds(s.insts[i].mem, id, n, nas, step.answer, step.now);
  }

  lemma AnsweredEnds(m: Mem, id: string, n: string, nas: string, answer: PodAnswer, now: Time)
    requires AddressedBy(m, id, n, nas) && answer != Nak
    ensures var ss := Answered(m.sessions, n, nas, answer, now);
            id in ss && Ended(ss[id])
  {
    AckReachesSessionIff(m.sessions[id].nasIp);
  }

  /** An answer anywhere in the run leaves the session ended. */
  lemma {:induction false} AnswerInRunEnds(s: State, steps: seq<Step>, step: Step, i: nat, n: string, nas: string,
                                           id: string)
    requires IsRun(s, steps) && step in steps && AnswersPod(step, i, n, nas)
    requires i < |s.insts| && AddressedBy(s.insts[i].mem, id, n, nas)
    ensures EndedAt(Run(s, steps), i, id)
    decreases |steps|
  {
    var s1 := Apply(s, steps[0]);
    if steps[0] == step {
      AnswerEnds(s, step, i, n, nas, id);
      StaysEndedAt(s1, steps[1..], i, id);
    } else {
      OlderStep(s, steps[0]);
      StaysAddressed(s, s1, i, n, nas, id);
      AnswerInRunEnds(s1, steps[1..], step, i, n, nas, id);
    }
  }

  /** Main result. When every NAS collected for a disconnect has acknowledged or failed to
      answer, every session of the user that was active and reachable at collection has
      ended, with a stop time, however accounting, cleanup and refreshes interleaved. */
  lemma DisconnectEndsSessions(s0: State, before: seq<Step>, s: State, steps: seq<Step>, s': State,
                               i: nat, n: string, nasMap: map<string, string>, id: string)
    requires Init(s0) && ClockedTable(s0.db.sessions) && IsRun(s0, before) && s == Run(s0, before)
    requires IsRun(s, steps) && s' == Run(s, steps) && i < |s.insts|
    requires Collects(s.insts[i].mem, n, nasMap) && AllAnswered(steps, i, n, nasMap)
    requires id in s.insts[i].mem.sessions && IsActiveOf(s.insts[i].mem.sessions[id], n)
    requires Reachable(s.insts[i].mem, s.insts[i].mem.sessions[id])
    ensures EndedAt(s', i, id) && s'.insts[i].mem.sessions[id].stopTime.Some?
  {
    var nas := PodAddress(HostOf(s.insts[i].mem.sessions[id].nasIp));
    assert nas in nasMap;
    var step :| step in steps && AnswersPod(step, i, n, nas);
    AnswerInRunEnds(s, steps, step, i, n, nas, id);
    ClockedRun(s0, before);
    ClockedRun(s, steps);
    assert ClockedTable(s'.insts[i].mem.sessions);
  }
}
