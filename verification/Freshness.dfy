/** Which sessions a cleanup may end: those not heard of since its cutoff
    (internal/radius/accounting.go, service.go). */
module Freshness {
  import opened Domain
  import opened Counters
  import opened ServerSpec
  import opened Cluster
  import opened Metering
  import Convergence
  import SessionLaws

  /** A record that was started or updated at `now` is stale for no earlier cutoff. */
  lemma HeardOfIsNotStale(m: Mem, id: string, s: Session, r: Report, stop: bool, now: Time, cutoff: Time)
    requires cutoff <= now
    ensures s.id == id && s.lastUpdate == now ==> id !in StaleIds(AcctStart(m, s).mem.sessions, cutoff)
    ensures id in m.sessions ==> id !in StaleIds(AcctUpdate(m, id, r, stop, now).mem.sessions, cutoff)
  {
  }

  // ----- when a process has heard of a session -----

  /** The first row of a session. */
  function FirstRow(rows: seq<Session>, id: string): Option<Session> {
    if rows == [] then None else if rows[0].id == id then Some(rows[0]) else FirstRow(rows[1..], id)
  }

  /** When the step makes process `i` hear of the session: its start, an update of it, or a
      reconciliation that brings it in, which counts from its row. */
  function HeardBy(s: State, step: Step, i: nat, id: string): seq<Time> {
    match step
    case StartSession(j, k, _, _, _, now) => if j == i && k == id then [now] else []
    case Account(j, k, _, _, now) => if j == i && k == id then [now] else []
    case MergeSessions(j, k) =>
      if j == i && j < |s.insts| && k < |s.insts[j].sessionRows| && id !in s.insts[j].mem.sessions
         && FirstRow(s.insts[j].sessionRows[k], id).Some?
      then [FirstRow(s.insts[j].sessionRows[k], id).value.lastUpdate] else []
    case _ => []
  }

  /** The times in a run at which process `i` heard of the session, in order. */
  ghost function Heard(s: State, steps: seq<Step>, i: nat, id: string): seq<Time>
    requires IsRun(s, steps)
    decreases |steps|
  {
    if steps == [] then [] else HeardBy(s, steps[0], i, id) + Heard(Apply(s, steps[0]), steps[1..], i, id)
  }

  /** An active record shows when it was last heard of. */
  ghost predicate ShowsLast(ss: map<string, Session>, id: string, heard: seq<Time>) {
    && (id in ss ==> heard != [])
    && (id in ss && ss[id].status == Active ==> ss[id].lastUpdate == heard[|heard| - 1])
  }

  lemma {:induction false} FirstRowIsFirst(rows: seq<Session>, id: string)
    ensures FirstRow(rows, id).None? <==> forall j :: 0 <= j < |rows| ==> rows[j].id != id
    ensures FirstRow(rows, id).Some? ==>
              exists j :: 0 <= j < |rows| && rows[j].id == id && FirstRow(rows, id).value == rows[j]
                       && forall k :: 0 <= k < j ==> rows[k].id != id
    decreases |rows|
  {
    if rows != [] {
      FirstRowIsFirst(rows[1..], id);
      if rows[0].id != id {
        assert forall j :: 0 < j < |rows| ==> rows[j] == rows[1..][j - 1];
        if FirstRow(rows[1..], id).Some? {
          var j :| 0 <= j < |rows[1..]| && rows[1..][j].id == id && FirstRow(rows[1..], id).value == rows[1..][j]
                && forall k :: 0 <= k < j ==> rows[1..][k].id != id;
          assert rows[j + 1].id == id && FirstRow(rows, id).value == rows[j + 1];
        }
      }
    }
  }

  lemma ReconciledRecord(ss: map<string, Session>, rows: seq<Session>, id: string)
    ensures id in ss ==> id in Reconciled(ss, rows) && Reconciled(ss, rows)[id] == ss[id]
    ensures id !in ss ==> (id in Reconciled(ss, rows) <==> FirstRow(rows, id).Some?)
    ensures id !in ss && id in Reconciled(ss, rows) ==> Reconciled(ss, rows)[id] == FirstRow(rows, id).value
  {
    SessionLaws.ReconcileIsExact(ss, rows, id);
    FirstRowIsFirst(rows, id);
  }

  /** Marking ends records and touches no active one that it leaves active. */
  lemma MarkingShows(ss: map<string, Session>, cutoff: Time, now: Time, n: string, nas: string, answer: PodAnswer,
                     id: string, heard: seq<Time>)
    requires ShowsLast(ss, id, heard)
    ensures ShowsLast(Cleaned(ss, cutoff, now), id, heard) && ShowsLast(Answered(ss, n, nas, answer, now), id, heard)
  {
  }

  lemma SectionShows(s: State, step: Step, id: string, heard: seq<Time>)
    requires Enabled(s, step) && !step.Flush? && ShowsLast(s.insts[Actor(s, step)].mem.sessions, id, heard)
    ensures ShowsLast(Section(s, step).mem.sessions, id, heard + HeardBy(s, step, Actor(s, step), id))
  {
    var ss := s.insts[Actor(s, step)].mem.sessions;
    assert heard + [] == heard;
    if !TouchesSessions(step) {
      SectionKeepsSessions(s, step);
    } else {
      match step
      case CleanSessions(_, cutoff, now, _) => MarkingShows(ss, cutoff, now, "", "", Nak, id, heard);
      case PodAnswered(_, n, nas, answer, now) => MarkingShows(ss, now, now, n, nas, answer, id, heard);
      case MergeSessions(i, k) => ReconciledRecord(ss, s.insts[i].sessionRows[k], id);
      case Account(_, _, _, _, _) =>
      case StartSession(_, _, _, _, _, _) =>
    }
  }

  lemma ShowsStep(s: State, step: Step, i: nat, id: string, heard: seq<Time>)
    requires Enabled(s, step) && i < |s.insts| && ShowsLast(s.insts[i].mem.sessions, id, heard)
    ensures i < |Apply(s, step).insts| && ShowsLast(Apply(s, step).insts[i].mem.sessions, id, heard + HeardBy(s, step, i, id))
  {
    if step.Flush? || Actor(s, step) != i {
      OthersUntouched(s, step, i);
      assert HeardBy(s, step, i, id) == [] && heard + [] == heard;
    } else {
      SectionShows(s, step, id, heard);
    }
  }

  lemma {:induction false} ShowsRun(s: State, steps: seq<Step>, i: nat, id: string, heard: seq<Time>)
    requires IsRun(s, steps) && i < |s.insts| && ShowsLast(s.insts[i].mem.sessions, id, heard)
    ensures i < |Run(s, steps).insts| && ShowsLast(Run(s, steps).insts[i].mem.sessions, id, heard + Heard(s, steps, i, id))
    decreases |steps|
  {
    if steps == [] {
      assert heard + [] == heard;
    } else {
      var s1, more := Apply(s, steps[0]), HeardBy(s, steps[0], i, id);
      ShowsStep(s, steps[0], i, id, heard);
      ShowsRun(s1, steps[1..], i, id, heard + more);
      AppendTwice(heard, more, Heard(s1, steps[1..], i, id));
    }
  }

  lemma AppendTwice<T>(a: seq<T>, b: seq<T>, c: seq<T>)
    ensures a + b + c == a + (b + c)
  {
  }

  lemma CleanupOf(s: State, clean: Step, id: string, heard: seq<Time>)
    requires Enabled(s, clean) && clean.CleanSessions? && ShowsLast(s.insts[clean.inst].mem.sessions, id, heard)
    requires id in s.insts[clean.inst].mem.sessions
    ensures heard != [] && id in Section(s, clean).mem.sessions
    ensures var x, x' := s.insts[clean.inst].mem.sessions[id], Section(s, clean).mem.sessions[id];
            && (x.status == Active ==> (x'.status != Active <==> heard[|heard| - 1] < clean.cutoff))
            && (x' != x ==> x.status == Active && x'.status != Active)
  {
  }

  /** Main result. In every run, a cleanup ends exactly the active sessions that its process
      has last heard of before the cutoff; and when its clock has not gone backwards, it ends
      no session heard of, by a start, an update or the row it came in with, at the cutoff or
      later. */
  lemma CleanupEndsIff(s0: State, steps: seq<Step>, s: State, clean: Step, id: string)
    requires Init(s0) && IsRun(s0, steps) && s == Run(s0, steps) && Enabled(s, clean) && clean.CleanSessions?
    requires id in s.insts[clean.inst].mem.sessions
    ensures Heard(s0, steps, clean.inst, id) != [] && id in Section(s, clean).mem.sessions
    ensures var heard, x, x' := Heard(s0, steps, clean.inst, id), s.insts[clean.inst].mem.sessions[id], Section(s, clean).mem.sessions[id];
            && (x.status == Active ==> (x'.status != Active <==> heard[|heard| - 1] < clean.cutoff))
            && (x' != x && NonDecreasing(heard) ==> forall k :: 0 <= k < |heard| ==> heard[k] < clean.cutoff)
  {
    var heard := Heard(s0, steps, clean.inst, id);
    ShownFromStart(s0, steps, s, clean.inst, id);
    CleanupOf(s, clean, id, heard);
    if NonDecreasing(heard) {
      LastIsLatest(heard);
    }
  }

  lemma ShownFromStart(s0: State, steps: seq<Step>, s: State, i: nat, id: string)
    requires Init(s0) && IsRun(s0, steps) && s == Run(s0, steps) && i < |s.insts|
    ensures ShowsLast(s.insts[i].mem.sessions, id, Heard(s0, steps, i, id))
  {
    Convergence.SameProcesses(s0, steps);
    ShowsRun(s0, steps, i, id, []);
    assert [] + Heard(s0, steps, i, id) == Heard(s0, steps, i, id);
  }

  lemma {:induction false} LastIsLatest(times: seq<Time>)
    requires times != [] && NonDecreasing(times)
    ensures forall k :: 0 <= k < |times| ==> times[k] <= times[|times| - 1]
    decreases |times|
  {
    if |times| > 1 {
      var front := times[..|times| - 1];
      assert forall k :: 0 <= k < |front| ==> front[k] == times[k];
      LastIsLatest(front);
      assert times[|times| - 2] <= times[|times| - 1];
    }
  }
}
