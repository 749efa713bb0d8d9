/** What the database row of a session shows: the upsert that landed last. When that is the
    end of the session, and how a row, and with it another process, takes an ended session
    for active (internal/radius/accounting.go, service.go). */
module SessionRows {
  import opened Domain
  import opened Sums
  import opened Counters
  import opened ServerSpec
  import opened Database
  import opened Cluster
  import opened Lifecycle
  import opened Applied
  import opened Metering
  import SessionLaws

  predicate UpsertOf(w: Write, id: string) { w.Upsert? && w.session.id == id }

  // ----- the row is the upsert that landed last -----

  /** The statements that reached the database in a run, in the order they did. */
  ghost function Landed(s: State, steps: seq<Step>): seq<Write>
    requires IsRun(s, steps)
    decreases |steps|
  {
    if steps == [] then [] else LandedBy(s, steps[0]) + Landed(Apply(s, steps[0]), steps[1..])
  }

  function LandedBy(s: State, step: Step): seq<Write> {
    if step.Flush? && step.k < |s.pending| then [s.pending[step.k]] else []
  }

  function LastUpsert(ws: seq<Write>, id: string): Option<Session> {
    if ws == [] then None
    else if LastUpsert(ws[1..], id).Some? then LastUpsert(ws[1..], id)
    else if UpsertOf(ws[0], id) then Some(ws[0].session)
    else None
  }

  lemma LandedFirst(db: Db, w: Write, now: Time, rest: seq<Write>, id: string)
    ensures Get(Execute(db, w, now).sessions, id) == if UpsertOf(w, id) then Some(w.session) else Get(db.sessions, id)
    ensures LastUpsert([w] + rest, id) ==
              if LastUpsert(rest, id).Some? then LastUpsert(rest, id)
              else if UpsertOf(w, id) then Some(w.session) else None
  {
    assert ([w] + rest)[1..] == rest;
  }

  lemma LandedByStep(s: State, step: Step, s1: State, rest: seq<Write>, id: string)
    requires Enabled(s, step) && s1 == Apply(s, step)
    ensures var last := LastUpsert(LandedBy(s, step) + rest, id);
            (if LastUpsert(rest, id).Some? then LastUpsert(rest, id) else Get(s1.db.sessions, id))
              == if last.Some? then last else Get(s.db.sessions, id)
  {
    if step.Flush? {
      LandedFirst(s.db, s.pending[step.k], step.now, rest, id);
    } else {
      assert [] + rest == rest;
    }
  }

  /** In every run the row of a session is the last upsert of it that landed. */
  lemma {:induction false} RowIsLastLanded(s: State, steps: seq<Step>, id: string)
    requires IsRun(s, steps)
    ensures var last := LastUpsert(Landed(s, steps), id);
            Get(Run(s, steps).db.sessions, id) == if last.Some? then last else Get(s.db.sessions, id)
    decreases |steps|
  {
    if steps != [] {
      var s1 := Apply(s, steps[0]);
      RowIsLastLanded(s1, steps[1..], id);
      LandedByStep(s, steps[0], s1, Landed(s1, steps[1..]), id);
    }
  }

  lemma {:induction false} LastUpsertIsLast(ws: seq<Write>, id: string)
    ensures LastUpsert(ws, id).None? <==> forall k :: 0 <= k < |ws| ==> !UpsertOf(ws[k], id)
    ensures LastUpsert(ws, id).Some? ==>
              exists k :: IsLast(ws, id, k) && LastUpsert(ws, id).value == ws[k].session
    decreases |ws|
  {
    if ws != [] {
      var rest := ws[1..];
      LastUpsertIsLast(rest, id);
      assert forall k :: 0 <= k < |rest| ==> rest[k] == ws[k + 1];
      if LastUpsert(rest, id).Some? {
        var k :| IsLast(rest, id, k) && LastUpsert(rest, id).value == rest[k].session;
        assert IsLast(ws, id, k + 1) by {
          assert forall j :: k + 1 < j < |ws| ==> ws[j] == rest[j - 1];
        }
      } else if UpsertOf(ws[0], id) {
        assert IsLast(ws, id, 0) by {
          assert forall j :: 0 < j < |ws| ==> ws[j] == rest[j - 1];
        }
      } else {
        assert forall j :: 0 < j < |ws| ==> ws[j] == rest[j - 1];
      }
    }
  }

  predicate IsLast(ws: seq<Write>, id: string, k: int) {
    0 <= k < |ws| && UpsertOf(ws[k], id) && forall j :: k < j < |ws| ==> !UpsertOf(ws[j], id)
  }

  /** An active upsert landed at `k`, and no ended one after it. */
  predicate ActiveLast(ws: seq<Write>, id: string, k: int) {
    && 0 <= k < |ws| && UpsertOf(ws[k], id) && !Ended(ws[k].session)
    && forall j :: k < j < |ws| && UpsertOf(ws[j], id) ==> !Ended(ws[j].session)
  }

  /** Exactly when the row of a session of which something has landed shows it active: an
      active upsert landed after every ended one. */
  lemma RowIsActiveIff(s: State, steps: seq<Step>, id: string)
    requires IsRun(s, steps) && exists k :: 0 <= k < |Landed(s, steps)| && UpsertOf(Landed(s, steps)[k], id)
    ensures id in Run(s, steps).db.sessions
    ensures !Ended(Run(s, steps).db.sessions[id]) <==> exists k :: ActiveLast(Landed(s, steps), id, k)
  {
    var ws := Landed(s, steps);
    RowIsLastLanded(s, steps, id);
    LastUpsertIsLast(ws, id);
    var last :| IsLast(ws, id, last) && LastUpsert(ws, id).value == ws[last].session;
    if !Ended(ws[last].session) {
      assert ActiveLast(ws, id, last);
    }
    if k :| ActiveLast(ws, id, k) {
      assert k <= last;
    }
  }

  // ----- upserts that land in the order they were spawned -----

  ghost predicate Keyed(ss: map<string, Session>) { forall k :: k in ss ==> ss[k].id == k }

  /** Only process `i` holds the session. */
  ghost predicate OneHolder(s: State, i: nat, id: string) {
    i < |s.insts| && forall j :: 0 <= j < |s.insts| && j != i ==> id !in s.insts[j].mem.sessions
  }

  predicate RowEnded(db: Db, id: string) { id in db.sessions && Ended(db.sessions[id]) }

  ghost predicate SomeEnded(s: State, id: string) {
    RowEnded(s.db, id) || exists w :: w in s.pending && UpsertOf(w, id) && Ended(w.session)
  }

  /** Behind the end of the session nothing but its end is on the way to the row, and the
      holder has seen it end. */
  ghost predicate Ordered(s: State, i: nat, id: string) {
    && OneHolder(s, i, id)
    && (forall j :: 0 <= j < |s.insts| ==> Keyed(s.insts[j].mem.sessions))
    && EndsBehind(s.pending, id)
    && (RowEnded(s.db, id) ==> AllEnded(s.pending, id))
    && (SomeEnded(s, id) ==> EndedAt(s, i, id))
  }

  ghost predicate AllEnded(ws: seq<Write>, id: string) { forall w :: w in ws && UpsertOf(w, id) ==> Ended(w.session) }

  ghost predicate EndsBehind(ws: seq<Write>, id: string) {
    forall j, k :: 0 <= j < k < |ws| && UpsertOf(ws[j], id) && Ended(ws[j].session) && UpsertOf(ws[k], id) ==>
      Ended(ws[k].session)
  }

  /** The statement that lands is the oldest pending upsert of the session, if it is one. */
  predicate LandsOldest(s: State, step: Step, id: string) {
    step.Flush? && step.k < |s.pending| && UpsertOf(s.pending[step.k], id) ==>
      forall j :: 0 <= j < step.k ==> !UpsertOf(s.pending[j], id)
  }

  /** Upserts of the session land in the order they were spawned, and no other process ever
      comes to hold it. */
  ghost predicate InOrder(s: State, steps: seq<Step>, i: nat, id: string)
    requires IsRun(s, steps)
    decreases |steps|
  {
    steps != [] ==>
    && LandsOldest(s, steps[0], id)
    && OneHolder(Apply(s, steps[0]), i, id)
    && InOrder(Apply(s, steps[0]), steps[1..], i, id)
  }

  // ----- every upsert is the record as it now is -----

  /** The upserts among the statements are records of the table. */
  ghost predicate FromTable(ws: seq<Write>, ss: map<string, Session>) {
    forall w :: w in ws && w.Upsert? ==> w.session.id in ss && ss[w.session.id] == w.session
  }

  lemma {:induction false} CleanupFromTable(ss: map<string, Session>, order: seq<string>, cutoff: Time, now: Time)
    requires Keyed(ss) && forall id :: id in order ==> id in StaleIds(ss, cutoff)
    ensures FromTable(Upserts(ss, order, now), Cleaned(ss, cutoff, now))
    decreases |order|
  {
    if order != [] {
      assert order[|order| - 1] in order;
      CleanupFromTable(ss, order[..|order| - 1], cutoff, now);
    }
  }

  lemma ListedAreStale(ss: map<string, Session>, cutoff: Time, order: seq<string>)
    requires Enumerates(order, StaleIds(ss, cutoff))
    ensures forall id :: id in order ==> id in StaleIds(ss, cutoff)
  {
    forall id | id in order ensures id in StaleIds(ss, cutoff) {
      assert id in multiset(order);
    }
  }

  lemma AccountFromTable(m: Mem, id: string, r: Report, stop: bool, now: Time)
    requires Keyed(m.sessions) && id in m.sessions
    ensures var e := AcctUpdate(m, id, r, stop, now);
            Keyed(e.mem.sessions) && FromTable(e.writes, e.mem.sessions)
  {
  }

  lemma MarkingKeepsKeys(ss: map<string, Session>, cutoff: Time, now: Time, n: string, nas: string, answer: PodAnswer)
    requires Keyed(ss)
    ensures Keyed(Cleaned(ss, cutoff, now)) && Keyed(Answered(ss, n, nas, answer, now))
  {
  }

  lemma ReconciledKeepsKeys(ss: map<string, Session>, rows: seq<Session>)
    requires Keyed(ss)
    ensures Keyed(Reconciled(ss, rows))
  {
    forall id | id in Reconciled(ss, rows) ensures Reconciled(ss, rows)[id].id == id {
      SessionLaws.ReconcileIsExact(ss, rows, id);
    }
  }

  lemma SectionFromTable(s: State, step: Step)
    requires Enabled(s, step) && !step.Flush? && Keyed(s.insts[Actor(s, step)].mem.sessions)
    ensures Keyed(Section(s, step).mem.sessions) && FromTable(Section(s, step).writes, Section(s, step).mem.sessions)
  {
    var m := s.insts[Actor(s, step)].mem;
    if !TouchesSessions(step) {
      SectionKeepsSessions(s, step);
    } else {
      match step
      case StartSession(_, _, _, _, _, _) =>
      case Account(_, id, r, stop, now) => AccountFromTable(m, id, r, stop, now);
      case CleanSessions(_, cutoff, now, order) =>
        ListedAreStale(m.sessions, cutoff, order);
        CleanupFromTable(m.sessions, order, cutoff, now);
        MarkingKeepsKeys(m.sessions, cutoff, now, "", "", Nak);
      case PodAnswered(_, n, nas, answer, now) => MarkingKeepsKeys(m.sessions, now, now, n, nas, answer);
      case MergeSessions(j, k) => ReconciledKeepsKeys(m.sessions, s.insts[j].sessionRows[k]);
    }
  }

  // ----- in order, no row comes back to life -----

  lemma AppendKeepsOrder(ws: seq<Write>, more: seq<Write>, id: string)
    requires EndsBehind(ws, id)
    requires AllEnded(more, id) || (forall w :: w in ws && UpsertOf(w, id) ==> !Ended(w.session))
    requires AllEnded(more, id) || (forall w :: w in more && UpsertOf(w, id) ==> !Ended(w.session))
    ensures EndsBehind(ws + more, id)
  {
    var all := ws + more;
    forall j, k | 0 <= j < k < |all| && UpsertOf(all[j], id) && Ended(all[j].session) && UpsertOf(all[k], id)
      ensures Ended(all[k].session)
    {
      if k >= |ws| {
        assert all[k] in more;
        if j < |ws| {
          assert all[j] in ws;
        } else {
          assert all[j] in more;
        }
      }
    }
  }

  lemma CommitKeepsOrdered(s: State, o: Outcome, i: nat, id: string)
    requires Ordered(s, i, id) && o.actor < |s.insts| && OneHolder(Commit(s, o), i, id)
    requires Keyed(o.inst.mem.sessions) && FromTable(o.writes, o.inst.mem.sessions)
    requires Ages(s.insts[o.actor].mem.sessions, o.inst.mem.sessions)
    ensures Ordered(Commit(s, o), i, id)
  {
    var s', ss := Commit(s, o), o.inst.mem.sessions;
    if o.actor != i {
      assert id !in s'.insts[o.actor].mem.sessions;
      assert forall w :: w in o.writes ==> !UpsertOf(w, id);
    } else {
      assert forall w :: w in o.writes && UpsertOf(w, id) ==> id in ss && w.session == ss[id];
      assert EndedAt(s, i, id) ==> id in ss && Ended(ss[id]);
    }
    assert SomeEnded(s, id) ==> AllEnded(o.writes, id);
    AppendKeepsOrder(s.pending, o.writes, id);
  }

  lemma LandKeepsOrdered(s: State, k: nat, now: Time, i: nat, id: string)
    requires Ordered(s, i, id) && k < |s.pending| && LandsOldest(s, Flush(k, now), id)
    ensures Ordered(Land(s, k, now), i, id)
    ensures RowEnded(s.db, id) ==> RowEnded(Land(s, k, now).db, id)
  {
    var s', w, ws := Land(s, k, now), s.pending[k], RemoveAt(s.pending, k);
    assert w in s.pending;
    forall v | v in ws ensures v in s.pending {
      RemoveAtMembers(s.pending, k, v);
    }
    assert EndsBehind(ws, id) by {
      forall a, b | 0 <= a < b < |ws| && UpsertOf(ws[a], id) && Ended(ws[a].session) && UpsertOf(ws[b], id)
        ensures Ended(ws[b].session)
      {
        var a', b' := if a < k then a else a + 1, if b < k then b else b + 1;
        assert s.pending[a'] == ws[a] && s.pending[b'] == ws[b];
      }
    }
    if UpsertOf(w, id) && Ended(w.session) {
      forall v | v in ws && UpsertOf(v, id) ensures Ended(v.session) {
        var b :| 0 <= b < |ws| && ws[b] == v;
        assert b >= k && s.pending[b + 1] == v;
      }
    }
  }

  lemma OrderedStep(s: State, step: Step, i: nat, id: string)
    requires Ordered(s, i, id) && Enabled(s, step) && LandsOldest(s, step, id) && OneHolder(Apply(s, step), i, id)
    ensures Ordered(Apply(s, step), i, id)
    ensures RowEnded(s.db, id) ==> RowEnded(Apply(s, step).db, id)
  {
    if step.Flush? {
      LandKeepsOrdered(s, step.k, step.now, i, id);
    } else {
      SectionFromTable(s, step);
      SectionAges(s, step);
      CommitKeepsOrdered(s, Act(s, step), i, id);
    }
  }

  lemma {:induction false} OrderedRun(s: State, steps: seq<Step>, i: nat, id: string)
    requires Ordered(s, i, id) && IsRun(s, steps) && InOrder(s, steps, i, id)
    ensures Ordered(Run(s, steps), i, id)
    ensures RowEnded(s.db, id) ==> RowEnded(Run(s, steps).db, id)
    decreases |steps|
  {
    if steps != [] {
      OrderedStep(s, steps[0], i, id);
      OrderedRun(Apply(s, steps[0]), steps[1..], i, id);
    }
  }

  lemma InitOrdered(s: State, i: nat, id: string)
    requires Init(s) && i < |s.insts| && id !in s.db.sessions
    ensures Ordered(s, i, id)
  {
  }

  /** Main result. A session whose upserts land in the order they were spawned, and that no
      other process comes to hold, never has its row come back to life. */
  lemma InOrderRowsStayEnded(s0: State, steps: seq<Step>, s: State, more: seq<Step>, s': State, i: nat, id: string)
    requires Init(s0) && i < |s0.insts| && id !in s0.db.sessions
    requires IsRun(s0, steps) && s == Run(s0, steps) && InOrder(s0, steps, i, id)
    requires IsRun(s, more) && s' == Run(s, more) && InOrder(s, more, i, id)
    ensures RowEnded(s.db, id) ==> RowEnded(s'.db, id)
  {
    InitOrdered(s0, i, id);
    OrderedRun(s0, steps, i, id);
    OrderedRun(s, more, i, id);
  }

  // ----- out of order, another process takes an ended session for active -----

  function Started(id: string, n: string, nasIp: string, now: Time): Session { NewSession(id, id, n, nasIp, now) }

  /** A process starts a session and stops it. */
  lemma StartAndStop(s: State, i: nat, id: string, n: string, nasIp: string, r: Report, t0: Time, t1: Time)
    returns (s': State)
    requires i < |s.insts| && id !in s.insts[i].mem.sessions && Sane(r)
    ensures var steps := [StartSession(i, id, id, n, nasIp, t0), Account(i, id, r, true, t1)];
            IsRun(s, steps) && s' == Run(s, steps)
    ensures s'.db == s.db && |s'.insts| == |s.insts| && EndedAt(s', i, id)
    ensures forall j :: 0 <= j < |s.insts| && j != i ==> s'.insts[j] == s.insts[j]
    ensures var k := |s.pending|;
            && |s'.pending| >= k + 2
            && s'.pending[k] == Upsert(Started(id, n, nasIp, t0))
            && UpsertOf(s'.pending[k + 1], id) && Ended(s'.pending[k + 1].session)
  {
    var start, stop := StartSession(i, id, id, n, nasIp, t0), Account(i, id, r, true, t1);
    var s1 := StartApplied(s, start);
    s' := AccountApplied(s1, stop);
    RunTwo(s, start, stop);
  }

  /** The end lands first, and then the start. */
  lemma LandSwapped(s: State, k: nat, id: string, started: Session, now: Time) returns (s': State)
    requires k + 1 < |s.pending| && s.pending[k] == Upsert(started) && started.id == id && UpsertOf(s.pending[k + 1], id)
    ensures IsRun(s, [Flush(k + 1, now), Flush(k, now)]) && s' == Run(s, [Flush(k + 1, now), Flush(k, now)])
    ensures s'.insts == s.insts && s'.db == s.db.(sessions := s.db.sessions[id := started])
  {
    var s1 := FlushApplied(s, Flush(k + 1, now));
    s' := FlushApplied(s1, Flush(k, now));
    assert s'.db.sessions == s.db.sessions[id := started];
    RunTwo(s, Flush(k + 1, now), Flush(k, now));
  }

  /** A process reads the active rows and merges them. */
  lemma ReconcileTakesRow(s: State, j: nat, rows: seq<Session>, id: string) returns (s': State)
    requires j < |s.insts| && ListsActive(s.db, rows) && id !in s.insts[j].mem.sessions
    requires id in s.db.sessions && s.db.sessions[id].status == Active && s.db.sessions[id].id == id
    ensures var steps := [ReadSessions(j, rows), MergeSessions(j, |s.insts[j].sessionRows|)];
            IsRun(s, steps) && s' == Run(s, steps)
    ensures |s'.insts| == |s.insts| && forall k :: 0 <= k < |s.insts| && k != j ==> s'.insts[k] == s.insts[k]
    ensures s'.db == s.db && s'.charges == s.charges
    ensures id in s'.insts[j].mem.sessions && s'.insts[j].mem.sessions[id] == s.db.sessions[id]
    ensures s'.insts[j].mem.subscribers == s.insts[j].mem.subscribers
  {
    var read, merge := ReadSessions(j, rows), MergeSessions(j, |s.insts[j].sessionRows|);
    var s1 := SessionsRead(s, read);
    s' := SessionsMerged(s1, merge);
    SessionLaws.ReconcileIsExact(s.insts[j].mem.sessions, rows, id);
    RunTwo(s, read, merge);
  }

  /** From every state, for every two processes and every new session: when the upsert of its
      start lands after that of its end, and the other process then reconciles, that process
      holds the session as active, which its own process has seen end. */
  lemma LateUpsertRevivesElsewhere(s: State, i: nat, j: nat, id: string, n: string, nasIp: string, r: Report,
                                   t0: Time, t1: Time, rows: seq<Session>)
    returns (s1: State, s2: State, s3: State)
    requires i < |s.insts| && j < |s.insts| && i != j && Sane(r)
    requires id !in s.insts[i].mem.sessions && id !in s.insts[j].mem.sessions
    requires ListsActive(s.db.(sessions := s.db.sessions[id := Started(id, n, nasIp, t0)]), rows)
    ensures var steps := [StartSession(i, id, id, n, nasIp, t0), Account(i, id, r, true, t1)];
            IsRun(s, steps) && s1 == Run(s, steps)
    ensures var steps := [Flush(|s.pending| + 1, t1), Flush(|s.pending|, t1)];
            IsRun(s1, steps) && s2 == Run(s1, steps)
    ensures |s2.insts| == |s.insts|
    ensures var steps := [ReadSessions(j, rows), MergeSessions(j, |s2.insts[j].sessionRows|)];
            IsRun(s2, steps) && s3 == Run(s2, steps)
    ensures EndedAt(s3, i, id)
    ensures j < |s3.insts| && id in s3.insts[j].mem.sessions && s3.insts[j].mem.sessions[id].status == Active
  {
    s1 := StartAndStop(s, i, id, n, nasIp, r, t0, t1);
    s2 := LandSwapped(s1, |s.pending|, id, Started(id, n, nasIp, t0), t1);
    s3 := ReconcileTakesRow(s2, j, rows, id);
  }
}
