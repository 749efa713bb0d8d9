/** The simultaneous-use limit: by how much a run can exceed it, exactly, and when it is
    kept (internal/radius/auth.go). */
module SimultaneousUse {
  import opened Domain
  import opened Sums
  import opened Counters
  import opened ServerSpec
  import opened Database
  import opened Cluster
  import opened PopulationLaws
  import opened Metering
  import opened Applied
  import SessionLaws

  function ActiveCount(m: Mem, n: string): nat { |ActiveOf(m.sessions, n)| }

  /** The step accepts user `n` at process `i`: it is the one that counts the sessions. The
      reply leaves the process at some later moment. */
  ghost predicate Accepts(s: State, step: Step, i: nat, n: string)
    requires Enabled(s, step)
  {
    var given := NewAnswers(s, step);
    |given| == 1 && given[0].inst == i && given[0].username == n && given[0].reply.Accept?
  }

  predicate Starts(step: Step, i: nat, n: string) { step.StartSession? && step.inst == i && step.username == n }

  /** The step brings no active session of the user in from the database. */
  ghost predicate ImportsNone(s: State, step: Step, i: nat, n: string)
    requires Enabled(s, step)
  {
    step.MergeSessions? && step.inst == i ==>
      forall row :: row in s.insts[i].sessionRows[step.k] ==> !IsActiveOf(row, n)
  }

  /** The accepts still open after the step; never more than `most` are counted. */
  ghost function NextOpen(s: State, step: Step, i: nat, n: string, most: nat, open: nat): nat
    requires Enabled(s, step)
  {
    if Accepts(s, step, i, n) then (if open < most then open + 1 else most)
    else if Starts(step, i, n) && open > 0 then open - 1
    else open
  }

  /** Every start of the user at process `i` follows an accept of its own, one of the last
      `most` that no start has followed yet; `open` is how many of these there are. */
  ghost predicate Paced(s: State, steps: seq<Step>, i: nat, n: string, most: nat, open: nat)
    requires IsRun(s, steps)
    decreases |steps|
  {
    steps != [] ==>
    && (Starts(steps[0], i, n) ==> open > 0)
    && ImportsNone(s, steps[0], i, n)
    && Paced(Apply(s, steps[0]), steps[1..], i, n, most, NextOpen(s, steps[0], i, n, most, open))
  }

  /** The number of active sessions, with the open accepts, exceeds the limit by less than `most`. */
  ghost predicate Room(s: State, i: nat, n: string, limit: int, most: nat, open: nat) {
    i < |s.insts| && open <= most && ActiveCount(s.insts[i].mem, n) + open < limit + most
  }

  /** The limit is the one in the user's row, and so in every copy of the user. */
  predicate LimitOf(db: Db, n: string, limit: int) {
    limit > 0 && exists id :: id in db.users && db.users[id].username == n && db.users[id].plan.simultaneousUse == limit
  }

  // ----- what one step does to the number of active sessions -----

  lemma FewerActive(a: map<string, Session>, b: map<string, Session>, n: string)
    requires forall id :: id in b && IsActiveOf(b[id], n) ==> id in a && IsActiveOf(a[id], n)
    ensures |ActiveOf(b, n)| <= |ActiveOf(a, n)|
  {
    SessionLaws.CardinalityMonotone(ActiveOf(b, n), ActiveOf(a, n));
  }

  lemma StartCounts(m: Mem, s: Session, n: string)
    requires s.id !in m.sessions && s.status == Active
    ensures ActiveCount(AcctStart(m, s).mem, n) == ActiveCount(m, n) + if s.username == n then 1 else 0
  {
    var after := AcctStart(m, s).mem.sessions;
    if s.username == n {
      assert ActiveOf(after, n) == ActiveOf(m.sessions, n) + {s.id};
    } else {
      assert ActiveOf(after, n) == ActiveOf(m.sessions, n);
    }
  }

  lemma ReconcileCounts(ss: map<string, Session>, rows: seq<Session>, n: string)
    requires forall row :: row in rows ==> !IsActiveOf(row, n)
    ensures |ActiveOf(Reconciled(ss, rows), n)| <= |ActiveOf(ss, n)|
  {
    forall id | id in Reconciled(ss, rows) && IsActiveOf(Reconciled(ss, rows)[id], n)
      ensures id in ss && IsActiveOf(ss[id], n)
    {
      SessionLaws.ReconcileIsExact(ss, rows, id);
    }
    FewerActive(ss, Reconciled(ss, rows), n);
  }

  lemma AccountCounts(m: Mem, id: string, r: Report, stop: bool, now: Time, n: string)
    requires id in m.sessions
    ensures ActiveCount(AcctUpdate(m, id, r, stop, now).mem, n) <= ActiveCount(m, n)
  {
    FewerActive(m.sessions, AcctUpdate(m, id, r, stop, now).mem.sessions, n);
  }

  lemma MarkingCounts(ss: map<string, Session>, cutoff: Time, now: Time, user: string, nas: string,
                      answer: PodAnswer, n: string)
    ensures |ActiveOf(Cleaned(ss, cutoff, now), n)| <= |ActiveOf(ss, n)|
    ensures |ActiveOf(Answered(ss, user, nas, answer, now), n)| <= |ActiveOf(ss, n)|
  {
    FewerActive(ss, Cleaned(ss, cutoff, now), n);
    FewerActive(ss, Answered(ss, user, nas, answer, now), n);
  }

  /** Only a start raises the number of the user's active sessions, and by one. */
  lemma SectionCounts(s: State, step: Step, n: string)
    requires Enabled(s, step) && !step.Flush? && ImportsNone(s, step, Actor(s, step), n)
    ensures ActiveCount(Section(s, step).mem, n)
         <= ActiveCount(s.insts[Actor(s, step)].mem, n) + if Starts(step, Actor(s, step), n) then 1 else 0
  {
    var m := s.insts[Actor(s, step)].mem;
    match step
    case StartSession(_, id, sessionId, user, nasIp, now) => StartCounts(m, NewSession(id, sessionId, user, nasIp, now), n);
    case Account(_, id, r, stop, now) => AccountCounts(m, id, r, stop, now, n);
    case CleanSessions(_, cutoff, now, _) => MarkingCounts(m.sessions, cutoff, now, "", "", Nak, n);
    case PodAnswered(_, user, nas, answer, now) => MarkingCounts(m.sessions, now, now, user, nas, answer, n);
    case MergeSessions(i, k) => ReconcileCounts(m.sessions, s.insts[i].sessionRows[k], n);
    case _ => SectionKeepsSessions(s, step);
  }

  /** An accept is given only while there is room for one more session. */
  lemma AcceptLeavesRoom(s: State, step: Step, i: nat, n: string, limit: int)
    requires Population(s) && LimitOf(s.db, n, limit) && Enabled(s, step) && Accepts(s, step, i, n)
    ensures i < |s.insts| && !step.Flush? && Actor(s, step) == i && !Starts(step, i, n)
    ensures ActiveCount(s.insts[i].mem, n) < limit
  {
  }

  lemma CommitCounts(s: State, o: Outcome, i: nat, n: string)
    requires i < |s.insts| && o.actor < |s.insts|
    ensures i < |Commit(s, o).insts|
    ensures ActiveCount(Commit(s, o).insts[i].mem, n)
         == if o.actor == i then ActiveCount(o.inst.mem, n) else ActiveCount(s.insts[i].mem, n)
  {
  }

  lemma RoomStep(s: State, step: Step, i: nat, n: string, limit: int, most: nat, open: nat)
    requires Population(s) && LimitOf(s.db, n, limit) && Enabled(s, step) && Room(s, i, n, limit, most, open)
    requires (Starts(step, i, n) ==> open > 0) && ImportsNone(s, step, i, n)
    ensures Room(Apply(s, step), i, n, limit, most, NextOpen(s, step, i, n, most, open))
  {
    if Accepts(s, step, i, n) {
      AcceptLeavesRoom(s, step, i, n, limit);
    }
    if !step.Flush? {
      if Actor(s, step) == i {
        SectionCounts(s, step, n);
      }
      CommitCounts(s, Act(s, step), i, n);
    }
  }

  lemma LimitStays(a: Db, b: Db, n: string, limit: int)
    requires LimitOf(a, n, limit) && SamePopulation(a, b)
    ensures LimitOf(b, n, limit)
  {
  }

  lemma {:induction false} RoomRun(s: State, steps: seq<Step>, i: nat, n: string, limit: int, most: nat, open: nat)
    requires Population(s) && LimitOf(s.db, n, limit) && Room(s, i, n, limit, most, open)
    requires IsRun(s, steps) && Paced(s, steps, i, n, most, open)
    ensures i < |Run(s, steps).insts| && ActiveCount(Run(s, steps).insts[i].mem, n) < limit + most
    decreases |steps|
  {
    if steps != [] {
      var s1, open1 := Apply(s, steps[0]), NextOpen(s, steps[0], i, n, most, open);
      PopulationStep(s, steps[0]);
      LimitStays(s.db, s1.db, n, limit);
      RoomStep(s, steps[0], i, n, limit, most, open);
      RoomRun(s1, steps[1..], i, n, limit, most, open1);
    }
  }

  /** Main result. In every run in which each start follows an accept of its own, with at
      most `most` accepts waiting for their start at a time, and reconciliation brings in
      none of the user's sessions: a process holds less than `limit + most` active sessions
      of the user, even when the handling of requests interleaves. `AcceptsThenStarts` shows
      that there is no better bound. */
  lemma SessionsAreBounded(s0: State, steps: seq<Step>, i: nat, n: string, limit: int, most: nat)
    requires Init(s0) && i < |s0.insts| && LimitOf(s0.db, n, limit) && IsRun(s0, steps)
    requires most > 0 && Paced(s0, steps, i, n, most, 0)
    ensures i < |Run(s0, steps).insts| && ActiveCount(Run(s0, steps).insts[i].mem, n) < limit + most
  {
    assert ActiveOf(s0.insts[i].mem.sessions, n) == {};
    RoomRun(s0, steps, i, n, limit, most, 0);
  }

  /** So the limit is kept when every start follows the last accept, and each accept at most
      one start. */
  lemma LimitIsKept(s0: State, steps: seq<Step>, i: nat, n: string, limit: int)
    requires Init(s0) && i < |s0.insts| && LimitOf(s0.db, n, limit) && IsRun(s0, steps)
    requires Paced(s0, steps, i, n, 1, 0)
    ensures i < |Run(s0, steps).insts| && ActiveCount(Run(s0, steps).insts[i].mem, n) <= limit
  {
    SessionsAreBounded(s0, steps, i, n, limit, 1);
  }

  // ----- the bound is reached -----

  /** The user is enabled and not refused, neither now nor once the first login is recorded. */
  predicate Fit(m: Mem, n: string, now: Time) {
    && Admitted(m, n, true) && !Refused(MarkSnapshot(m.subscribers[n], now), now)
    && (var marked := MarkCached(m, n, m.subscribers[n], now).mem;
        n in marked.subscribers && !Refused(marked.subscribers[n], now))
  }

  /** Such a user, voucher or not, is judged by the number of active sessions alone, and is
      still such a user afterwards. */
  lemma AcceptIffRoom(m: Mem, n: string, now: Time)
    requires Fit(m, n, now)
    ensures var u, m' := m.subscribers[n], AuthEffect(m, n, true, now).mem;
            && (AuthReply(m, n, true, now, true).Accept? <==>
                u.plan.simultaneousUse <= 0 || ActiveCount(m, n) < u.plan.simultaneousUse)
            && Fit(m', n, now) && m'.sessions == m.sessions && m'.subscribers[n].plan == u.plan
  {
  }

  function Auths(auth: Step, k: nat): seq<Step> { if k == 0 then [] else [auth] + Auths(auth, k - 1) }

  function StartAll(i: nat, n: string, ids: seq<string>, now: Time): seq<Step> {
    if ids == [] then [] else [StartSession(i, ids[0], ids[0], n, "", now)] + StartAll(i, n, ids[1..], now)
  }

  /** From `from` on all answers are accepts. */
  predicate AcceptsFrom(s: State, from: nat) { forall j :: from <= j < |s.answers| ==> s.answers[j].reply.Accept? }

  /** A request that is accepted. */
  lemma AdmitOne(s: State, i: nat, n: string, now: Time) returns (s': State)
    requires i < |s.insts| && Fit(s.insts[i].mem, n, now)
    requires ActiveCount(s.insts[i].mem, n) < s.insts[i].mem.subscribers[n].plan.simultaneousUse
    ensures var auth := Authenticate(i, n, true, now, true);
            Enabled(s, auth) && s' == Apply(s, auth)
    ensures |s'.insts| == |s.insts| && Fit(s'.insts[i].mem, n, now) && s'.insts[i].mem.sessions == s.insts[i].mem.sessions
    ensures s'.insts[i].mem.subscribers[n].plan == s.insts[i].mem.subscribers[n].plan
    ensures forall j :: 0 <= j < |s.insts| && j != i ==> s'.insts[j] == s.insts[j]
    ensures |s'.answers| == |s.answers| + 1 && s'.answers[..|s.answers|] == s.answers && s'.answers[|s.answers|].reply.Accept?
  {
    AcceptIffRoom(s.insts[i].mem, n, now);
    s' := AuthApplied(s, Authenticate(i, n, true, now, true));
  }

  /** A start of a new session. */
  lemma StartOne(s: State, i: nat, n: string, id: string, now: Time) returns (s': State)
    requires i < |s.insts| && id !in s.insts[i].mem.sessions
    ensures var start := StartSession(i, id, id, n, "", now);
            Enabled(s, start) && s' == Apply(s, start)
    ensures |s'.insts| == |s.insts| && s'.answers == s.answers
    ensures s'.insts[i].mem.sessions.Keys == s.insts[i].mem.sessions.Keys + {id}
    ensures s'.insts[i].mem.subscribers == s.insts[i].mem.subscribers
    ensures ActiveCount(s'.insts[i].mem, n) == ActiveCount(s.insts[i].mem, n) + 1
    ensures forall j :: 0 <= j < |s.insts| && j != i ==> s'.insts[j] == s.insts[j]
  {
    StartCounts(s.insts[i].mem, NewSession(id, id, n, "", now), n);
    s' := StartApplied(s, StartSession(i, id, id, n, "", now));
  }

  lemma AcceptsExtend(a: seq<Answer>, b: seq<Answer>, c: seq<Answer>)
    requires |a| <= |b| <= |c| && b[..|a|] == a && c[..|b|] == b
    requires forall j :: |a| <= j < |b| ==> b[j].reply.Accept?
    requires forall j :: |b| <= j < |c| ==> c[j].reply.Accept?
    ensures c[..|a|] == a && forall j :: |a| <= j < |c| ==> c[j].reply.Accept?
  {
    assert forall j :: 0 <= j < |b| ==> c[j] == c[..|b|][j];
  }

  /** With room for one more session, any number of requests in a row are accepted. */
  lemma {:induction false} AllAreAccepted(s: State, i: nat, n: string, now: Time, k: nat) returns (s': State)
    requires i < |s.insts| && Fit(s.insts[i].mem, n, now)
    requires ActiveCount(s.insts[i].mem, n) < s.insts[i].mem.subscribers[n].plan.simultaneousUse
    ensures var steps := Auths(Authenticate(i, n, true, now, true), k);
            IsRun(s, steps) && s' == Run(s, steps)
    ensures |s'.insts| == |s.insts| && s'.insts[i].mem.sessions == s.insts[i].mem.sessions
    ensures |s'.answers| == |s.answers| + k && AcceptsFrom(s', |s.answers|) && s'.answers[..|s.answers|] == s.answers
    decreases k
  {
    s' := s;
    if k > 0 {
      var auth := Authenticate(i, n, true, now, true);
      var s1 := AdmitOne(s, i, n, now);
      s' := AllAreAccepted(s1, i, n, now, k - 1);
      RunFirst(s, auth, Auths(auth, k - 1));
      AcceptsExtend(s.answers, s1.answers, s'.answers);
    }
  }

  /** Each start of a new session adds one. */
  lemma {:induction false} AllAreStarted(s: State, i: nat, n: string, ids: seq<string>, now: Time) returns (s': State)
    requires i < |s.insts| && Distinct(ids) && forall id :: id in ids ==> id !in s.insts[i].mem.sessions
    ensures IsRun(s, StartAll(i, n, ids, now)) && s' == Run(s, StartAll(i, n, ids, now))
    ensures |s'.insts| == |s.insts| && s'.answers == s.answers
    ensures ActiveCount(s'.insts[i].mem, n) == ActiveCount(s.insts[i].mem, n) + |ids|
    decreases |ids|
  {
    s' := s;
    if ids != [] {
      var s1 := StartOne(s, i, n, ids[0], now);
      s' := AllAreStarted(s1, i, n, ids[1..], now);
      RunFirst(s, StartSession(i, ids[0], ids[0], n, "", now), StartAll(i, n, ids[1..], now));
    }
  }

  // ----- runs of requests and starts that keep the pace -----

  predicate Asks(step: Step, i: nat, n: string) { step.Authenticate? && step.inst == i && step.username == n }

  /** The accepts open after the steps, when all their requests are accepted. */
  function OpenAfter(steps: seq<Step>, i: nat, n: string, most: nat, open: nat): nat
    decreases |steps|
  {
    if steps == [] then open
    else if Asks(steps[0], i, n) then OpenAfter(steps[1..], i, n, most, if open < most then open + 1 else most)
    else if Starts(steps[0], i, n) && open > 0 then OpenAfter(steps[1..], i, n, most, open - 1)
    else OpenAfter(steps[1..], i, n, most, open)
  }

  /** Requests and starts only, and each start of the user at `i` on an open accept. */
  predicate InPace(steps: seq<Step>, i: nat, n: string, most: nat, open: nat)
    decreases |steps|
  {
    steps != [] ==>
    && (steps[0].Authenticate? || steps[0].StartSession?) && (Starts(steps[0], i, n) ==> open > 0)
    && InPace(steps[1..], i, n, most, OpenAfter(steps[..1], i, n, most, open))
  }

  lemma OpenAfterOne(step: Step, i: nat, n: string, most: nat, open: nat)
    ensures OpenAfter([step], i, n, most, open)
         == if Asks(step, i, n) then (if open < most then open + 1 else most)
            else if Starts(step, i, n) && open > 0 then open - 1 else open
  {
    assert [step][1..] == [];
  }

  lemma AskIsAccepted(s: State, step: Step, i: nat, n: string)
    requires Enabled(s, step) && (step.Authenticate? || step.StartSession?)
    requires |Apply(s, step).answers| > |s.answers| ==> Apply(s, step).answers[|s.answers|].reply.Accept?
    ensures Accepts(s, step, i, n) <==> Asks(step, i, n)
  {
  }

  /** When every request is accepted, such a run is paced. */
  lemma {:induction false} InPaceIsPaced(s: State, steps: seq<Step>, i: nat, n: string, most: nat, open: nat)
    requires IsRun(s, steps) && InPace(steps, i, n, most, open) && AcceptsFrom(Run(s, steps), |s.answers|)
    ensures Paced(s, steps, i, n, most, open)
    decreases |steps|
  {
    if steps != [] {
      var s1, s' := Apply(s, steps[0]), Run(s, steps);
      AnswersOnlyGrow(s1, steps[1..]);
      assert forall k :: 0 <= k < |s1.answers| ==> s'.answers[..|s1.answers|][k] == s'.answers[k];
      AskIsAccepted(s, steps[0], i, n);
      OpenAfterOne(steps[0], i, n, most, open);
      assert steps[..1] == [steps[0]];
      InPaceIsPaced(s1, steps[1..], i, n, most, NextOpen(s, steps[0], i, n, most, open));
    }
  }

  lemma {:induction false} InPaceConcat(a: seq<Step>, b: seq<Step>, i: nat, n: string, most: nat, open: nat)
    requires InPace(a, i, n, most, open) && InPace(b, i, n, most, OpenAfter(a, i, n, most, open))
    ensures InPace(a + b, i, n, most, open)
    ensures OpenAfter(a + b, i, n, most, open) == OpenAfter(b, i, n, most, OpenAfter(a, i, n, most, open))
    decreases |a|
  {
    if a == [] {
      assert a + b == b;
    } else {
      ConcatFirst(a, b);
      assert (a + b)[..1] == a[..1] == [a[0]];
      OpenAfterOne(a[0], i, n, most, open);
      InPaceConcat(a[1..], b, i, n, most, OpenAfter(a[..1], i, n, most, open));
    }
  }

  lemma {:induction false} AuthsInPace(auth: Step, k: nat, i: nat, n: string, most: nat, open: nat)
    requires Asks(auth, i, n) && open + k <= most
    ensures InPace(Auths(auth, k), i, n, most, open) && OpenAfter(Auths(auth, k), i, n, most, open) == open + k
    decreases k
  {
    if k > 0 {
      OpenAfterOne(auth, i, n, most, open);
      AuthsInPace(auth, k - 1, i, n, most, open + 1);
      assert [auth][1..] == [];
      InPaceConcat([auth], Auths(auth, k - 1), i, n, most, open);
    }
  }

  lemma {:induction false} StartsInPace(i: nat, n: string, ids: seq<string>, now: Time, most: nat, open: nat)
    requires |ids| <= open
    ensures InPace(StartAll(i, n, ids, now), i, n, most, open)
    decreases |ids|
  {
    if ids != [] {
      var start := StartSession(i, ids[0], ids[0], n, "", now);
      OpenAfterOne(start, i, n, most, open);
      StartsInPace(i, n, ids[1..], now, most, open - 1);
      assert [start][1..] == [];
      InPaceConcat([start], StartAll(i, n, ids[1..], now), i, n, most, open);
    }
  }

  /** From every state with room for one more session, and for every number of new sessions:
      as many requests before the first start are all accepted, and then all started, so that
      no start lacks an accept of its own. The limit is kept exactly when it had room for all
      of them. */
  lemma AcceptsThenStarts(s: State, i: nat, n: string, ids: seq<string>, now: Time) returns (s1: State, s2: State)
    requires i < |s.insts| && Fit(s.insts[i].mem, n, now)
    requires ActiveCount(s.insts[i].mem, n) < s.insts[i].mem.subscribers[n].plan.simultaneousUse
    requires Distinct(ids) && forall id :: id in ids ==> id !in s.insts[i].mem.sessions
    ensures var auths, starts := Auths(Authenticate(i, n, true, now, true), |ids|), StartAll(i, n, ids, now);
            && IsRun(s, auths) && s1 == Run(s, auths) && IsRun(s1, starts) && s2 == Run(s1, starts)
            && IsRun(s, auths + starts) && s2 == Run(s, auths + starts) && Paced(s, auths + starts, i, n, |ids|, 0)
    ensures |s1.answers| == |s.answers| + |ids| && AcceptsFrom(s1, |s.answers|)
    ensures i < |s2.insts|
    ensures var limit, before := s.insts[i].mem.subscribers[n].plan.simultaneousUse, ActiveCount(s.insts[i].mem, n);
            && ActiveCount(s2.insts[i].mem, n) == before + |ids|
            && (ActiveCount(s2.insts[i].mem, n) <= limit <==> before + |ids| <= limit)
  {
    s1 := AllAreAccepted(s, i, n, now, |ids|);
    s2 := AllAreStarted(s1, i, n, ids, now);
    AcceptsThenStartsArePaced(s, s2, i, n, ids, now, Auths(Authenticate(i, n, true, now, true), |ids|), StartAll(i, n, ids, now));
  }

  lemma AcceptsThenStartsArePaced(s: State, s2: State, i: nat, n: string, ids: seq<string>, now: Time,
                                  auths: seq<Step>, starts: seq<Step>)
    requires auths == Auths(Authenticate(i, n, true, now, true), |ids|) && starts == StartAll(i, n, ids, now)
    requires IsRun(s, auths) && IsRun(Run(s, auths), starts) && s2 == Run(Run(s, auths), starts)
    requires AcceptsFrom(s2, |s.answers|)
    ensures IsRun(s, auths + starts) && s2 == Run(s, auths + starts) && Paced(s, auths + starts, i, n, |ids|, 0)
  {
    RunConcat(s, auths, starts);
    AuthsInPace(Authenticate(i, n, true, now, true), |ids|, i, n, |ids|, 0);
    StartsInPace(i, n, ids, now, |ids|, |ids|);
    InPaceConcat(auths, starts, i, n, |ids|, 0);
    InPaceIsPaced(s, auths + starts, i, n, |ids|, 0);
  }
}
