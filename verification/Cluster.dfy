/** Any number of server processes over one database. Every critical section of a process,
    every statement a goroutine executes and every read of the database is one step; the
    choices of the scheduler, the network and the clocks are labels of the steps. */
module Cluster {
  import opened Domain
  import opened Sums
  import opened Counters
  import opened ServerSpec
  import opened Database

  /** A process: its memory, and the lists it has read and not yet merged. */
  datatype Instance = Instance(mem: Mem, listings: seq<Listing>, sessionRows: seq<seq<Session>>)

  /** An Access-Request being handled, with the handler's copy of the user. */
  datatype Request = Request(inst: nat, username: string, user: User, marked: bool)

  datatype Answer = Answer(request: nat, inst: nat, username: string, reply: Reply, at: Time)

  /** One session record in the memory of one process. */
  datatype Rec = Rec(inst: nat, id: string)

  /** One accounting update of a metered user: what was reported and what was charged. */
  datatype Charge = Charge(rec: Rec, userId: string, reported: Usage, delta: Usage)

  /** The state, and the history of the run: the answers given, the updates charged, and
      the counters of each record when its process began to meter it. */
  datatype State = State(
    db: Db,
    insts: seq<Instance>,
    pending: seq<Write>,
    requests: map<nat, Request>,
    nextRequest: nat,
    answers: seq<Answer>,
    charges: seq<Charge>,
    metered: map<Rec, Usage>)

  datatype Step =
    | StartSession(inst: nat, id: string, sessionId: string, username: string, nasIp: string, now: Time)
    | Account(inst: nat, id: string, report: Report, stop: bool, now: Time)
    | DisableUser(inst: nat, username: string, userId: string)
    | Flush(k: nat, now: Time)
    | ReadLists(inst: nat, listing: Listing)
    | MergeLists(inst: nat, k: nat)
    | CleanSessions(inst: nat, cutoff: Time, now: Time, order: seq<string>)
    | ReadSessions(inst: nat, rows: seq<Session>)
    | MergeSessions(inst: nat, k: nat)
    | PodAnswered(inst: nat, username: string, nas: string, answer: PodAnswer, now: Time)
    | Authenticate(inst: nat, username: string, passwordOk: bool, now: Time, encoded: bool)
    | AuthRead(inst: nat, username: string, passwordOk: bool, now: Time)
    | AuthMark(request: nat, now: Time)
    | AuthDecide(request: nat, now: Time, encoded: bool)

  /** What must hold for a step to be possible. A record's id is a new UUID, a packet's
      totals fit 64 bits, and a read returns the rows there are. */
  ghost predicate Enabled(s: State, step: Step) {
    match step
    case StartSession(i, id, _, _, _, _) => i < |s.insts| && id !in s.insts[i].mem.sessions
    case Account(i, id, r, _, _) => i < |s.insts| && id in s.insts[i].mem.sessions && Sane(r)
    case DisableUser(i, n, userId) => i < |s.insts|
    case Flush(k, _) => k < |s.pending|
    case ReadLists(i, l) => i < |s.insts| && ListsUsers(s.db, l.users)
    case MergeLists(i, k) => i < |s.insts| && k < |s.insts[i].listings|
    case CleanSessions(i, cutoff, _, order) =>
      i < |s.insts| && Enumerates(order, StaleIds(s.insts[i].mem.sessions, cutoff))
    case ReadSessions(i, rows) => i < |s.insts| && ListsActive(s.db, rows)
    case MergeSessions(i, k) => i < |s.insts| && k < |s.insts[i].sessionRows|
    case PodAnswered(i, _, _, _, _) => i < |s.insts|
    case Authenticate(i, _, _, _, _) => i < |s.insts|
    case AuthRead(i, _, _, _) => i < |s.insts|
    case AuthMark(r, _) => r in s.requests && s.requests[r].inst < |s.insts| && !s.requests[r].marked
    case AuthDecide(r, _, _) => r in s.requests && s.requests[r].inst < |s.insts| && s.requests[r].marked
  }

  /** The process a step belongs to; a goroutine's statement belongs to none. */
  function Actor(s: State, step: Step): nat {
    match step
    case Flush(_, _) => 0
    case AuthMark(r, _) => if r in s.requests then s.requests[r].inst else 0
    case AuthDecide(r, _, _) => if r in s.requests then s.requests[r].inst else 0
    case _ => step.inst
  }

  /** What the step does to the memory of its process. */
  ghost function Section(s: State, step: Step): Effect
    requires Enabled(s, step) && !step.Flush?
  {
    var inst := s.insts[Actor(s, step)];
    var m := inst.mem;
    match step
    case StartSession(_, id, sessionId, n, nasIp, now) => AcctStart(m, NewSession(id, sessionId, n, nasIp, now))
    case Account(_, id, r, stop, now) => AcctUpdate(m, id, r, stop, now)
    case DisableUser(_, n, userId) => Effect(DisableInMemory(m, n), [Disable(userId)])
    case MergeLists(_, k) => Effect(Refresh(m, inst.listings[k]), [])
    case CleanSessions(_, cutoff, now, order) => Cleanup(m, cutoff, now, order)
    case MergeSessions(_, k) => Effect(m.(sessions := Reconciled(m.sessions, inst.sessionRows[k])), [])
    case PodAnswered(_, n, nas, answer, now) =>
      Effect(m.(sessions := Answered(m.sessions, n, nas, answer, now)), [])
    case Authenticate(_, n, passwordOk, now, _) => AuthEffect(m, n, passwordOk, now)
    case AuthMark(r, now) => MarkCached(m, s.requests[r].username, s.requests[r].user, now)
    case _ => Effect(m, [])
  }

  function NextListings(inst: Instance, step: Step): seq<Listing> {
    match step
    case ReadLists(_, l) => inst.listings + [l]
    case MergeLists(_, k) => if k < |inst.listings| then RemoveAt(inst.listings, k) else inst.listings
    case _ => inst.listings
  }

  function NextSessionRows(inst: Instance, step: Step): seq<seq<Session>> {
    match step
    case ReadSessions(_, rows) => inst.sessionRows + [rows]
    case MergeSessions(_, k) => if k < |inst.sessionRows| then RemoveAt(inst.sessionRows, k) else inst.sessionRows
    case _ => inst.sessionRows
  }

  ghost function NextRequests(s: State, step: Step): map<nat, Request>
    requires Enabled(s, step)
  {
    match step
    case AuthRead(i, n, passwordOk, _) =>
      if Admitted(s.insts[i].mem, n, passwordOk)
      then s.requests[s.nextRequest := Request(i, n, s.insts[i].mem.subscribers[n], false)] else s.requests
    case AuthMark(k, now) =>
      var r := s.requests[k];
      s.requests[k := r.(user := MarkSnapshot(r.user, now), marked := true)]
    case AuthDecide(k, _, _) => s.requests - {k}
    case _ => s.requests
  }

  ghost function NewAnswers(s: State, step: Step): seq<Answer>
    requires Enabled(s, step)
  {
    match step
    case Authenticate(i, n, passwordOk, now, encoded) =>
      [Answer(s.nextRequest, i, n, AuthReply(s.insts[i].mem, n, passwordOk, now, encoded), now)]
    case AuthRead(i, n, passwordOk, now) =>
      if Admitted(s.insts[i].mem, n, passwordOk) then [] else [Answer(s.nextRequest, i, n, Reject, now)]
    case AuthDecide(k, now, encoded) =>
      var r := s.requests[k];
      [Answer(k, r.inst, r.username, Decide(s.insts[r.inst].mem.sessions, r.username, r.user, now, encoded), now)]
    case _ => []
  }

  /** The charge that an accounting update makes, if its user is metered. */
  ghost function NewCharges(s: State, step: Step): seq<Charge>
    requires Enabled(s, step)
  {
    match step
    case Account(i, id, r, _, _) =>
      var m := s.insts[i].mem;
      var n := m.sessions[id].username;
      if IsMetered(m, n) then [Charge(Rec(i, id), m.subscribers[n].id, Reported(r), AcctDelta(m, id, r))] else []
    case _ => []
  }

  /** The process meters the record: it is in memory, and its user is cached as a voucher. */
  predicate MetersRecord(m: Mem, id: string) { id in m.sessions && IsMetered(m, m.sessions[id].username) }

  /** The counters of the records that the process begins to meter between two states,
      because they enter memory or because their user is cached at last. */
  function NewlyMetered(i: nat, before: Mem, after: Mem): map<Rec, Usage> {
    map rec: Rec | rec in (set id | id in after.sessions && MetersRecord(after, id) && !MetersRecord(before, id) :: Rec(i, id))
      :: if rec.id in after.sessions then Stored(after.sessions[rec.id]) else Usage(0, 0)
  }

  /** Everything a step of a process leads to. */
  datatype Outcome = Outcome(
    actor: nat,
    inst: Instance,
    writes: seq<Write>,
    requests: map<nat, Request>,
    nextRequest: nat,
    answers: seq<Answer>,
    charges: seq<Charge>)

  ghost function Act(s: State, step: Step): Outcome
    requires Enabled(s, step) && !step.Flush?
  {
    var e := Section(s, step);
    Outcome(
      Actor(s, step),
      Instance(e.mem, NextListings(s.insts[Actor(s, step)], step), NextSessionRows(s.insts[Actor(s, step)], step)),
      e.writes,
      NextRequests(s, step),
      if step.Authenticate? || step.AuthRead? then s.nextRequest + 1 else s.nextRequest,
      NewAnswers(s, step),
      NewCharges(s, step))
  }

  function Commit(s: State, o: Outcome): State
    requires o.actor < |s.insts|
  {
    State(
      s.db,
      s.insts[o.actor := o.inst],
      s.pending + o.writes,
      o.requests,
      o.nextRequest,
      s.answers + o.answers,
      s.charges + o.charges,
      NewlyMetered(o.actor, s.insts[o.actor].mem, o.inst.mem) + s.metered)
  }

  /** A goroutine's statement reaches the database. */
  function Land(s: State, k: nat, now: Time): State
    requires k < |s.pending|
  {
    s.(db := Execute(s.db, s.pending[k], now), pending := RemoveAt(s.pending, k))
  }

  ghost function Apply(s: State, step: Step): State
    requires Enabled(s, step)
  {
    if step.Flush? then Land(s, step.k, step.now) else Commit(s, Act(s, step))
  }

  ghost predicate IsRun(s: State, steps: seq<Step>)
    decreases |steps|
  {
    steps == [] || (Enabled(s, steps[0]) && IsRun(Apply(s, steps[0]), steps[1..]))
  }

  ghost function Run(s: State, steps: seq<Step>): State
    requires IsRun(s, steps)
    decreases |steps|
  {
    if steps == [] then s else Run(Apply(s, steps[0]), steps[1..])
  }

  lemma RunOnce(s: State, s1: State, steps: seq<Step>, rest: seq<Step>)
    requires steps != [] && Enabled(s, steps[0]) && s1 == Apply(s, steps[0]) && rest == steps[1..] && IsRun(s1, rest)
    ensures IsRun(s, steps) && Run(s, steps) == Run(s1, rest)
  {
  }

  lemma {:induction false} RunConcat(s: State, a: seq<Step>, b: seq<Step>)
    requires IsRun(s, a) && IsRun(Run(s, a), b)
    ensures IsRun(s, a + b) && Run(s, a + b) == Run(Run(s, a), b)
    decreases |a|
  {
    if a == [] {
      assert a + b == b;
    } else {
      RunConcat(Apply(s, a[0]), a[1..], b);
      ConcatFirst(a, b);
      RunOnce(s, Apply(s, a[0]), a + b, a[1..] + b);
    }
  }

  lemma RunFirst(s: State, step: Step, rest: seq<Step>)
    requires Enabled(s, step) && IsRun(Apply(s, step), rest)
    ensures IsRun(s, [step] + rest) && Run(s, [step] + rest) == Run(Apply(s, step), rest)
  {
  }

  lemma {:induction false} AnswersOnlyGrow(s: State, steps: seq<Step>)
    requires IsRun(s, steps)
    ensures |s.answers| <= |Run(s, steps).answers| && Run(s, steps).answers[..|s.answers|] == s.answers
    decreases |steps|
  {
    if steps != [] {
      var s1 := Apply(s, steps[0]);
      AnswersOnlyGrow(s1, steps[1..]);
      assert s1.answers[..|s.answers|] == s.answers;
    }
  }

  /** Some run leads from `s` to `s'`. */
  ghost predicate LeadsTo(s: State, s': State) { exists steps :: IsRun(s, steps) && Run(s, steps) == s' }

  lemma LeadsThen(a: State, b: State, c: State)
    requires LeadsTo(a, b) && LeadsTo(b, c)
    ensures LeadsTo(a, c)
  {
    var x :| IsRun(a, x) && Run(a, x) == b;
    var y :| IsRun(b, y) && Run(b, y) == c;
    RunConcat(a, x, y);
  }

  lemma RunLeads(s: State, steps: seq<Step>)
    requires IsRun(s, steps)
    ensures LeadsTo(s, Run(s, steps))
  {
  }

  /** A step changes no process but its own. */
  lemma OthersUntouched(s: State, step: Step, i: nat)
    requires Enabled(s, step) && i < |s.insts| && (step.Flush? || Actor(s, step) != i)
    ensures |Apply(s, step).insts| == |s.insts| && Apply(s, step).insts[i] == s.insts[i]
  {
  }

  /** Only these steps change session records. */
  predicate TouchesSessions(step: Step) {
    step.StartSession? || step.Account? || step.CleanSessions? || step.MergeSessions? || step.PodAnswered?
  }

  lemma SectionKeepsSessions(s: State, step: Step)
    requires Enabled(s, step) && !step.Flush? && !TouchesSessions(step)
    ensures Section(s, step).mem.sessions == s.insts[Actor(s, step)].mem.sessions
    ensures forall w :: w in Section(s, step).writes ==> !w.Upsert?
  {
  }

  lemma RunOne(s: State, step: Step)
    requires Enabled(s, step)
    ensures IsRun(s, [step]) && Run(s, [step]) == Apply(s, step)
  {
    assert [step][1..] == [];
    assert Run(s, [step]) == Run(Apply(s, step), []);
  }

  lemma StepLeads(s: State, step: Step)
    requires Enabled(s, step)
    ensures LeadsTo(s, Apply(s, step))
  {
    RunOne(s, step);
  }

  lemma RunTwo(s: State, a: Step, b: Step)
    requires Enabled(s, a) && Enabled(Apply(s, a), b)
    ensures IsRun(s, [a, b]) && Run(s, [a, b]) == Apply(Apply(s, a), b)
  {
    RunOne(Apply(s, a), b);
    RunFirst(s, a, [b]);
    PairIsConcat(a, b);
  }

  // ----- the user population -----

  /** `u` is the user called `n`, with the row's id and plan. */
  predicate Rooted(u: User, n: string, db: Db) {
    u.username == n && u.id in db.users && db.users[u.id].username == n && db.users[u.id].plan == u.plan
  }

  ghost predicate RootedRows(rows: seq<User>, db: Db) {
    && (forall j :: 0 <= j < |rows| ==> Rooted(rows[j], rows[j].username, db))
    && (forall id :: id in db.users ==> exists j :: 0 <= j < |rows| && rows[j].id == id)
  }

  ghost predicate RootedInstance(inst: Instance, db: Db) {
    && (forall n :: n in inst.mem.subscribers ==> Rooted(inst.mem.subscribers[n], n, db))
    && (forall k :: 0 <= k < |inst.listings| ==> RootedRows(inst.listings[k].users, db))
  }

  ghost predicate RootedDb(db: Db) {
    && (forall id :: id in db.users ==> db.users[id].id == id && id != "")
    && (forall a, b :: a in db.users && b in db.users && db.users[a].username == db.users[b].username ==> a == b)
  }

  /** Every copy of a user, anywhere, is a copy of the row of the same name. */
  ghost predicate Population(s: State) {
    && RootedDb(s.db)
    && (forall i :: 0 <= i < |s.insts| ==> RootedInstance(s.insts[i], s.db))
    && (forall r :: r in s.requests ==> Rooted(s.requests[r].user, s.requests[r].username, s.db))
  }
}
