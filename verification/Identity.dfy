/** Who a session record belongs to: what its Start said stays with it, and brings the later
    packets of the session to it (internal/radius/accounting.go). */
module Identity {
  import opened Domain
  import opened Counters
  import opened ServerSpec
  import opened Database
  import opened Cluster
  import opened Metering
  import SessionLaws
  import SessionRows

  /** What a Start says of a session, with the id and the time of the record it makes. */
  datatype Tag = Tag(id: string, sessionId: string, username: string, nasIp: string, startTime: Time)

  function TagOf(x: Session): Tag { Tag(x.id, x.sessionId, x.username, x.nasIp, x.startTime) }

  /** The tags that the step, or the run, brings by its Starts. */
  function TagsBy(step: Step): set<Tag> {
    if step.StartSession? then {Tag(step.id, step.sessionId, step.username, step.nasIp, step.now)} else {}
  }

  function AllTags(steps: seq<Step>): set<Tag> {
    if steps == [] then {} else TagsBy(steps[0]) + AllTags(steps[1..])
  }

  function RowTags(db: Db): set<Tag> { set id | id in db.sessions :: TagOf(db.sessions[id]) }

  ghost predicate TaggedTable(ss: map<string, Session>, tags: set<Tag>) {
    forall id :: id in ss ==> ss[id].id == id && TagOf(ss[id]) in tags
  }

  ghost predicate TaggedRows(rows: seq<Session>, tags: set<Tag>) { forall j :: 0 <= j < |rows| ==> TagOf(rows[j]) in tags }

  ghost predicate TaggedWrites(ws: seq<Write>, tags: set<Tag>) {
    forall w :: w in ws && w.Upsert? ==> TagOf(w.session) in tags
  }

  /** Every record in memory, in a list, in a row or on its way to one has one of the tags. */
  ghost predicate Tagged(s: State, tags: set<Tag>) {
    && TaggedTable(s.db.sessions, tags) && TaggedWrites(s.pending, tags)
    && (forall i :: 0 <= i < |s.insts| ==> TaggedTable(s.insts[i].mem.sessions, tags))
    && (forall i :: 0 <= i < |s.insts| ==> forall rows :: rows in s.insts[i].sessionRows ==> TaggedRows(rows, tags))
  }

  // ----- no step gives a record another tag -----

  /** A record that stays keeps its tag. */
  ghost predicate KeepsTag(before: map<string, Session>, after: map<string, Session>, id: string) {
    id in before ==> id in after && TagOf(after[id]) == TagOf(before[id])
  }

  lemma ReconciledIsTagged(ss: map<string, Session>, rows: seq<Session>, tags: set<Tag>)
    requires TaggedTable(ss, tags) && TaggedRows(rows, tags)
    ensures TaggedTable(Reconciled(ss, rows), tags)
  {
    forall id | id in Reconciled(ss, rows) ensures Reconciled(ss, rows)[id].id == id && TagOf(Reconciled(ss, rows)[id]) in tags {
      SessionLaws.ReconcileIsExact(ss, rows, id);
    }
  }

  lemma {:induction false} UpsertsAreTagged(ss: map<string, Session>, order: seq<string>, now: Time, tags: set<Tag>)
    requires TaggedTable(ss, tags)
    ensures TaggedWrites(Upserts(ss, order, now), tags)
    decreases |order|
  {
    if order != [] {
      UpsertsAreTagged(ss, order[..|order| - 1], now, tags);
    }
  }

  lemma AccountIsTagged(m: Mem, id: string, r: Report, stop: bool, now: Time, tags: set<Tag>)
    requires id in m.sessions && TaggedTable(m.sessions, tags)
    ensures TaggedTable(AcctUpdate(m, id, r, stop, now).mem.sessions, tags)
    ensures TaggedWrites(AcctUpdate(m, id, r, stop, now).writes, tags)
    ensures forall k :: KeepsTag(m.sessions, AcctUpdate(m, id, r, stop, now).mem.sessions, k)
  {
  }

  lemma StartIsTagged(m: Mem, step: Step, tags: set<Tag>)
    requires step.StartSession? && step.id !in m.sessions && TaggedTable(m.sessions, tags)
    ensures var e := AcctStart(m, NewSession(step.id, step.sessionId, step.username, step.nasIp, step.now));
            && TaggedTable(e.mem.sessions, tags + TagsBy(step)) && TaggedWrites(e.writes, tags + TagsBy(step))
            && step.id in e.mem.sessions && {TagOf(e.mem.sessions[step.id])} == TagsBy(step)
            && (forall k :: KeepsTag(m.sessions, e.mem.sessions, k))
  {
  }

  lemma MarkingIsTagged(ss: map<string, Session>, cutoff: Time, now: Time, n: string, nas: string, answer: PodAnswer,
                        tags: set<Tag>)
    requires TaggedTable(ss, tags)
    ensures TaggedTable(Cleaned(ss, cutoff, now), tags) && TaggedTable(Answered(ss, n, nas, answer, now), tags)
    ensures forall k :: KeepsTag(ss, Cleaned(ss, cutoff, now), k) && KeepsTag(ss, Answered(ss, n, nas, answer, now), k)
  {
  }

  lemma SectionIsTagged(s: State, step: Step, tags: set<Tag>)
    requires Tagged(s, tags) && Enabled(s, step) && !step.Flush?
    ensures TaggedTable(Section(s, step).mem.sessions, tags + TagsBy(step))
    ensures TaggedWrites(Section(s, step).writes, tags + TagsBy(step))
    ensures forall k :: KeepsTag(s.insts[Actor(s, step)].mem.sessions, Section(s, step).mem.sessions, k)
  {
    var inst := s.insts[Actor(s, step)];
    var ss := inst.mem.sessions;
    assert TaggedTable(ss, tags);
    if !TouchesSessions(step) {
      SectionKeepsSessions(s, step);
    } else {
      match step
      case StartSession(_, _, _, _, _, _) => StartIsTagged(inst.mem, step, tags);
      case Account(_, id, r, stop, now) => AccountIsTagged(inst.mem, id, r, stop, now, tags);
      case CleanSessions(_, cutoff, now, order) =>
        UpsertsAreTagged(ss, order, now, tags);
        MarkingIsTagged(ss, cutoff, now, "", "", Nak, tags);
      case MergeSessions(_, k) =>
        assert inst.sessionRows[k] in inst.sessionRows;
        ReconciledIsTagged(ss, inst.sessionRows[k], tags);
        forall id ensures KeepsTag(ss, Reconciled(ss, inst.sessionRows[k]), id) {
          SessionLaws.ReconcileIsExact(ss, inst.sessionRows[k], id);
        }
      case PodAnswered(_, n, nas, answer, now) => MarkingIsTagged(ss, now, now, n, nas, answer, tags);
    }
  }

  lemma CommitIsTagged(s: State, o: Outcome, tags: set<Tag>, more: set<Tag>)
    requires Tagged(s, tags) && o.actor < |s.insts| && tags <= more
    requires TaggedTable(o.inst.mem.sessions, more) && TaggedWrites(o.writes, more)
    requires forall rows :: rows in o.inst.sessionRows ==> TaggedRows(rows, tags)
    ensures Tagged(Commit(s, o), more)
  {
  }

  lemma ReadsAreTagged(s: State, step: Step, tags: set<Tag>)
    requires Tagged(s, tags) && Enabled(s, step) && !step.Flush?
    ensures forall rows :: rows in NextSessionRows(s.insts[Actor(s, step)], step) ==> TaggedRows(rows, tags)
  {
  }

  lemma LandIsTagged(s: State, k: nat, now: Time, tags: set<Tag>)
    requires Tagged(s, tags) && k < |s.pending|
    ensures Tagged(Land(s, k, now), tags)
  {
  }

  lemma TaggedStep(s: State, step: Step, tags: set<Tag>)
    requires Tagged(s, tags) && Enabled(s, step)
    ensures Tagged(Apply(s, step), tags + TagsBy(step))
  {
    if step.Flush? {
      LandIsTagged(s, step.k, step.now, tags);
      assert tags + TagsBy(step) == tags;
    } else {
      SectionIsTagged(s, step, tags);
      ReadsAreTagged(s, step, tags);
      CommitIsTagged(s, Act(s, step), tags, tags + TagsBy(step));
    }
  }

  lemma {:induction false} TaggedRun(s: State, steps: seq<Step>, tags: set<Tag>)
    requires Tagged(s, tags) && IsRun(s, steps)
    ensures Tagged(Run(s, steps), tags + AllTags(steps))
    decreases |steps|
  {
    if steps == [] {
      assert tags + AllTags(steps) == tags;
    } else {
      TaggedStep(s, steps[0], tags);
      TaggedRun(Apply(s, steps[0]), steps[1..], tags + TagsBy(steps[0]));
      assert tags + TagsBy(steps[0]) + AllTags(steps[1..]) == tags + AllTags(steps);
    }
  }

  lemma {:induction false} TagsComeFromStarts(steps: seq<Step>, t: Tag)
    requires t in AllTags(steps)
    ensures exists k :: 0 <= k < |steps| && IsStartOf(steps[k], t)
    decreases |steps|
  {
    if t in TagsBy(steps[0]) {
      assert IsStartOf(steps[0], t);
    } else {
      TagsComeFromStarts(steps[1..], t);
      var k :| 0 <= k < |steps[1..]| && IsStartOf(steps[1..][k], t);
      assert steps[k + 1] == steps[1..][k];
    }
  }

  predicate IsStartOf(step: Step, t: Tag) {
    && step.StartSession? && step.id == t.id && step.sessionId == t.sessionId && step.username == t.username
    && step.nasIp == t.nasIp && step.now == t.startTime
  }

  /** The record has the session id, user, NAS and start time of a Start of the run, or of the
      initial row of its id. */
  ghost predicate HasOrigin(db: Db, steps: seq<Step>, x: Session) {
    || (x.id in db.sessions && TagOf(db.sessions[x.id]) == TagOf(x))
    || (exists k :: 0 <= k < |steps| && IsStartOf(steps[k], TagOf(x)))
  }

  lemma TaggedHasOrigin(db: Db, steps: seq<Step>, x: Session)
    requires SessionRows.Keyed(db.sessions) && TagOf(x) in RowTags(db) + AllTags(steps)
    ensures HasOrigin(db, steps, x)
  {
    if TagOf(x) in AllTags(steps) {
      TagsComeFromStarts(steps, TagOf(x));
    }
  }

  /** Main result. In every run, whatever is updated, written, listed and reconciled: a record
      in memory, in a list that was read and in a row has the session id, user name, NAS address and start time of the
      Start that made it, or of the initial row of its id. */
  lemma EveryRecordHasItsOrigin(s0: State, steps: seq<Step>, s: State, i: nat, id: string)
    requires Init(s0) && SessionRows.Keyed(s0.db.sessions) && IsRun(s0, steps) && s == Run(s0, steps) && i < |s.insts|
    ensures id in s.insts[i].mem.sessions ==>
              s.insts[i].mem.sessions[id].id == id && HasOrigin(s0.db, steps, s.insts[i].mem.sessions[id])
    ensures id in s.db.sessions ==> s.db.sessions[id].id == id && HasOrigin(s0.db, steps, s.db.sessions[id])
    ensures forall rows, x :: rows in s.insts[i].sessionRows && x in rows ==> HasOrigin(s0.db, steps, x)
  {
    TaggedFromStart(s0, steps);
    if id in s.insts[i].mem.sessions {
      TaggedHasOrigin(s0.db, steps, s.insts[i].mem.sessions[id]);
    }
    if id in s.db.sessions {
      TaggedHasOrigin(s0.db, steps, s.db.sessions[id]);
    }
    forall rows, x | rows in s.insts[i].sessionRows && x in rows ensures HasOrigin(s0.db, steps, x) {
      TaggedHasOrigin(s0.db, steps, x);
    }
  }

  lemma TaggedFromStart(s0: State, steps: seq<Step>)
    requires Init(s0) && SessionRows.Keyed(s0.db.sessions) && IsRun(s0, steps)
    ensures Tagged(Run(s0, steps), RowTags(s0.db) + AllTags(steps))
  {
    TaggedRun(s0, steps, RowTags(s0.db));
  }

  // ----- the packets of a session -----

  /** What a packet with this session id and user name may update: the loop picks any record
      that carries both. */
  function PacketSteps(s: State, i: nat, sessionId: string, username: string, r: Report, stop: bool, now: Time): set<Step>
    requires i < |s.insts|
  {
    set id | id in s.insts[i].mem.sessions && Matches(s.insts[i].mem.sessions[id], sessionId, username)
      :: Account(i, id, r, stop, now)
  }

  lemma StepKeepsTag(s: State, step: Step, tags: set<Tag>, i: nat, id: string)
    requires Tagged(s, tags) && Enabled(s, step) && i < |s.insts| && id in s.insts[i].mem.sessions
    ensures i < |Apply(s, step).insts| && KeepsTag(s.insts[i].mem.sessions, Apply(s, step).insts[i].mem.sessions, id)
  {
    if step.Flush? || Actor(s, step) != i {
      OthersUntouched(s, step, i);
    } else {
      SectionIsTagged(s, step, tags);
    }
  }

  lemma {:induction false} TagStays(s: State, steps: seq<Step>, tags: set<Tag>, i: nat, id: string)
    requires Tagged(s, tags) && IsRun(s, steps) && i < |s.insts| && id in s.insts[i].mem.sessions
    ensures i < |Run(s, steps).insts| && id in Run(s, steps).insts[i].mem.sessions
    ensures TagOf(Run(s, steps).insts[i].mem.sessions[id]) == TagOf(s.insts[i].mem.sessions[id])
    decreases |steps|
  {
    if steps != [] {
      StepKeepsTag(s, steps[0], tags, i, id);
      TaggedStep(s, steps[0], tags);
      TagStays(Apply(s, steps[0]), steps[1..], tags + TagsBy(steps[0]), i, id);
    }
  }

  /** No Start of the run and no initial row but those of record `id` carry the pair. */
  ghost predicate CarriesAlone(db: Db, steps: seq<Step>, id: string, sessionId: string, username: string) {
    && (forall k :: k in db.sessions && k != id ==> db.sessions[k].sessionId != sessionId || db.sessions[k].username != username)
    && (forall j :: 0 <= j < |steps| && steps[j].StartSession? && steps[j].id != id ==>
          steps[j].sessionId != sessionId || steps[j].username != username)
  }

  /** Main result. In every run, after a Start at a process, a packet with the Start's session
      id and user name finds its record there, however much later; and no other record, when
      no other Start and no initial row carries both. */
  lemma PacketFindsItsSession(s0: State, before: seq<Step>, s1: State, start: Step, more: seq<Step>, s: State,
                              r: Report, stop: bool, now: Time)
    requires Init(s0) && SessionRows.Keyed(s0.db.sessions) && IsRun(s0, before) && s1 == Run(s0, before)
    requires Enabled(s1, start) && start.StartSession? && IsRun(Apply(s1, start), more) && s == Run(Apply(s1, start), more)
    ensures start.inst < |s.insts|
    ensures var found := PacketSteps(s, start.inst, start.sessionId, start.username, r, stop, now);
            && Account(start.inst, start.id, r, stop, now) in found
            && (CarriesAlone(s0.db, before + [start] + more, start.id, start.sessionId, start.username) ==>
                  found == {Account(start.inst, start.id, r, stop, now)})
  {
    StartedRecordStays(s0, before, s1, start, more, s);
    var i, n := start.inst, start.username;
    if CarriesAlone(s0.db, before + [start] + more, start.id, start.sessionId, n) {
      JoinedRun(s0, before, s1, start, more);
      forall id | id in s.insts[i].mem.sessions && Matches(s.insts[i].mem.sessions[id], start.sessionId, n)
        ensures id == start.id
      {
        EveryRecordHasItsOrigin(s0, before + [start] + more, s, i, id);
      }
    }
  }

  lemma JoinedRun(s0: State, before: seq<Step>, s1: State, start: Step, more: seq<Step>)
    requires IsRun(s0, before) && s1 == Run(s0, before) && Enabled(s1, start) && IsRun(Apply(s1, start), more)
    ensures IsRun(s0, before + [start] + more) && Run(s0, before + [start] + more) == Run(Apply(s1, start), more)
  {
    RunOne(s1, start);
    RunConcat(s0, before, [start]);
    RunConcat(s0, before + [start], more);
  }

  lemma StartedRecordStays(s0: State, before: seq<Step>, s1: State, start: Step, more: seq<Step>, s: State)
    requires Init(s0) && SessionRows.Keyed(s0.db.sessions) && IsRun(s0, before) && s1 == Run(s0, before)
    requires Enabled(s1, start) && start.StartSession? && IsRun(Apply(s1, start), more) && s == Run(Apply(s1, start), more)
    ensures start.inst < |s.insts| && start.id in s.insts[start.inst].mem.sessions
    ensures {TagOf(s.insts[start.inst].mem.sessions[start.id])} == TagsBy(start)
  {
    var tags := RowTags(s0.db) + AllTags(before);
    TaggedFromStart(s0, before);
    StartMakesTag(s1, start);
    TaggedStep(s1, start, tags);
    TagStays(Apply(s1, start), more, tags + TagsBy(start), start.inst, start.id);
  }

  lemma StartMakesTag(s: State, start: Step)
    requires Enabled(s, start) && start.StartSession?
    ensures var s' := Apply(s, start);
            && start.inst < |s'.insts| && start.id in s'.insts[start.inst].mem.sessions
            && {TagOf(s'.insts[start.inst].mem.sessions[start.id])} == TagsBy(start)
  {
  }
}
