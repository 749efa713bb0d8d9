/** No step changes who the users are: every copy of a user in any process stays a copy of
    the database row of that name. */
module PopulationLaws {
  import opened Domain
  import opened ServerSpec
  import opened Database
  import opened Cluster
  import RefreshLaws

  predicate SamePopulation(a: Db, b: Db) {
    && a.users.Keys == b.users.Keys
    && (forall id :: id in a.users ==>
          b.users[id].id == a.users[id].id && b.users[id].username == a.users[id].username && b.users[id].plan == a.users[id].plan)
  }

  predicate RootedMem(m: Mem, db: Db) {
    forall n :: n in m.subscribers ==> Rooted(m.subscribers[n], n, db)
  }

  lemma ExecuteKeepsPopulation(db: Db, w: Write, now: Time)
    ensures SamePopulation(db, Execute(db, w, now))
  {
  }

  /** The row a cached user is refreshed from, and what the refresh keeps of it. */
  lemma RefreshedUser(m: Mem, l: Listing, db: Db, n: string) returns (j: nat)
    requires RootedMem(m, db) && RootedRows(l.users, db) && RootedDb(db)
    ensures n in m.subscribers ==> n in Refresh(m, l).subscribers
    ensures n in Refresh(m, l).subscribers ==>
              && j < |l.users| && Rooted(l.users[j], n, db)
              && (n in m.subscribers ==> m.subscribers[n].id == l.users[j].id)
              && Rooted(Refresh(m, l).subscribers[n], n, db)
              && (var e := MergeUser(Get(m.subscribers, n), l.users[j]);
                  var u := Refresh(m, l).subscribers[n];
                  u.id == e.id == l.users[j].id && u.usage == e.usage && u.enabled == e.enabled
                  && u.firstLogin == e.firstLogin && u.expires == e.expires)
  {
    if n in m.subscribers {
      RowOf(l.users, db, n, m.subscribers[n].id);
    }
    var k := RefreshLaws.RefreshedEntry(m.subscribers, l.users, EnabledProfiles(l.profiles), PackagesById(l.packages), n);
    j := 0;
    if n in Refresh(m, l).subscribers {
      j := k;
      assert Rooted(l.users[j], n, db);
    }
  }

  lemma RowOf(rows: seq<User>, db: Db, n: string, id: string)
    requires RootedRows(rows, db) && RootedDb(db) && id in db.users && db.users[id].username == n
    ensures RefreshLaws.HasUser(rows, n)
  {
  }

  lemma RefreshKeepsRoots(m: Mem, l: Listing, db: Db)
    requires RootedMem(m, db) && RootedRows(l.users, db) && RootedDb(db)
    ensures RootedMem(Refresh(m, l), db)
  {
    forall n | n in Refresh(m, l).subscribers ensures Rooted(Refresh(m, l).subscribers[n], n, db) {
      var j := RefreshedUser(m, l, db, n);
    }
  }

  lemma AuthKeepsRoots(m: Mem, db: Db, n: string, passwordOk: bool, now: Time)
    requires RootedMem(m, db)
    ensures forall u :: RootedMem(MarkCached(m, n, u, now).mem, db)
    ensures RootedMem(AuthEffect(m, n, passwordOk, now).mem, db)
  {
  }

  lemma SectionKeepsRoots(s: State, step: Step)
    requires Population(s) && Enabled(s, step) && !step.Flush?
    ensures RootedMem(Section(s, step).mem, s.db)
  {
    var inst := s.insts[Actor(s, step)];
    assert RootedInstance(inst, s.db);
    match step
    case MergeLists(_, k) => RefreshKeepsRoots(inst.mem, inst.listings[k], s.db);
    case Authenticate(_, n, passwordOk, now, _) => AuthKeepsRoots(inst.mem, s.db, n, passwordOk, now);
    case AuthMark(r, now) => AuthKeepsRoots(inst.mem, s.db, s.requests[r].username, true, now);
    case _ =>
  }

  lemma ListingsStayRooted(s: State, step: Step)
    requires Population(s) && Enabled(s, step) && !step.Flush?
    ensures forall l :: l in NextListings(s.insts[Actor(s, step)], step) ==> RootedRows(l.users, s.db)
  {
  }

  lemma CommitKeepsPopulation(s: State, o: Outcome)
    requires Population(s) && o.actor < |s.insts| && RootedInstance(o.inst, s.db)
    requires forall r :: r in o.requests ==> Rooted(o.requests[r].user, o.requests[r].username, s.db)
    ensures Population(Commit(s, o))
  {
  }

  lemma PopulationStep(s: State, step: Step)
    requires Population(s) && Enabled(s, step)
    ensures Population(Apply(s, step)) && SamePopulation(s.db, Apply(s, step).db)
  {
    if step.Flush? {
      LandKeepsPopulation(s, step.k, step.now);
    } else {
      SectionKeepsRoots(s, step);
      ListingsStayRooted(s, step);
      RequestsStayRooted(s, step);
      CommitKeepsPopulation(s, Act(s, step));
    }
  }

  lemma RequestsStayRooted(s: State, step: Step)
    requires Population(s) && Enabled(s, step)
    ensures forall r :: r in NextRequests(s, step) ==> Rooted(NextRequests(s, step)[r].user, NextRequests(s, step)[r].username, s.db)
  {
  }

  lemma LandKeepsPopulation(s: State, k: nat, now: Time)
    requires Population(s) && k < |s.pending|
    ensures Population(Land(s, k, now)) && SamePopulation(s.db, Land(s, k, now).db)
  {
    var db' := Execute(s.db, s.pending[k], now);
    ExecuteKeepsPopulation(s.db, s.pending[k], now);
    forall j | 0 <= j < |s.insts| ensures RootedInstance(s.insts[j], db') {
      RootsSurvive(s.insts[j], s.db, db');
    }
  }

  lemma RootsSurvive(inst: Instance, db: Db, db': Db)
    requires RootedInstance(inst, db) && SamePopulation(db, db')
    ensures RootedInstance(inst, db')
  {
  }

  lemma {:induction false} PopulationRun(s: State, steps: seq<Step>)
    requires Population(s) && IsRun(s, steps)
    ensures Population(Run(s, steps)) && SamePopulation(s.db, Run(s, steps).db)
    decreases |steps|
  {
    if steps != [] {
      PopulationStep(s, steps[0]);
      PopulationRun(Apply(s, steps[0]), steps[1..]);
    }
  }
}
