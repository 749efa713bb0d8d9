/** Convergence: every refresh brings its cache up to what the row has shown, for good; and
    with nothing under way, exactly to the row. */
module Convergence {
  import opened Domain
  import opened Sums
  import opened ServerSpec
  import opened Database
  import opened Cluster
  import opened Applied
  import opened PopulationLaws
  import opened Metering
  import opened Ceilings
  import RefreshLaws

  ghost predicate Healthy(s: State, uid: string, base: Usage) {
    Population(s) && SaneState(s) && Books(s, uid, base)
  }

  lemma HealthyStep(s: State, step: Step, uid: string, base: Usage)
    requires Healthy(s, uid, base) && Enabled(s, step)
    ensures Healthy(Apply(s, step), uid, base)
  {
    PopulationStep(s, step);
    SaneStep(s, step);
    BooksStep(s, step, uid, base);
  }

  /** Process `i` caches the user with exactly this counter, and so does the database. */
  ghost predicate Agrees(s: State, i: int, uid: string, d: Dim, value: int)
    requires 0 <= i < |s.insts| && uid in s.db.users
  {
    var n := s.db.users[uid].username;
    && n in s.insts[i].mem.subscribers
    && s.insts[i].mem.subscribers[n].usage.Of(d) == s.db.users[uid].usage.Of(d) == value
  }

  // ----- charges only grow, and rows never fall -----

  lemma ChargesGrowStep(s: State, step: Step, uid: string, d: Dim)
    requires Population(s) && SaneState(s) && Enabled(s, step)
    ensures ChargesTo(s, uid, d) <= ChargesTo(Apply(s, step), uid, d)
  {
    if !step.Flush? {
      ActIsFair(s, step, uid);
      CommitAdds(s, Act(s, step), uid, d);
    }
  }

  lemma {:induction false} ChargesGrow(s: State, steps: seq<Step>, uid: string, base: Usage, d: Dim)
    requires Healthy(s, uid, base) && IsRun(s, steps)
    ensures ChargesTo(s, uid, d) <= ChargesTo(Run(s, steps), uid, d)
    decreases |steps|
  {
    if steps != [] {
      HealthyStep(s, steps[0], uid, base);
      ChargesGrowStep(s, steps[0], uid, d);
      ChargesGrow(Apply(s, steps[0]), steps[1..], uid, base, d);
    }
  }

  predicate RowAtLeast(db: Db, uid: string, d: Dim, value: int) { uid in db.users && db.users[uid].usage.Of(d) >= value }

  lemma RowNeverFalls(s: State, step: Step, uid: string, d: Dim, value: int)
    requires Enabled(s, step) && NonNegativeWrites(s.pending) && RowAtLeast(s.db, uid, d, value)
    ensures RowAtLeast(Apply(s, step).db, uid, d, value)
  {
    if step.Flush? {
      var s' := FlushApplied(s, step);
      var w := s.pending[step.k];
      assert w in s.pending && (w.AddUsage? ==> w.delta.Of(d) >= 0);
    }
  }

  // ----- lists read since -----

  ghost predicate RowsAtLeast(rows: seq<User>, uid: string, d: Dim, value: int) {
    forall j :: 0 <= j < |rows| && rows[j].id == uid ==> rows[j].usage.Of(d) >= value
  }

  /** All but the first `stale` lists that process `i` holds show at least the value. */
  ghost predicate FreshAtLeast(s: State, i: nat, stale: nat, uid: string, d: Dim, value: int) {
    && i < |s.insts| && stale <= |s.insts[i].listings|
    && (forall k :: stale <= k < |s.insts[i].listings| ==> RowsAtLeast(s.insts[i].listings[k].users, uid, d, value))
  }

  /** How many of the oldest lists of process `i` are still unmerged after the step. */
  function NextStale(step: Step, i: nat, stale: nat): nat {
    if step.MergeLists? && step.inst == i && step.k < stale then stale - 1 else stale
  }

  predicate MergesNewer(step: Step, i: nat, stale: nat) { step.MergeLists? && step.inst == i && step.k >= stale }

  /** Somewhere in the run process `i` merges a list that is not among its first `stale`
      ones, that is, one it read in the run. */
  predicate Refreshes(steps: seq<Step>, i: nat, stale: nat) {
    steps != [] && (MergesNewer(steps[0], i, stale) || Refreshes(steps[1..], i, NextStale(steps[0], i, stale)))
  }

  lemma NextListingsAtLeast(s: State, step: Step, stale: nat, uid: string, d: Dim, value: int)
    requires Enabled(s, step) && !step.Flush? && RowAtLeast(s.db, uid, d, value)
    requires FreshAtLeast(s, Actor(s, step), stale, uid, d, value)
    ensures var ls, stale' := NextListings(s.insts[Actor(s, step)], step), NextStale(step, Actor(s, step), stale);
            stale' <= |ls| && forall k :: stale' <= k < |ls| ==> RowsAtLeast(ls[k].users, uid, d, value)
  {
    var ls := s.insts[Actor(s, step)].listings;
    if step.MergeLists? {
      assert forall k :: step.k <= k < |ls| - 1 ==> RemoveAt(ls, step.k)[k] == ls[k + 1];
    } else if step.ReadLists? {
      assert RowsAtLeast(step.listing.users, uid, d, value);
    }
  }

  lemma FreshStep(s: State, step: Step, i: nat, stale: nat, uid: string, d: Dim, value: int)
    requires Enabled(s, step) && RowAtLeast(s.db, uid, d, value) && FreshAtLeast(s, i, stale, uid, d, value)
    ensures FreshAtLeast(Apply(s, step), i, NextStale(step, i, stale), uid, d, value)
  {
    if !step.Flush? && Actor(s, step) == i {
      NextListingsAtLeast(s, step, stale, uid, d, value);
    }
  }

  // ----- a refresh catches up, for good -----

  /** Process `i` caches the user with at least the value. */
  ghost predicate HoldsAtLeast(s: State, i: nat, n: string, uid: string, d: Dim, value: int) {
    && i < |s.insts| && n in s.insts[i].mem.subscribers
    && s.insts[i].mem.subscribers[n].id == uid && s.insts[i].mem.subscribers[n].usage.Of(d) >= value
  }

  /** Whatever the cache held, a merge leaves it with what the list shows, or more. */
  lemma MergeTakesOver(inst: Instance, l: Listing, db: Db, n: string, uid: string, d: Dim, value: int)
    requires RootedDb(db) && RootedInstance(inst, db) && l in inst.listings
    requires uid in db.users && db.users[uid].username == n && RowsAtLeast(l.users, uid, d, value)
    ensures var m := Refresh(inst.mem, l).subscribers;
            n in m && m[n].id == uid && m[n].usage.Of(d) >= value
  {
    RowOf(l.users, db, n, uid);
    var k := RefreshLaws.RefreshedEntry(inst.mem.subscribers, l.users, EnabledProfiles(l.profiles), PackagesById(l.packages), n);
    var j := RefreshedUser(inst.mem, l, db, n);
    assert Rooted(l.users[j], n, db);
  }

  lemma RefreshHolds(s: State, step: Step, stale: nat, n: string, uid: string, d: Dim, value: int)
    requires Population(s) && Enabled(s, step) && step.MergeLists? && step.k >= stale
    requires FreshAtLeast(s, step.inst, stale, uid, d, value) && uid in s.db.users && s.db.users[uid].username == n
    ensures HoldsAtLeast(Apply(s, step), step.inst, n, uid, d, value)
  {
    var inst := s.insts[step.inst];
    assert RootedInstance(inst, s.db);
    MergeTakesOver(inst, inst.listings[step.k], s.db, n, uid, d, value);
    var s' := ListsMerged(s, step);
  }

  lemma ProgressHolds(s: State, s': State, i: nat, n: string, uid: string, d: Dim, value: int)
    requires Progress(s, s', uid, d) && HoldsAtLeast(s, i, n, uid, d, value)
    ensures HoldsAtLeast(s', i, n, uid, d, value)
  {
    assert Grows(s.insts[i].mem, s'.insts[i].mem, uid, d);
  }

  lemma CatchUpStep(s: State, step: Step, i: nat, stale: nat, n: string, uid: string, base: Usage, d: Dim, value: int)
    requires Kept(s, uid, base) && Enabled(s, step) && FitsInt64(s, uid, base) && FitsInt64(Apply(s, step), uid, base)
    requires FreshAtLeast(s, i, stale, uid, d, value) && uid in s.db.users && s.db.users[uid].username == n
    ensures HoldsAtLeast(s, i, n, uid, d, value) || MergesNewer(step, i, stale) ==> HoldsAtLeast(Apply(s, step), i, n, uid, d, value)
  {
    if HoldsAtLeast(s, i, n, uid, d, value) {
      ProgressStep(s, step, uid, base, d);
      ProgressHolds(s, Apply(s, step), i, n, uid, d, value);
    } else if MergesNewer(step, i, stale) {
      RefreshHolds(s, step, stale, n, uid, d, value);
    }
  }

  /** What a run keeps while process `i` may still catch up with the value. */
  ghost predicate CatchingUp(s: State, i: nat, stale: nat, n: string, uid: string, base: Usage, d: Dim, value: int) {
    && Kept(s, uid, base) && RowAtLeast(s.db, uid, d, value) && s.db.users[uid].username == n
    && FreshAtLeast(s, i, stale, uid, d, value)
  }

  lemma CatchingUpStep(s: State, step: Step, i: nat, stale: nat, n: string, uid: string, base: Usage, d: Dim, value: int)
    requires CatchingUp(s, i, stale, n, uid, base, d, value) && Enabled(s, step)
    ensures CatchingUp(Apply(s, step), i, NextStale(step, i, stale), n, uid, base, d, value)
  {
    KeptStep(s, step, uid, base);
    PopulationStep(s, step);
    RowNeverFalls(s, step, uid, d, value);
    FreshStep(s, step, i, stale, uid, d, value);
  }

  lemma {:induction false} CatchUpRun(s: State, steps: seq<Step>, i: nat, stale: nat, n: string, uid: string,
                                      base: Usage, d: Dim, value: int)
    requires CatchingUp(s, i, stale, n, uid, base, d, value) && IsRun(s, steps) && FitsInt64(Run(s, steps), uid, base)
    requires HoldsAtLeast(s, i, n, uid, d, value) || Refreshes(steps, i, stale)
    ensures HoldsAtLeast(Run(s, steps), i, n, uid, d, value)
    decreases |steps|
  {
    if steps != [] {
      var s1 := Apply(s, steps[0]);
      CatchingUpStep(s, steps[0], i, stale, n, uid, base, d, value);
      KeptRun(s1, steps[1..], uid, base);
      KeptStep(s, steps[0], uid, base);
      CatchUpStep(s, steps[0], i, stale, n, uid, base, d, value);
      CatchUpRun(s1, steps[1..], i, NextStale(steps[0], i, stale), n, uid, base, d, value);
    }
  }

  lemma {:induction false} RowNeverFallsInRun(s: State, steps: seq<Step>, uid: string, base: Usage, d: Dim, value: int)
    requires Kept(s, uid, base) && IsRun(s, steps) && RowAtLeast(s.db, uid, d, value)
    ensures RowAtLeast(Run(s, steps).db, uid, d, value)
    decreases |steps|
  {
    if steps != [] {
      KeptStep(s, steps[0], uid, base);
      RowNeverFalls(s, steps[0], uid, d, value);
      RowNeverFallsInRun(Apply(s, steps[0]), steps[1..], uid, base, d, value);
    }
  }

  /** Main result. From every reachable state, in every continuation: the row never falls
      below what it shows now, and each process that has merged a list it read since caches
      at least that much, for good, whatever else is charged, refused, merged or lost. */
  lemma EveryRefreshCatchesUp(s0: State, steps: seq<Step>, s: State, more: seq<Step>, s': State, uid: string, d: Dim)
    requires Init(s0) && IsRun(s0, steps) && s == Run(s0, steps) && uid in s0.db.users
    requires IsRun(s, more) && s' == Run(s, more) && FitsInt64(s', uid, s0.db.users[uid].usage)
    ensures uid in s.db.users && |s'.insts| == |s.insts| && RowAtLeast(s'.db, uid, d, s.db.users[uid].usage.Of(d))
    ensures forall i: nat :: i < |s.insts| && Refreshes(more, i, |s.insts[i].listings|) ==>
              HoldsAtLeast(s', i, s.db.users[uid].username, uid, d, s.db.users[uid].usage.Of(d))
  {
    var base := s0.db.users[uid].usage;
    InitKept(s0, uid);
    KeptRun(s0, steps, uid, base);
    SameProcesses(s, more);
    RowNeverFallsInRun(s, more, uid, base, d, s.db.users[uid].usage.Of(d));
    forall i: nat | i < |s.insts| && Refreshes(more, i, |s.insts[i].listings|)
      ensures HoldsAtLeast(s', i, s.db.users[uid].username, uid, d, s.db.users[uid].usage.Of(d))
    {
      CatchUpRun(s, more, i, |s.insts[i].listings|, s.db.users[uid].username, uid, base, d, s.db.users[uid].usage.Of(d));
    }
  }

  // ----- with nothing under way, exactly to the row -----

  /** When the books are closed at both ends, the row is where it was. */
  lemma ClosedBooks(s: State, s': State, uid: string, base: Usage, d: Dim)
    requires Healthy(s, uid, base) && Healthy(s', uid, base) && InColumns(s, uid, base) && InColumns(s', uid, base)
    requires PendingFor(s, uid, d) == 0 && ChargesTo(s', uid, d) == ChargesTo(s, uid, d)
    requires RowAtLeast(s'.db, uid, d, s.db.users[uid].usage.Of(d))
    ensures s.db.users[uid].usage.Of(d) == s'.db.users[uid].usage.Of(d) == base.Of(d) + ChargesTo(s', uid, d)
    ensures forall i :: 0 <= i < |s'.insts| ==> Below(s'.insts[i], uid, d, base.Of(d) + ChargesTo(s', uid, d))
  {
    assert Balanced(s, uid, base, d) && Balanced(s', uid, base, d);
    PendingNonNegative(s', uid, d);
  }

  lemma BooksStayClosed(s0: State, steps: seq<Step>, s: State, more: seq<Step>, s': State, uid: string, d: Dim)
    requires Init(s0) && IsRun(s0, steps) && s == Run(s0, steps) && uid in s0.db.users && PendingFor(s, uid, d) == 0
    requires IsRun(s, more) && s' == Run(s, more) && uid in s.db.users && RowAtLeast(s'.db, uid, d, s.db.users[uid].usage.Of(d))
    requires InColumns(s', uid, s0.db.users[uid].usage) && ChargesTo(s', uid, d) == ChargesTo(s, uid, d)
    ensures var value := s0.db.users[uid].usage.Of(d) + ChargesTo(s', uid, d);
            && s'.db.users[uid].username == s.db.users[uid].username
            && s.db.users[uid].usage.Of(d) == s'.db.users[uid].usage.Of(d) == value
            && (forall i :: 0 <= i < |s'.insts| ==> Below(s'.insts[i], uid, d, value))
  {
    var base := s0.db.users[uid].usage;
    InitBooks(s0, uid);
    BooksRun(s0, steps, uid, base);
    BooksRun(s, more, uid, base);
    PopulationRun(s, more);
    ClosedBooks(s, s', uid, base, d);
  }

  lemma HeldIsAgreed(s: State, i: nat, uid: string, d: Dim, value: int)
    requires uid in s.db.users && s.db.users[uid].usage.Of(d) == value
    requires HoldsAtLeast(s, i, s.db.users[uid].username, uid, d, value) && Below(s.insts[i], uid, d, value)
    ensures Agrees(s, i, uid, d, value)
  {
    assert Within(s.insts[i].mem.subscribers[s.db.users[uid].username], uid, d, value);
  }

  /** Main result. From the moment nothing is under way for a user, in every continuation
      that charges the user nothing: each process that has merged a list it read since then
      caches exactly the initial usage plus everything charged, and so does the row. Stale
      merges, requests, cleanups and the other processes' refreshes may fall anywhere,
      before and after. */
  lemma EveryRefreshConverges(s0: State, steps: seq<Step>, s: State, more: seq<Step>, s': State, uid: string, d: Dim)
    requires Init(s0) && IsRun(s0, steps) && s == Run(s0, steps) && uid in s0.db.users && PendingFor(s, uid, d) == 0
    requires IsRun(s, more) && s' == Run(s, more)
    requires InColumns(s', uid, s0.db.users[uid].usage) && ChargesTo(s', uid, d) == ChargesTo(s, uid, d)
    ensures uid in s'.db.users && |s'.insts| == |s.insts|
    ensures forall i :: 0 <= i < |s.insts| && Refreshes(more, i, |s.insts[i].listings|) ==>
              Agrees(s', i, uid, d, s0.db.users[uid].usage.Of(d) + ChargesTo(s', uid, d))
  {
    var value := s0.db.users[uid].usage.Of(d) + ChargesTo(s', uid, d);
    EveryRefreshCatchesUp(s0, steps, s, more, s', uid, d);
    BooksStayClosed(s0, steps, s, more, s', uid, d);
    forall i: nat | i < |s.insts| && Refreshes(more, i, |s.insts[i].listings|) ensures Agrees(s', i, uid, d, value) {
      HeldIsAgreed(s', i, uid, d, value);
    }
  }

  lemma {:induction false} SameProcesses(s: State, steps: seq<Step>)
    requires IsRun(s, steps)
    ensures |Run(s, steps).insts| == |s.insts|
    decreases |steps|
  {
    if steps != [] {
      SameProcesses(Apply(s, steps[0]), steps[1..]);
    }
  }

  // ----- a round of refreshes is such a continuation -----

  /** One process reads the lists and merges them. */
  function RefreshSteps(inst: Instance, i: nat, l: Listing): seq<Step> {
    [ReadLists(i, l), MergeLists(i, |inst.listings|)]
  }

  lemma RefreshesNow(inst: Instance, i: nat, l: Listing, rest: seq<Step>)
    ensures Refreshes(RefreshSteps(inst, i, l) + rest, i, |inst.listings|)
  {
    var steps := RefreshSteps(inst, i, l) + rest;
    assert steps[1..] == [MergeLists(i, |inst.listings|)] + rest;
  }

  lemma RefreshesLater(inst: Instance, k: nat, l: Listing, rest: seq<Step>, i: nat, stale: nat)
    requires i != k && Refreshes(rest, i, stale)
    ensures Refreshes(RefreshSteps(inst, k, l) + rest, i, stale)
  {
    var steps := RefreshSteps(inst, k, l) + rest;
    assert steps[1..] == [MergeLists(k, |inst.listings|)] + rest && steps[1..][1..] == rest;
  }

  lemma RefreshStepsRun(s: State, i: nat, l: Listing) returns (s': State)
    requires i < |s.insts| && ListsUsers(s.db, l.users)
    ensures IsRun(s, RefreshSteps(s.insts[i], i, l)) && s' == Run(s, RefreshSteps(s.insts[i], i, l))
    ensures s'.db == s.db && s'.charges == s.charges && |s'.insts| == |s.insts|
    ensures forall j :: 0 <= j < |s.insts| && j != i ==> s'.insts[j] == s.insts[j]
  {
    var read, merge := ReadLists(i, l), MergeLists(i, |s.insts[i].listings|);
    var s1 := ListsRead(s, read);
    s' := ListsMerged(s1, merge);
    RunTwo(s, read, merge);
  }

  /** There is always such a continuation: a round in which each process from the `k`-th on
      refreshes, and nothing is charged. */
  lemma {:induction false} RoundIsPossible(s: State, k: nat, l: Listing) returns (round: seq<Step>, s': State)
    requires k <= |s.insts| && ListsUsers(s.db, l.users)
    ensures IsRun(s, round) && s' == Run(s, round) && s'.charges == s.charges && s'.db == s.db
    ensures forall i :: k <= i < |s.insts| ==> Refreshes(round, i, |s.insts[i].listings|)
    decreases |s.insts| - k
  {
    round, s' := [], s;
    if k < |s.insts| {
      var first := RefreshSteps(s.insts[k], k, l);
      var s1 := RefreshStepsRun(s, k, l);
      var rest;
      rest, s' := RoundIsPossible(s1, k + 1, l);
      round := first + rest;
      RunConcat(s, first, rest);
      RefreshesNow(s.insts[k], k, l, rest);
      forall i | k < i < |s.insts| ensures Refreshes(round, i, |s.insts[i].listings|) {
        RefreshesLater(s.insts[k], k, l, rest, i, |s.insts[i].listings|);
      }
    }
  }
}
