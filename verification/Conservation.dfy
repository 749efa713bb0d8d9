/** With a single process no charge is ever lost from memory or invented: the cache always
    shows all that was charged, and so does the row with the deltas under way, as long as
    its columns hold it. */
module Conservation {
  import opened Domain
  import opened Sums
  import opened ServerSpec
  import opened Database
  import opened Cluster
  import opened PopulationLaws
  import opened Metering
  import opened Ceilings

  ghost predicate Caches(m: Mem, uid: string) {
    exists n :: n in m.subscribers && m.subscribers[n].id == uid
  }

  /** The cached counter is exactly the total charged; until the user is cached, nothing is
      under way, and the row and every list read show the total. */
  ghost predicate Exact(s: State, uid: string, base: Usage, d: Dim)
    requires uid in s.db.users
  {
    && |s.insts| == 1
    && (forall n :: n in s.insts[0].mem.subscribers && s.insts[0].mem.subscribers[n].id == uid ==>
          s.insts[0].mem.subscribers[n].usage.Of(d) == Total(s, uid, base, d))
    && (!Caches(s.insts[0].mem, uid) ==>
          && PendingFor(s, uid, d) == 0 && s.db.users[uid].usage.Of(d) == Total(s, uid, base, d)
          && ListingsShow(s.insts[0], uid, d, Total(s, uid, base, d)))
  }

  ghost predicate ListingsShow(inst: Instance, uid: string, d: Dim, value: int) {
    forall l, j :: l in inst.listings && 0 <= j < |l.users| && l.users[j].id == uid ==> l.users[j].usage.Of(d) == value
  }

  /** What a refresh does when no list is ahead of the cache. */
  lemma ExactMerge(inst: Instance, l: Listing, db: Db, n: string, uid: string, d: Dim, value: int)
    requires RootedDb(db) && RootedInstance(inst, db) && l in inst.listings && Below(inst, uid, d, value)
    requires forall k :: k in inst.mem.subscribers && inst.mem.subscribers[k].id == uid ==>
               inst.mem.subscribers[k].usage.Of(d) == value
    requires !Caches(inst.mem, uid) ==> ListingsShow(inst, uid, d, value)
    requires n in Refresh(inst.mem, l).subscribers && Refresh(inst.mem, l).subscribers[n].id == uid
    ensures Refresh(inst.mem, l).subscribers[n].usage.Of(d) == value
  {
    var j := RefreshedUser(inst.mem, l, db, n);
    assert RowsBelow(l.users, uid, d, value);
    assert Within(l.users[j], uid, d, value);
    if n !in inst.mem.subscribers {
      forall k | k in inst.mem.subscribers ensures inst.mem.subscribers[k].id != uid {
        assert Rooted(inst.mem.subscribers[k], k, db) && Rooted(l.users[j], n, db);
      }
    }
  }

  lemma ExactAct(s: State, step: Step, o: Outcome, uid: string, d: Dim, value: int)
    requires Population(s) && SaneState(s) && Enabled(s, step) && !step.Flush? && o == Act(s, step)
    requires uid in s.db.users && |s.insts| == 1 && o.actor == 0 && Below(s.insts[0], uid, d, value)
    requires forall n :: n in s.insts[0].mem.subscribers && s.insts[0].mem.subscribers[n].id == uid ==>
               s.insts[0].mem.subscribers[n].usage.Of(d) == value
    requires !Caches(s.insts[0].mem, uid) ==> ListingsShow(s.insts[0], uid, d, value)
    requires value + StepCharge(o.charges, uid, d) <= INT64_MAX
    ensures forall n :: n in o.inst.mem.subscribers && o.inst.mem.subscribers[n].id == uid ==>
              o.inst.mem.subscribers[n].usage.Of(d) == value + StepCharge(o.charges, uid, d)
  {
    var inst := s.insts[0];
    assert RootedInstance(inst, s.db);
    forall n | n in o.inst.mem.subscribers && o.inst.mem.subscribers[n].id == uid
      ensures o.inst.mem.subscribers[n].usage.Of(d) == value + StepCharge(o.charges, uid, d)
    {
      if step.Account? {
        CachedUsageAccount(s, step, n, uid, d, value);
      } else {
        OnlyAccountingCharges(s, step);
        if step.MergeLists? {
          ExactMerge(inst, inst.listings[step.k], s.db, n, uid, d, value);
        } else {
          SectionKeepsUsage(s, step);
        }
      }
    }
  }

  /** A user that is not cached is not charged, and a list just read shows the row. */
  lemma UncachedAct(s: State, step: Step, o: Outcome, uid: string, d: Dim)
    requires SaneState(s) && Enabled(s, step) && !step.Flush? && o == Act(s, step)
    requires uid in s.db.users && |s.insts| == 1 && o.actor == 0
    requires !Caches(s.insts[0].mem, uid) && ListingsShow(s.insts[0], uid, d, s.db.users[uid].usage.Of(d))
    ensures StepCharge(o.charges, uid, d) == 0
    ensures ListingsShow(o.inst, uid, d, s.db.users[uid].usage.Of(d))
  {
    if step.Account? {
      AccountCharge(s, step, uid, d);
    } else {
      OnlyAccountingCharges(s, step);
    }
    UncachedListings(s, step, uid, d);
  }

  lemma UncachedListings(s: State, step: Step, uid: string, d: Dim)
    requires Enabled(s, step) && !step.Flush? && uid in s.db.users
    requires ListingsShow(s.insts[Actor(s, step)], uid, d, s.db.users[uid].usage.Of(d))
    ensures forall l, j :: l in NextListings(s.insts[Actor(s, step)], step) && 0 <= j < |l.users| && l.users[j].id == uid ==>
              l.users[j].usage.Of(d) == s.db.users[uid].usage.Of(d)
  {
  }

  lemma GrowsKeepsCached(before: Mem, after: Mem, uid: string, d: Dim)
    requires Grows(before, after, uid, d)
    ensures Caches(before, uid) ==> Caches(after, uid)
  {
  }

  lemma ExactStep(s: State, step: Step, uid: string, base: Usage, d: Dim)
    requires Kept(s, uid, base) && Enabled(s, step) && FitsInt64(Apply(s, step), uid, base)
    requires Exact(s, uid, base, d)
    ensures uid in Apply(s, step).db.users && Exact(Apply(s, step), uid, base, d)
  {
    KeptStep(s, step, uid, base);
    if step.Flush? {
      LandKeepsExact(s, step.k, step.now, uid, base, d);
    } else {
      var o := Act(s, step);
      ActIsFair(s, step, uid);
      RoomToGrow(s, o, uid, base, d);
      ActGrows(s, step, o, uid, d, Total(s, uid, base, d));
      ExactAct(s, step, o, uid, d, Total(s, uid, base, d));
      GrowsKeepsCached(s.insts[0].mem, o.inst.mem, uid, d);
      if !Caches(s.insts[0].mem, uid) {
        UncachedAct(s, step, o, uid, d);
      }
      CommitKeepsExact(s, o, uid, base, d);
    }
  }

  lemma CommitKeepsExact(s: State, o: Outcome, uid: string, base: Usage, d: Dim)
    requires uid in s.db.users && Exact(s, uid, base, d) && o.actor == 0 && FairOutcome(o, uid)
    requires forall n :: n in o.inst.mem.subscribers && o.inst.mem.subscribers[n].id == uid ==>
               o.inst.mem.subscribers[n].usage.Of(d) == Total(s, uid, base, d) + StepCharge(o.charges, uid, d)
    requires Caches(s.insts[0].mem, uid) ==> Caches(o.inst.mem, uid)
    requires !Caches(s.insts[0].mem, uid) ==>
               StepCharge(o.charges, uid, d) == 0 && ListingsShow(o.inst, uid, d, s.db.users[uid].usage.Of(d))
    ensures Exact(Commit(s, o), uid, base, d)
  {
    CommitAdds(s, o, uid, d);
  }

  lemma LandKeepsExact(s: State, k: nat, now: Time, uid: string, base: Usage, d: Dim)
    requires k < |s.pending| && uid in s.db.users && NonNegativeWrites(s.pending) && Exact(s, uid, base, d)
    ensures Exact(Land(s, k, now), uid, base, d)
  {
    var s', w := Land(s, k, now), s.pending[k];
    assert w in s.pending && (w.AddUsage? ==> w.delta.Of(d) >= 0);
    SumRemove(Added(uid, d), s.pending, k);
    SumNonNegative(Added(uid, d), s'.pending);
  }

  lemma {:induction false} ExactRun(s: State, steps: seq<Step>, uid: string, base: Usage, d: Dim)
    requires Kept(s, uid, base) && IsRun(s, steps) && FitsInt64(Run(s, steps), uid, base) && Exact(s, uid, base, d)
    ensures uid in Run(s, steps).db.users && Exact(Run(s, steps), uid, base, d)
    decreases |steps|
  {
    if steps != [] {
      var s1 := Apply(s, steps[0]);
      KeptStep(s, steps[0], uid, base);
      KeptRun(s1, steps[1..], uid, base);
      ExactStep(s, steps[0], uid, base, d);
      ExactRun(s1, steps[1..], uid, base, d);
    }
  }

  lemma InitExact(s: State, uid: string, d: Dim)
    requires Init(s) && |s.insts| == 1 && uid in s.db.users
    ensures Kept(s, uid, s.db.users[uid].usage) && Exact(s, uid, s.db.users[uid].usage, d)
  {
    InitKept(s, uid);
    assert PendingFor(s, uid, d) == 0 && ChargesTo(s, uid, d) == 0;
  }

  /** Main result. After any run of a single process, the cached counter is the initial usage
      plus everything charged, whatever the database refused; and it is the row plus the
      deltas under way as long as the columns hold it. */
  lemma SingleProcessConserves(s0: State, steps: seq<Step>, n: string, uid: string, d: Dim)
    requires Init(s0) && |s0.insts| == 1 && IsRun(s0, steps) && uid in s0.db.users
    requires FitsInt64(Run(s0, steps), uid, s0.db.users[uid].usage)
    ensures var s := Run(s0, steps);
            |s.insts| == 1 && uid in s.db.users
            && (n in s.insts[0].mem.subscribers && s.insts[0].mem.subscribers[n].id == uid ==>
                  var cached := s.insts[0].mem.subscribers[n].usage.Of(d);
                  && cached == s0.db.users[uid].usage.Of(d) + ChargesTo(s, uid, d)
                  && (InColumns(s, uid, s0.db.users[uid].usage) ==> cached == s.db.users[uid].usage.Of(d) + PendingFor(s, uid, d)))
  {
    var base := s0.db.users[uid].usage;
    InitExact(s0, uid, d);
    ExactRun(s0, steps, uid, base, d);
    InitBooks(s0, uid);
    BooksRun(s0, steps, uid, base);
    if InColumns(Run(s0, steps), uid, base) {
      assert Balanced(Run(s0, steps), uid, base, d);
    }
  }
}
