/** Cached counters only ever grow, and never beyond what was charged, even when the
    database refuses to store a charge (internal/radius/service.go). */
module Ceilings {
  import opened Domain
  import opened Sums
  import opened Cluster
  import opened PopulationLaws
  import opened Metering

  /** The initial usage and everything charged so far. */
  function Total(s: State, uid: string, base: Usage, d: Dim): int { base.Of(d) + ChargesTo(s, uid, d) }

  /** The counters of the user fit an int64. */
  ghost predicate FitsInt64(s: State, uid: string, base: Usage) {
    forall d: Dim :: Total(s, uid, base, d) <= INT64_MAX
  }

  /** The row, with what is on its way to it, and every cached counter are within the total. */
  ghost predicate Capped(s: State, uid: string, base: Usage, d: Dim)
    requires uid in s.db.users
  {
    && 0 <= s.db.users[uid].usage.Of(d) && Outstanding(s, uid, d) <= Total(s, uid, base, d)
    && (forall i :: 0 <= i < |s.insts| ==> Below(s.insts[i], uid, d, Total(s, uid, base, d)))
  }

  ghost predicate Ledger(s: State, uid: string, base: Usage) {
    && uid in s.db.users && NonNegativeWrites(s.pending) && NonNegativeCharges(s.charges)
    && (FitsInt64(s, uid, base) ==> forall d: Dim :: Capped(s, uid, base, d))
  }

  lemma CommitKeepsLedger(s: State, o: Outcome, uid: string, base: Usage)
    requires Ledger(s, uid, base) && o.actor < |s.insts| && FairOutcome(o, uid)
    requires RaisesByCharge(s.insts[o.actor], s.db.users[uid], o, uid)
    ensures Ledger(Commit(s, o), uid, base)
    ensures FitsInt64(Commit(s, o), uid, base) ==> FitsInt64(s, uid, base)
  {
    var s' := Commit(s, o);
    forall d: Dim ensures Total(s', uid, base, d) == Total(s, uid, base, d) + StepCharge(o.charges, uid, d) >= Total(s, uid, base, d) {
      CommitAdds(s, o, uid, d);
    }
    if FitsInt64(s', uid, base) {
      assert FitsInt64(s, uid, base);
      forall d: Dim ensures Capped(s', uid, base, d) {
        assert Capped(s, uid, base, d);
        CommitKeepsCapped(s, o, uid, base, d);
      }
    }
  }

  lemma CommitKeepsCapped(s: State, o: Outcome, uid: string, base: Usage, d: Dim)
    requires uid in s.db.users && NonNegativeWrites(s.pending) && Capped(s, uid, base, d)
    requires o.actor < |s.insts| && FairOutcome(o, uid) && RaisesByCharge(s.insts[o.actor], s.db.users[uid], o, uid)
    requires Total(s, uid, base, d) + StepCharge(o.charges, uid, d) <= INT64_MAX
    ensures Capped(Commit(s, o), uid, base, d)
  {
    var cap, cap' := Total(s, uid, base, d), Total(s, uid, base, d) + StepCharge(o.charges, uid, d);
    PendingNonNegative(s, uid, d);
    CommitAdds(s, o, uid, d);
    assert Below(s.insts[o.actor], uid, d, cap);
    assert Below(o.inst, uid, d, cap');
    forall j | 0 <= j < |s.insts| && j != o.actor ensures Below(s.insts[j], uid, d, cap') {
      RaiseCap(s.insts[j], uid, d, cap, cap');
    }
  }

  /** A statement moves its delta to the row, or is refused and the delta is lost. */
  lemma LandKeepsCapped(s: State, k: nat, now: Time, uid: string, base: Usage, d: Dim)
    requires k < |s.pending| && uid in s.db.users && NonNegativeWrites(s.pending) && Capped(s, uid, base, d)
    ensures Capped(Land(s, k, now), uid, base, d)
  {
    var w := s.pending[k];
    assert w in s.pending && (w.AddUsage? ==> w.delta.Of(d) >= 0);
    SumRemove(Added(uid, d), s.pending, k);
  }

  lemma LandKeepsLedger(s: State, k: nat, now: Time, uid: string, base: Usage)
    requires k < |s.pending| && Ledger(s, uid, base)
    ensures Ledger(Land(s, k, now), uid, base)
    ensures FitsInt64(Land(s, k, now), uid, base) ==> FitsInt64(s, uid, base)
  {
    assert forall d: Dim :: Total(Land(s, k, now), uid, base, d) == Total(s, uid, base, d);
    if FitsInt64(s, uid, base) {
      forall d: Dim ensures Capped(Land(s, k, now), uid, base, d) {
        assert Capped(s, uid, base, d);
        LandKeepsCapped(s, k, now, uid, base, d);
      }
    }
  }

  ghost predicate Kept(s: State, uid: string, base: Usage) { Population(s) && SaneState(s) && Ledger(s, uid, base) }

  lemma KeptStep(s: State, step: Step, uid: string, base: Usage)
    requires Kept(s, uid, base) && Enabled(s, step)
    ensures Kept(Apply(s, step), uid, base)
    ensures FitsInt64(Apply(s, step), uid, base) ==> FitsInt64(s, uid, base)
  {
    PopulationStep(s, step);
    SaneStep(s, step);
    if step.Flush? {
      LandKeepsLedger(s, step.k, step.now, uid, base);
    } else {
      ActIsFair(s, step, uid);
      ActRaisesByCharge(s, step, Act(s, step), uid);
      CommitKeepsLedger(s, Act(s, step), uid, base);
    }
  }

  lemma {:induction false} KeptRun(s: State, steps: seq<Step>, uid: string, base: Usage)
    requires Kept(s, uid, base) && IsRun(s, steps)
    ensures Kept(Run(s, steps), uid, base)
    ensures FitsInt64(Run(s, steps), uid, base) ==> FitsInt64(s, uid, base)
    decreases |steps|
  {
    if steps != [] {
      KeptStep(s, steps[0], uid, base);
      KeptRun(Apply(s, steps[0]), steps[1..], uid, base);
    }
  }

  lemma InitKept(s: State, uid: string)
    requires Init(s) && uid in s.db.users
    ensures Kept(s, uid, s.db.users[uid].usage)
  {
    InitBooks(s, uid);
    var base := s.db.users[uid].usage;
    forall d: Dim ensures Capped(s, uid, base, d) {
      assert PendingFor(s, uid, d) == 0 && ChargesTo(s, uid, d) == 0;
      forall i | 0 <= i < |s.insts| ensures Below(s.insts[i], uid, d, Total(s, uid, base, d)) {}
    }
  }

  /** In every run, as long as the total fits an int64, no process's counter and no row
      exceeds the initial usage plus everything charged. */
  lemma CountersStayWithinTheTotal(s0: State, steps: seq<Step>, s: State, i: nat, n: string, uid: string, d: Dim)
    requires Init(s0) && IsRun(s0, steps) && s == Run(s0, steps) && uid in s0.db.users
    requires FitsInt64(s, uid, s0.db.users[uid].usage)
    requires i < |s.insts| && n in s.insts[i].mem.subscribers && s.insts[i].mem.subscribers[n].id == uid
    ensures uid in s.db.users
    ensures 0 <= s.insts[i].mem.subscribers[n].usage.Of(d) <= s0.db.users[uid].usage.Of(d) + ChargesTo(s, uid, d)
    ensures 0 <= s.db.users[uid].usage.Of(d) <= s0.db.users[uid].usage.Of(d) + ChargesTo(s, uid, d)
  {
    var base := s0.db.users[uid].usage;
    InitKept(s0, uid);
    KeptRun(s0, steps, uid, base);
    assert Capped(s, uid, base, d) && Below(s.insts[i], uid, d, Total(s, uid, base, d));
    assert Within(s.insts[i].mem.subscribers[n], uid, d, Total(s, uid, base, d));
    PendingNonNegative(s, uid, d);
  }

  // ----- no counter ever decreases -----

  /** A cache that holds the user goes on holding it, with a counter at least as large. */
  ghost predicate Grows(before: Mem, after: Mem, uid: string, d: Dim) {
    forall n :: n in before.subscribers ==>
      && n in after.subscribers
      && after.subscribers[n].id == before.subscribers[n].id
      && (before.subscribers[n].id == uid ==> after.subscribers[n].usage.Of(d) >= before.subscribers[n].usage.Of(d))
  }

  ghost predicate Progress(s: State, s': State, uid: string, d: Dim) {
    && |s.insts| == |s'.insts|
    && (forall i :: 0 <= i < |s.insts| ==> Grows(s.insts[i].mem, s'.insts[i].mem, uid, d))
  }

  lemma ActGrows(s: State, step: Step, o: Outcome, uid: string, d: Dim, cap: int)
    requires Population(s) && SaneState(s) && Enabled(s, step) && !step.Flush? && o == Act(s, step)
    requires cap + StepCharge(o.charges, uid, d) <= INT64_MAX && Below(s.insts[o.actor], uid, d, cap)
    ensures Grows(s.insts[o.actor].mem, o.inst.mem, uid, d)
  {
    forall n | n in s.insts[o.actor].mem.subscribers
      ensures n in o.inst.mem.subscribers
      ensures o.inst.mem.subscribers[n].id == s.insts[o.actor].mem.subscribers[n].id
      ensures s.insts[o.actor].mem.subscribers[n].id == uid ==>
                o.inst.mem.subscribers[n].usage.Of(d) >= s.insts[o.actor].mem.subscribers[n].usage.Of(d)
    {
      CachedUsage(s, step, n, uid, d, cap);
    }
  }

  lemma RoomToGrow(s: State, o: Outcome, uid: string, base: Usage, d: Dim)
    requires o.actor < |s.insts| && Ledger(s, uid, base) && FitsInt64(s, uid, base) && FitsInt64(Commit(s, o), uid, base)
    ensures Below(s.insts[o.actor], uid, d, Total(s, uid, base, d))
    ensures Total(s, uid, base, d) + StepCharge(o.charges, uid, d) <= INT64_MAX
  {
    assert Capped(s, uid, base, d);
    CommitAdds(s, o, uid, d);
    assert Total(Commit(s, o), uid, base, d) <= INT64_MAX;
  }

  lemma CommitProgresses(s: State, o: Outcome, uid: string, d: Dim)
    requires o.actor < |s.insts| && Grows(s.insts[o.actor].mem, o.inst.mem, uid, d)
    ensures Progress(s, Commit(s, o), uid, d)
  {
  }

  lemma ProgressStep(s: State, step: Step, uid: string, base: Usage, d: Dim)
    requires Kept(s, uid, base) && Enabled(s, step) && FitsInt64(s, uid, base) && FitsInt64(Apply(s, step), uid, base)
    ensures Progress(s, Apply(s, step), uid, d)
  {
    if !step.Flush? {
      var o := Act(s, step);
      RoomToGrow(s, o, uid, base, d);
      ActGrows(s, step, o, uid, d, Total(s, uid, base, d));
      CommitProgresses(s, o, uid, d);
    }
  }

  lemma ProgressTransitive(a: State, b: State, c: State, uid: string, d: Dim)
    requires Progress(a, b, uid, d) && Progress(b, c, uid, d)
    ensures Progress(a, c, uid, d)
  {
  }

  /** Main result. Along every run, no process's counter ever decreases, however stale the
      lists it merges and whatever the database does with the charges. */
  lemma {:induction false} CountersNeverDecrease(s: State, steps: seq<Step>, uid: string, base: Usage, d: Dim)
    requires Kept(s, uid, base) && IsRun(s, steps) && FitsInt64(Run(s, steps), uid, base)
    ensures Progress(s, Run(s, steps), uid, d)
    decreases |steps|
  {
    if steps != [] {
      var s1 := Apply(s, steps[0]);
      KeptStep(s, steps[0], uid, base);
      KeptRun(s1, steps[1..], uid, base);
      ProgressStep(s, steps[0], uid, base, d);
      CountersNeverDecrease(s1, steps[1..], uid, base, d);
      ProgressTransitive(s, s1, Run(s1, steps[1..]), uid, d);
    }
  }
}
