/** The simultaneous-use limit across processes: each process counts only the sessions in
    its own memory (internal/radius/auth.go). */
module SharedLimit {
  import opened Domain
  import opened Sums
  import opened ServerSpec
  import opened Cluster
  import opened Metering
  import opened SimultaneousUse
  import Convergence

  /** The active sessions of the user that these processes hold together. */
  function TotalActive(insts: seq<Instance>, n: string): nat {
    if insts == [] then 0 else ActiveCount(insts[0].mem, n) + TotalActive(insts[1..], n)
  }

  /** Every process holds at most, or at least, `c` active sessions of the user. */
  predicate EachAtMost(insts: seq<Instance>, n: string, c: int) {
    forall i :: 0 <= i < |insts| ==> ActiveCount(insts[i].mem, n) <= c
  }

  predicate EachAtLeast(insts: seq<Instance>, n: string, c: int) {
    forall i :: 0 <= i < |insts| ==> ActiveCount(insts[i].mem, n) >= c
  }

  lemma {:induction false} TotalAtMost(insts: seq<Instance>, n: string, c: int)
    requires EachAtMost(insts, n, c)
    ensures TotalActive(insts, n) <= |insts| * c
  {
    if insts != [] {
      TotalAtMost(insts[1..], n, c);
      assert |insts| * c == c + |insts[1..]| * c;
    }
  }

  lemma {:induction false} TotalAtLeast(insts: seq<Instance>, n: string, c: int)
    requires EachAtLeast(insts, n, c)
    ensures TotalActive(insts, n) >= |insts| * c
  {
    if insts != [] {
      TotalAtLeast(insts[1..], n, c);
      assert |insts| * c == c + |insts[1..]| * c;
    }
  }

  ghost predicate PacedEverywhere(s: State, steps: seq<Step>, n: string, most: nat)
    requires IsRun(s, steps)
  {
    forall i: nat :: i < |s.insts| ==> Paced(s, steps, i, n, most, 0)
  }

  /** A run from the start that is paced at every process, to `s`. */
  ghost predicate PacedRun(s0: State, steps: seq<Step>, s: State, n: string, limit: int, most: nat) {
    && Init(s0) && LimitOf(s0.db, n, limit) && IsRun(s0, steps) && s == Run(s0, steps)
    && most > 0 && PacedEverywhere(s0, steps, n, most)
  }

  lemma BoundedAt(s0: State, steps: seq<Step>, s: State, i: nat, n: string, limit: int, most: nat)
    requires PacedRun(s0, steps, s, n, limit, most)
    ensures |s.insts| == |s0.insts| && (i < |s.insts| ==> ActiveCount(s.insts[i].mem, n) <= limit + most - 1)
  {
    Convergence.SameProcesses(s0, steps);
    if i < |s0.insts| {
      SessionsAreBounded(s0, steps, i, n, limit, most);
    }
  }

  lemma EachIsBounded(s0: State, steps: seq<Step>, s: State, n: string, limit: int, most: nat)
    requires PacedRun(s0, steps, s, n, limit, most)
    ensures EachAtMost(s.insts, n, limit + most - 1)
  {
    forall i | 0 <= i < |s.insts| ensures ActiveCount(s.insts[i].mem, n) <= limit + most - 1 {
      BoundedAt(s0, steps, s, i, n, limit, most);
    }
  }

  /** In every run that is paced at every process, the processes together hold fewer than
      `limit + most` active sessions of the user each. */
  lemma TotalIsBounded(s0: State, steps: seq<Step>, s: State, n: string, limit: int, most: nat)
    requires PacedRun(s0, steps, s, n, limit, most)
    ensures |s.insts| == |s0.insts| && TotalActive(s.insts, n) <= |s.insts| * (limit + most - 1)
  {
    BoundedAt(s0, steps, s, 0, n, limit, most);
    EachIsBounded(s0, steps, s, n, limit, most);
    TotalAtMost(s.insts, n, limit + most - 1);
  }

  // ----- the bound is reached -----

  /** Each new session is requested, accepted and started before the next. */
  function FillSteps(i: nat, n: string, ids: seq<string>, now: Time): seq<Step> {
    if ids == [] then []
    else [Authenticate(i, n, true, now, true)] + ([StartSession(i, ids[0], ids[0], n, "", now)] + FillSteps(i, n, ids[1..], now))
  }

  /** The user is fit, and the new sessions bring the process to the limit. */
  predicate Fills(m: Mem, n: string, ids: seq<string>, limit: int, now: Time) {
    && Fit(m, n, now) && m.subscribers[n].plan.simultaneousUse == limit
    && Distinct(ids) && (forall id :: id in ids ==> id !in m.sessions) && ActiveCount(m, n) + |ids| == limit
  }

  /** The later answers are the earlier ones and then accepts. */
  predicate OnlyAccepts(before: seq<Answer>, after: seq<Answer>) {
    |before| <= |after| && after[..|before|] == before && forall j :: |before| <= j < |after| ==> after[j].reply.Accept?
  }

  lemma StillFills(m: Mem, m': Mem, n: string, ids: seq<string>, limit: int, now: Time)
    requires Fills(m, n, ids, limit, now) && Fit(m', n, now)
    requires m'.sessions == m.sessions && m'.subscribers[n].plan == m.subscribers[n].plan
    ensures Fills(m', n, ids, limit, now)
  {
  }

  lemma RestFills(m: Mem, m': Mem, n: string, ids: seq<string>, limit: int, now: Time)
    requires Fills(m, n, ids, limit, now) && ids != [] && m'.subscribers == m.subscribers
    requires m'.sessions.Keys == m.sessions.Keys + {ids[0]} && ActiveCount(m', n) == ActiveCount(m, n) + 1
    ensures Fills(m', n, ids[1..], limit, now)
  {
  }

  lemma AdmitNext(s: State, i: nat, n: string, ids: seq<string>, limit: int, now: Time) returns (s': State)
    requires i < |s.insts| && Fills(s.insts[i].mem, n, ids, limit, now) && ids != []
    ensures var auth := Authenticate(i, n, true, now, true);
            Enabled(s, auth) && s' == Apply(s, auth)
    ensures |s'.insts| == |s.insts| && Fills(s'.insts[i].mem, n, ids, limit, now)
    ensures forall j :: 0 <= j < |s.insts| && j != i ==> s'.insts[j] == s.insts[j]
    ensures OnlyAccepts(s.answers, s'.answers)
  {
    s' := AdmitOne(s, i, n, now);
    StillFills(s.insts[i].mem, s'.insts[i].mem, n, ids, limit, now);
  }

  lemma StartNext(s: State, i: nat, n: string, ids: seq<string>, limit: int, now: Time) returns (s': State)
    requires i < |s.insts| && Fills(s.insts[i].mem, n, ids, limit, now) && ids != []
    ensures var start := StartSession(i, ids[0], ids[0], n, "", now);
            Enabled(s, start) && s' == Apply(s, start)
    ensures |s'.insts| == |s.insts| && s'.answers == s.answers && Fills(s'.insts[i].mem, n, ids[1..], limit, now)
    ensures forall j :: 0 <= j < |s.insts| && j != i ==> s'.insts[j] == s.insts[j]
  {
    s' := StartOne(s, i, n, ids[0], now);
    RestFills(s.insts[i].mem, s'.insts[i].mem, n, ids, limit, now);
  }

  lemma FillNext(s: State, i: nat, n: string, ids: seq<string>, limit: int, now: Time) returns (s1: State, s2: State)
    requires i < |s.insts| && Fills(s.insts[i].mem, n, ids, limit, now) && ids != []
    ensures var auth, start := Authenticate(i, n, true, now, true), StartSession(i, ids[0], ids[0], n, "", now);
            Enabled(s, auth) && s1 == Apply(s, auth) && Enabled(s1, start) && s2 == Apply(s1, start)
    ensures |s2.insts| == |s.insts| && Fills(s2.insts[i].mem, n, ids[1..], limit, now)
    ensures forall j :: 0 <= j < |s.insts| && j != i ==> s2.insts[j] == s.insts[j]
    ensures OnlyAccepts(s.answers, s2.answers)
  {
    s1 := AdmitNext(s, i, n, ids, limit, now);
    s2 := StartNext(s1, i, n, ids, limit, now);
  }

  lemma {:induction false} FillOne(s: State, i: nat, n: string, ids: seq<string>, limit: int, now: Time) returns (s': State)
    requires i < |s.insts| && Fills(s.insts[i].mem, n, ids, limit, now)
    ensures IsRun(s, FillSteps(i, n, ids, now)) && s' == Run(s, FillSteps(i, n, ids, now))
    ensures |s'.insts| == |s.insts| && ActiveCount(s'.insts[i].mem, n) == limit
    ensures forall j :: 0 <= j < |s.insts| && j != i ==> s'.insts[j] == s.insts[j]
    ensures OnlyAccepts(s.answers, s'.answers)
    decreases |ids|
  {
    s' := s;
    if ids != [] {
      var auth, start, rest :=
        Authenticate(i, n, true, now, true), StartSession(i, ids[0], ids[0], n, "", now), FillSteps(i, n, ids[1..], now);
      var s1, s2 := FillNext(s, i, n, ids, limit, now);
      s' := FillOne(s2, i, n, ids[1..], limit, now);
      RunFirst(s1, start, rest);
      RunFirst(s, auth, [start] + rest);
      AcceptsExtend(s.answers, s2.answers, s'.answers);
    }
  }

  /** At every process such steps keep the strictest pace, one accept at a time. */
  lemma {:induction false} FillInPace(i: nat, n: string, ids: seq<string>, now: Time, j: nat)
    ensures InPace(FillSteps(i, n, ids, now), j, n, 1, 0) && OpenAfter(FillSteps(i, n, ids, now), j, n, 1, 0) == 0
    decreases |ids|
  {
    if ids != [] {
      var auth, start, rest :=
        Authenticate(i, n, true, now, true), StartSession(i, ids[0], ids[0], n, "", now), FillSteps(i, n, ids[1..], now);
      var open := if i == j then 1 else 0;
      FillInPace(i, n, ids[1..], now, j);
      OpenAfterOne(auth, j, n, 1, 0);
      OpenAfterOne(start, j, n, 1, open);
      assert [auth][1..] == [] && [start][1..] == [];
      InPaceConcat([start], rest, j, n, 1, open);
      InPaceConcat([auth], [start] + rest, j, n, 1, 0);
    }
  }

  /** Every process from the `k`-th on is filled. */
  lemma {:induction false} FillFrom(s: State, k: nat, n: string, ids: seq<seq<string>>, limit: int, now: Time)
    returns (steps: seq<Step>, s': State)
    requires k <= |s.insts| == |ids| && forall i :: k <= i < |s.insts| ==> Fills(s.insts[i].mem, n, ids[i], limit, now)
    ensures IsRun(s, steps) && s' == Run(s, steps) && |s'.insts| == |s.insts| && OnlyAccepts(s.answers, s'.answers)
    ensures forall i :: 0 <= i < k ==> s'.insts[i] == s.insts[i]
    ensures forall i :: k <= i < |s.insts| ==> ActiveCount(s'.insts[i].mem, n) == limit
    ensures forall j: nat :: InPace(steps, j, n, 1, 0)
    decreases |s.insts| - k
  {
    steps, s' := [], s;
    if k < |s.insts| {
      var first := FillSteps(k, n, ids[k], now);
      var s1 := FillOne(s, k, n, ids[k], limit, now);
      var rest;
      rest, s' := FillFrom(s1, k + 1, n, ids, limit, now);
      steps := first + rest;
      RunConcat(s, first, rest);
      AcceptsExtend(s.answers, s1.answers, s'.answers);
      forall j: nat ensures InPace(steps, j, n, 1, 0) {
        FillInPace(k, n, ids[k], now, j);
        InPaceConcat(first, rest, j, n, 1, 0);
      }
    }
  }

  /** Main result. From every state in which each process has room for its new sessions: a
      run in which every start follows the last accept at every process, and after which all
      of them stand at the limit. Together they hold it as many times as there are processes,
      which is what `TotalIsBounded` allows. */
  lemma EveryProcessFills(s: State, n: string, ids: seq<seq<string>>, limit: int, now: Time)
    returns (steps: seq<Step>, s': State)
    requires |ids| == |s.insts| && forall i :: 0 <= i < |s.insts| ==> Fills(s.insts[i].mem, n, ids[i], limit, now)
    ensures IsRun(s, steps) && s' == Run(s, steps) && AcceptsFrom(s', |s.answers|)
    ensures PacedEverywhere(s, steps, n, 1) && TotalActive(s'.insts, n) == |s'.insts| * limit
  {
    steps, s' := FillFrom(s, 0, n, ids, limit, now);
    forall i: nat | i < |s.insts| ensures Paced(s, steps, i, n, 1, 0) {
      InPaceIsPaced(s, steps, i, n, 1, 0);
    }
    TotalAtMost(s'.insts, n, limit);
    TotalAtLeast(s'.insts, n, limit);
  }
}
