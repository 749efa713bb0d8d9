/** A request handled without interruption is its pieces, one right after the other
    (internal/radius/auth.go). */
module Uninterrupted {
  import opened Domain
  import opened ServerSpec
  import opened Cluster
  import opened Enforcement
  import opened Metering

  /** A step that leaves the sessions alone, and who is metered, begins to meter no record. */
  lemma CommitKeepsMetered(s: State, o: Outcome)
    requires o.actor < |s.insts| && o.inst.mem.sessions == s.insts[o.actor].mem.sessions
    requires forall n :: IsMetered(o.inst.mem, n) <==> IsMetered(s.insts[o.actor].mem, n)
    ensures Commit(s, o).metered == s.metered
  {
    assert NewlyMetered(o.actor, s.insts[o.actor].mem, o.inst.mem) == map[];
  }

  /** The state after a section that touches the subscribers of one process only. */
  function After(s: State, i: nat, e: Effect, requests: map<nat, Request>, next: nat, given: seq<Answer>): State
    requires i < |s.insts|
  {
    s.(insts := s.insts[i := s.insts[i].(mem := e.mem)], pending := s.pending + e.writes,
       requests := requests, nextRequest := next, answers := s.answers + given)
  }

  lemma AfterTwo(s: State, i: nat, a: Effect, b: Effect, ra: map<nat, Request>, rb: map<nat, Request>,
                 na: nat, nb: nat, ga: seq<Answer>, gb: seq<Answer>)
    requires i < |s.insts|
    ensures After(After(s, i, a, ra, na, ga), i, b, rb, nb, gb)
         == After(s, i, Effect(b.mem, a.writes + b.writes), rb, nb, ga + gb)
  {
    assert s.pending + a.writes + b.writes == s.pending + (a.writes + b.writes);
    assert s.answers + ga + gb == s.answers + (ga + gb);
    var inst := s.insts[i];
    assert s.insts[i := inst.(mem := a.mem)][i := inst.(mem := b.mem)] == s.insts[i := inst.(mem := b.mem)];
  }

  lemma ReadGives(s: State, step: Step) returns (s': State)
    requires step.AuthRead? && Enabled(s, step)
    ensures s' == Apply(s, step)
    ensures var i, m := step.inst, s.insts[step.inst].mem;
            s' == if Admitted(m, step.username, step.passwordOk)
                  then After(s, i, Effect(m, []), s.requests[s.nextRequest := Request(i, step.username, m.subscribers[step.username], false)],
                             s.nextRequest + 1, [])
                  else After(s, i, Effect(m, []), s.requests, s.nextRequest + 1, [Answer(s.nextRequest, i, step.username, Reject, step.now)])
  {
    CommitKeepsMetered(s, Act(s, step));
    s' := Apply(s, step);
  }

  lemma MarkGives(s: State, step: Step) returns (s': State)
    requires step.AuthMark? && Enabled(s, step)
    ensures s' == Apply(s, step)
    ensures var r := s.requests[step.request];
            s' == After(s, r.inst, MarkCached(s.insts[r.inst].mem, r.username, r.user, step.now),
                        s.requests[step.request := r.(user := MarkSnapshot(r.user, step.now), marked := true)], s.nextRequest, [])
  {
    CommitKeepsMetered(s, Act(s, step));
    s' := Apply(s, step);
  }

  lemma DisableGives(s: State, step: Step) returns (s': State)
    requires step.DisableUser? && Enabled(s, step)
    ensures s' == Apply(s, step)
    ensures s' == After(s, step.inst, Effect(DisableInMemory(s.insts[step.inst].mem, step.username), [Disable(step.userId)]),
                        s.requests, s.nextRequest, [])
  {
    CommitKeepsMetered(s, Act(s, step));
    s' := Apply(s, step);
  }

  lemma DecideGives(s: State, step: Step) returns (s': State)
    requires step.AuthDecide? && Enabled(s, step)
    ensures s' == Apply(s, step)
    ensures var r := s.requests[step.request];
            var reply := Decide(s.insts[r.inst].mem.sessions, r.username, r.user, step.now, step.encoded);
            s' == After(s, r.inst, Effect(s.insts[r.inst].mem, []), s.requests - {step.request}, s.nextRequest,
                        [Answer(step.request, r.inst, r.username, reply, step.now)])
  {
    CommitKeepsMetered(s, Act(s, step));
    s' := Apply(s, step);
  }

  lemma AuthGives(s: State, step: Step) returns (s': State)
    requires step.Authenticate? && Enabled(s, step)
    ensures s' == Apply(s, step)
    ensures var i, m, n := step.inst, s.insts[step.inst].mem, step.username;
            s' == After(s, i, AuthEffect(m, n, step.passwordOk, step.now), s.requests, s.nextRequest + 1,
                        [Answer(s.nextRequest, i, n, AuthReply(m, n, step.passwordOk, step.now, step.encoded), step.now)])
  {
    CommitKeepsMetered(s, Act(s, step));
    s' := Apply(s, step);
  }

  /** The pieces of a request, in the order of the handler. */
  function Pieces(s: State, auth: Step): seq<Step>
    requires auth.Authenticate? && auth.inst < |s.insts|
  {
    var m, n, k := s.insts[auth.inst].mem, auth.username, s.nextRequest;
    if !Admitted(m, n, auth.passwordOk) then [AuthRead(auth.inst, n, auth.passwordOk, auth.now)]
    else
      var read, mark, decide := AuthRead(auth.inst, n, true, auth.now), AuthMark(k, auth.now), AuthDecide(k, auth.now, auth.encoded);
      if Refused(MarkSnapshot(m.subscribers[n], auth.now), auth.now)
      then [read, mark] + [DisableUser(auth.inst, n, m.subscribers[n].id)] + [decide]
      else [read, mark] + [decide]
  }

  lemma ReadAtOnce(s: State, i: nat, n: string, now: Time, u: User) returns (s1: State)
    requires i < |s.insts| && Admitted(s.insts[i].mem, n, true) && u == s.insts[i].mem.subscribers[n]
    ensures Enabled(s, AuthRead(i, n, true, now)) && s1 == Apply(s, AuthRead(i, n, true, now))
    ensures s1 == After(s, i, Effect(s.insts[i].mem, []), s.requests[s.nextRequest := Request(i, n, u, false)], s.nextRequest + 1, [])
  {
    s1 := ReadGives(s, AuthRead(i, n, true, now));
  }

  lemma OverwriteTwice<K, V>(m: map<K, V>, k: K, a: V, b: V)
    ensures m[k := a][k := b] == m[k := b]
  {
  }

  lemma MarkAtOnce(s: State, s1: State, i: nat, n: string, now: Time, u: User) returns (s2: State)
    requires i < |s.insts|
    requires s1 == After(s, i, Effect(s.insts[i].mem, []), s.requests[s.nextRequest := Request(i, n, u, false)], s.nextRequest + 1, [])
    ensures Enabled(s1, AuthMark(s.nextRequest, now)) && s2 == Apply(s1, AuthMark(s.nextRequest, now))
    ensures s2 == After(s, i, MarkCached(s.insts[i].mem, n, u, now),
                        s.requests[s.nextRequest := Request(i, n, MarkSnapshot(u, now), true)], s.nextRequest + 1, [])
  {
    var m, k, marked := s.insts[i].mem, s.nextRequest, MarkCached(s.insts[i].mem, n, u, now);
    var unread, r := Request(i, n, u, false), Request(i, n, MarkSnapshot(u, now), true);
    s2 := MarkGives(s1, AuthMark(k, now));
    AfterTwo(s, i, Effect(m, []), marked, s.requests[k := unread], s.requests[k := unread][k := r], k + 1, k + 1, [], []);
    OverwriteTwice(s.requests, k, unread, r);
    assert Effect(marked.mem, [] + marked.writes) == marked;
  }

  /** Deciding a request that nothing else has touched. */
  lemma DecideAtOnce(s: State, s1: State, i: nat, e: Effect, r: Request, now: Time, encoded: bool) returns (s2: State)
    requires i < |s.insts| && s.nextRequest !in s.requests && r.inst == i && r.marked
    requires s1 == After(s, i, e, s.requests[s.nextRequest := r], s.nextRequest + 1, [])
    ensures var decide := AuthDecide(s.nextRequest, now, encoded);
            Enabled(s1, decide) && s2 == Apply(s1, decide)
    ensures s2 == After(s, i, e, s.requests, s.nextRequest + 1,
                        [Answer(s.nextRequest, i, r.username, Decide(e.mem.sessions, r.username, r.user, now, encoded), now)])
  {
    var k := s.nextRequest;
    var given := [Answer(k, i, r.username, Decide(e.mem.sessions, r.username, r.user, now, encoded), now)];
    s2 := DecideGives(s1, AuthDecide(k, now, encoded));
    AfterTwo(s, i, e, Effect(e.mem, []), s.requests[k := r], s.requests[k := r] - {k}, k + 1, k + 1, [], given);
    assert s.requests[k := r] - {k} == s.requests;
    assert e.writes + [] == e.writes && [] + given == given;
  }

  lemma DisableAtOnce(s: State, s1: State, i: nat, e: Effect, rs: map<nat, Request>, n: string, id: string)
    returns (s2: State)
    requires i < |s.insts| && s1 == After(s, i, e, rs, s.nextRequest + 1, [])
    ensures Enabled(s1, DisableUser(i, n, id)) && s2 == Apply(s1, DisableUser(i, n, id))
    ensures s2 == After(s, i, Effect(DisableInMemory(e.mem, n), e.writes + [Disable(id)]), rs, s.nextRequest + 1, [])
  {
    s2 := DisableGives(s1, DisableUser(i, n, id));
    AfterTwo(s, i, e, Effect(DisableInMemory(e.mem, n), [Disable(id)]), rs, rs, s.nextRequest + 1, s.nextRequest + 1, [], []);
  }

  /** What the handler leaves behind is what one critical section would. */
  lemma RefusalMatches(m: Mem, n: string, now: Time)
    requires n in m.subscribers && m.subscribers[n].enabled
    ensures var u, e := m.subscribers[n], MarkCached(m, n, m.subscribers[n], now);
            && e.mem.sessions == m.sessions
            && AuthEffect(m, n, true, now)
                 == if Refused(MarkSnapshot(u, now), now)
                    then Effect(DisableInMemory(e.mem, n), e.writes + [Disable(u.id)]) else e
  {
  }

  lemma RunThree(s: State, s1: State, s2: State, a: Step, b: Step, c: Step)
    requires Enabled(s, a) && s1 == Apply(s, a) && Enabled(s1, b) && s2 == Apply(s1, b) && Enabled(s2, c)
    ensures IsRun(s, [a, b] + [c]) && Run(s, [a, b] + [c]) == Apply(s2, c)
  {
    RunTwo(s, a, b);
    RunOne(s2, c);
    RunConcat(s, [a, b], [c]);
  }

  lemma RunFour(s: State, s1: State, s2: State, s3: State, a: Step, b: Step, c: Step, d: Step)
    requires Enabled(s, a) && s1 == Apply(s, a) && Enabled(s1, b) && s2 == Apply(s1, b)
    requires Enabled(s2, c) && s3 == Apply(s2, c) && Enabled(s3, d)
    ensures IsRun(s, [a, b] + [c] + [d]) && Run(s, [a, b] + [c] + [d]) == Apply(s3, d)
  {
    RunThree(s, s1, s2, a, b, c);
    RunOne(s3, d);
    RunConcat(s, [a, b] + [c], [d]);
  }

  lemma PassedInPieces(s: State, i: nat, n: string, now: Time, encoded: bool, u: User) returns (s': State)
    requires i < |s.insts| && s.nextRequest !in s.requests && Admitted(s.insts[i].mem, n, true)
    requires u == s.insts[i].mem.subscribers[n]
    ensures var steps := [AuthRead(i, n, true, now), AuthMark(s.nextRequest, now)] + [AuthDecide(s.nextRequest, now, encoded)];
            IsRun(s, steps) && s' == Run(s, steps)
    ensures s' == After(s, i, MarkCached(s.insts[i].mem, n, u, now), s.requests, s.nextRequest + 1,
                        [Answer(s.nextRequest, i, n, Decide(s.insts[i].mem.sessions, n, MarkSnapshot(u, now), now, encoded), now)])
  {
    var e := MarkCached(s.insts[i].mem, n, u, now);
    var s1 := ReadAtOnce(s, i, n, now, u);
    var s2 := MarkAtOnce(s, s1, i, n, now, u);
    s' := DecideAtOnce(s, s2, i, e, Request(i, n, MarkSnapshot(u, now), true), now, encoded);
    RunThree(s, s1, s2, AuthRead(i, n, true, now), AuthMark(s.nextRequest, now), AuthDecide(s.nextRequest, now, encoded));
  }

  lemma RefusedInPieces(s: State, i: nat, n: string, now: Time, encoded: bool, u: User) returns (s': State)
    requires i < |s.insts| && s.nextRequest !in s.requests && Admitted(s.insts[i].mem, n, true)
    requires u == s.insts[i].mem.subscribers[n]
    ensures var steps := [AuthRead(i, n, true, now), AuthMark(s.nextRequest, now)] + [DisableUser(i, n, u.id)]
                         + [AuthDecide(s.nextRequest, now, encoded)];
            IsRun(s, steps) && s' == Run(s, steps)
    ensures var e := MarkCached(s.insts[i].mem, n, u, now);
            s' == After(s, i, Effect(DisableInMemory(e.mem, n), e.writes + [Disable(u.id)]), s.requests, s.nextRequest + 1,
                        [Answer(s.nextRequest, i, n, Decide(s.insts[i].mem.sessions, n, MarkSnapshot(u, now), now, encoded), now)])
  {
    var e, r := MarkCached(s.insts[i].mem, n, u, now), Request(i, n, MarkSnapshot(u, now), true);
    var off := Effect(DisableInMemory(e.mem, n), e.writes + [Disable(u.id)]);
    var s1 := ReadAtOnce(s, i, n, now, u);
    var s2 := MarkAtOnce(s, s1, i, n, now, u);
    var s3 := DisableAtOnce(s, s2, i, e, s.requests[s.nextRequest := r], n, u.id);
    s' := DecideAtOnce(s, s3, i, off, r, now, encoded);
    RunFour(s, s1, s2, s3, AuthRead(i, n, true, now), AuthMark(s.nextRequest, now), DisableUser(i, n, u.id),
            AuthDecide(s.nextRequest, now, encoded));
  }

  /** A request handled without interruption leads to exactly the state that its
      pieces lead to, one right after the other at the same time: reading the user, recording
      the first login, disabling a user who is refused, and deciding. */
  lemma AuthenticateIsItsPieces(s: State, auth: Step)
    requires auth.Authenticate? && Enabled(s, auth) && s.nextRequest !in s.requests
    ensures IsRun(s, Pieces(s, auth)) && Run(s, Pieces(s, auth)) == Apply(s, auth)
  {
    var whole := AuthGives(s, auth);
    if Admitted(s.insts[auth.inst].mem, auth.username, auth.passwordOk) {
      var m, n := s.insts[auth.inst].mem, auth.username;
      RefusalMatches(m, n, auth.now);
      if Refused(MarkSnapshot(m.subscribers[n], auth.now), auth.now) {
        var s' := RefusedInPieces(s, auth.inst, n, auth.now, auth.encoded, m.subscribers[n]);
      } else {
        var s' := PassedInPieces(s, auth.inst, n, auth.now, auth.encoded, m.subscribers[n]);
      }
    } else {
      var s' := ReadGives(s, AuthRead(auth.inst, auth.username, auth.passwordOk, auth.now));
      RunOne(s, AuthRead(auth.inst, auth.username, auth.passwordOk, auth.now));
    }
  }

  predicate NoneAtomic(steps: seq<Step>) { forall k :: 0 <= k < |steps| ==> !steps[k].Authenticate? }

  lemma PiecesAreNotAtomic(s: State, auth: Step)
    requires auth.Authenticate? && auth.inst < |s.insts|
    ensures NoneAtomic(Pieces(s, auth))
  {
  }

  /** The steps that do the same as this one, with requests in pieces. */
  function Apart(s: State, step: Step): seq<Step>
    requires step.Authenticate? ==> step.inst < |s.insts|
  {
    if step.Authenticate? then Pieces(s, step) else [step]
  }

  lemma ApartIsTheSame(s: State, step: Step)
    requires Enabled(s, step) && s.nextRequest !in s.requests
    ensures IsRun(s, Apart(s, step)) && Run(s, Apart(s, step)) == Apply(s, step) && NoneAtomic(Apart(s, step))
  {
    if step.Authenticate? {
      AuthenticateIsItsPieces(s, step);
      PiecesAreNotAtomic(s, step);
    } else {
      RunOne(s, step);
    }
  }

  lemma {:induction false} RunInPieces(s: State, steps: seq<Step>) returns (pieces: seq<Step>)
    requires IsRun(s, steps) && Numbered(s) && (forall a :: a in s.answers ==> a.request < s.nextRequest)
    ensures IsRun(s, pieces) && Run(s, pieces) == Run(s, steps) && NoneAtomic(pieces)
    decreases |steps|
  {
    pieces := [];
    if steps != [] {
      var s1 := Apply(s, steps[0]);
      NumberedStep(s, steps[0]);
      ApartIsTheSame(s, steps[0]);
      var rest := RunInPieces(s1, steps[1..]);
      pieces := Apart(s, steps[0]) + rest;
      RunConcat(s, Apart(s, steps[0]), rest);
    }
  }

  /** Main result. Whatever a run with uninterrupted requests leads to, a run in which all
      requests are handled in pieces leads to as well. */
  lemma EveryRunIsInPieces(s0: State, steps: seq<Step>) returns (pieces: seq<Step>)
    requires Init(s0) && IsRun(s0, steps)
    ensures IsRun(s0, pieces) && Run(s0, pieces) == Run(s0, steps) && NoneAtomic(pieces)
  {
    pieces := RunInPieces(s0, steps);
  }
}
