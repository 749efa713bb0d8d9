/** Who is let in, and what a request leaves behind (internal/radius/auth.go). */
module AuthLaws {
  import opened Domain
  import opened ServerSpec
  import opened Cluster
  import opened Metering

  // ----- one request -----

  /** The voucher's expiry has passed, or one of its limits is reached. */
  predicate RunOut(u: User, now: Time) {
    || (u.expires.Some? && u.expires.value < now)
    || (u.plan.limitType == UsageLimit && 0 < u.plan.limitSeconds <= u.usage.seconds)
    || 0 < u.plan.dataCap <= u.usage.octets
  }

  /** Exactly who is accepted: a cached, enabled user with the right password, whose voucher
      has not run out and whose active sessions leave room, when the reply can be signed. */
  lemma AcceptedIff(m: Mem, n: string, passwordOk: bool, now: Time, encoded: bool)
    ensures AuthReply(m, n, passwordOk, now, encoded).Accept? <==>
              && passwordOk && encoded && n in m.subscribers && m.subscribers[n].enabled
              && (m.subscribers[n].plan.isVoucher ==> !RunOut(m.subscribers[n], now))
              && (m.subscribers[n].plan.simultaneousUse > 0 ==>
                    |set id | id in m.sessions && m.sessions[id].username == n && m.sessions[id].status == Active|
                    < m.subscribers[n].plan.simultaneousUse)
  {
    if n in m.subscribers {
      assert ActiveOf(m.sessions, n)
          == set id | id in m.sessions && m.sessions[id].username == n && m.sessions[id].status == Active;
    }
  }

  /** A request without the right password changes nothing and is rejected. */
  lemma WrongPasswordDoesNothing(m: Mem, n: string, now: Time, encoded: bool)
    ensures AuthEffect(m, n, false, now) == Effect(m, []) && AuthReply(m, n, false, now, encoded) == Reject
  {
  }

  /** All that a request changes: the first login of a voucher, with the expiry of a calendar
      voucher, and the enabling of one that has run out, in memory and by the statements. */
  lemma RequestChanges(m: Mem, n: string, passwordOk: bool, now: Time)
    ensures var e := AuthEffect(m, n, passwordOk, now);
            && e.mem.sessions == m.sessions && e.mem.nases == m.nases && e.mem.subscribers.Keys == m.subscribers.Keys
            && (forall k :: k in m.subscribers && k != n ==> e.mem.subscribers[k] == m.subscribers[k])
            && (n !in m.subscribers || !m.subscribers[n].enabled || !passwordOk || !m.subscribers[n].plan.isVoucher ==>
                  e == Effect(m, []))
            && (n in m.subscribers && m.subscribers[n].enabled && passwordOk && m.subscribers[n].plan.isVoucher ==>
                  var was, u := m.subscribers[n], e.mem.subscribers[n];
                  var first, expiry := was.firstLogin.None?, now + was.plan.limitSeconds * SECOND;
                  && u == was.(firstLogin := u.firstLogin, expires := u.expires, enabled := u.enabled)
                  && u.firstLogin == (if first then Some(now) else was.firstLogin)
                  && u.expires == (if first && was.plan.limitType == CalendarLimit then Some(expiry) else was.expires)
                  && (u.enabled <==> !RunOut(was, now))
                  && e.writes == (if first then [FirstLogin(was.id, was.plan.limitType, was.plan.limitSeconds)] else [])
                                 + (if RunOut(was, now) then [Disable(was.id)] else []))
  {
  }

  /** The configured session timeout comes first, the user's own before the profile's, and is
      missing when neither is set. */
  lemma ConfiguredTimeoutFirst(u: User, now: Time)
    ensures u.plan.sessionTimeout > 0 ==>
              Timeouts(u, now) != [] && Timeouts(u, now)[0] == u.plan.sessionTimeout % 0x1_0000_0000
    ensures u.plan.sessionTimeout <= 0 && u.profile.Some? && u.profile.value.sessionTimeout > 0 ==>
              Timeouts(u, now) != [] && Timeouts(u, now)[0] == u.profile.value.sessionTimeout % 0x1_0000_0000
    ensures u.plan.sessionTimeout <= 0 && (u.profile.None? || u.profile.value.sessionTimeout <= 0) && !u.plan.isVoucher ==>
              Timeouts(u, now) == []
  {
  }

  // ----- over runs: nobody is accepted without the password -----

  /** The step brings request `k` of the user to process `i`, with the right password. */
  predicate AsksRightly(s: State, step: Step, k: nat, i: nat, n: string) {
    && (step.Authenticate? || step.AuthRead?) && s.nextRequest == k
    && step.inst == i && step.username == n && step.passwordOk
  }

  /** Some step of the run does. */
  ghost predicate AskedRightly(s: State, steps: seq<Step>, k: nat, i: nat, n: string)
    requires IsRun(s, steps)
    decreases |steps|
  {
    steps != [] && (AsksRightly(s, steps[0], k, i, n) || AskedRightly(Apply(s, steps[0]), steps[1..], k, i, n))
  }

  /** Request `k` of the user is open at process `i`. */
  predicate IsOpen(s: State, k: nat, i: nat, n: string) {
    k in s.requests && s.requests[k].inst == i && s.requests[k].username == n
  }

  lemma OpenedRightly(s: State, step: Step, k: nat, i: nat, n: string)
    requires Enabled(s, step) && IsOpen(Apply(s, step), k, i, n)
    ensures IsOpen(s, k, i, n) || AsksRightly(s, step, k, i, n)
  {
  }

  lemma AcceptedRightly(s: State, step: Step, j: nat)
    requires Enabled(s, step) && |s.answers| <= j < |Apply(s, step).answers| && Apply(s, step).answers[j].reply.Accept?
    ensures var a := Apply(s, step).answers[j];
            IsOpen(s, a.request, a.inst, a.username) || AsksRightly(s, step, a.request, a.inst, a.username)
  {
  }

  lemma {:induction false} AcceptsAsked(s: State, steps: seq<Step>, j: nat)
    requires IsRun(s, steps) && |s.answers| <= j < |Run(s, steps).answers| && Run(s, steps).answers[j].reply.Accept?
    ensures var a := Run(s, steps).answers[j];
            IsOpen(s, a.request, a.inst, a.username) || AskedRightly(s, steps, a.request, a.inst, a.username)
    decreases |steps|
  {
    if steps != [] {
      var s1, s' := Apply(s, steps[0]), Run(s, steps);
      if j < |s1.answers| {
        AnswersOnlyGrow(s1, steps[1..]);
        assert s'.answers[j] == s'.answers[..|s1.answers|][j] == s1.answers[j];
        AcceptedRightly(s, steps[0], j);
      } else {
        AcceptsAsked(s1, steps[1..], j);
        var a := s'.answers[j];
        if IsOpen(s1, a.request, a.inst, a.username) {
          OpenedRightly(s, steps[0], a.request, a.inst, a.username);
        }
      }
    }
  }

  /** Main result. In every run, every accept answers a request of that user that reached the
      same process with the right password, however requests interleave. */
  lemma EveryAcceptHadThePassword(s0: State, steps: seq<Step>, s: State, j: nat)
    requires Init(s0) && IsRun(s0, steps) && s == Run(s0, steps) && j < |s.answers| && s.answers[j].reply.Accept?
    ensures AskedRightly(s0, steps, s.answers[j].request, s.answers[j].inst, s.answers[j].username)
  {
    AcceptsAsked(s0, steps, j);
  }
}
