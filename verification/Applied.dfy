/** What single steps of the cluster lead to, for following a run step by step. */
module Applied {
  import opened Domain
  import opened Sums
  import opened ServerSpec
  import opened Database
  import opened Cluster

  /** The process's memory is replaced, and nothing else in its place. */
  function WithMem(s: State, i: nat, m: Mem): seq<Instance>
    requires i < |s.insts|
  {
    s.insts[i := s.insts[i].(mem := m)]
  }

  lemma StartApplied(s: State, step: Step) returns (s': State)
    requires step.StartSession? && Enabled(s, step)
    ensures var session := NewSession(step.id, step.sessionId, step.username, step.nasIp, step.now);
            && s' == Apply(s, step) && s'.db == s.db && s'.charges == s.charges && s'.answers == s.answers
            && s'.insts == WithMem(s, step.inst, AcctStart(s.insts[step.inst].mem, session).mem)
            && s'.pending == s.pending + [Upsert(session)]
  {
    s' := Apply(s, step);
  }

  lemma AccountApplied(s: State, step: Step) returns (s': State)
    requires step.Account? && Enabled(s, step)
    ensures var e := AcctUpdate(s.insts[step.inst].mem, step.id, step.report, step.stop, step.now);
            && s' == Apply(s, step) && s'.db == s.db && s'.charges == s.charges + NewCharges(s, step)
            && s'.insts == WithMem(s, step.inst, e.mem) && s'.pending == s.pending + e.writes && s'.requests == s.requests
  {
    s' := Apply(s, step);
  }

  lemma FlushApplied(s: State, step: Step) returns (s': State)
    requires step.Flush? && Enabled(s, step)
    ensures s' == Apply(s, step) && s'.insts == s.insts && s'.charges == s.charges
    ensures s'.db == Execute(s.db, s.pending[step.k], step.now) && s'.pending == RemoveAt(s.pending, step.k)
  {
    s' := Apply(s, step);
  }

  lemma ListsRead(s: State, step: Step) returns (s': State)
    requires step.ReadLists? && Enabled(s, step)
    ensures s' == Apply(s, step) && s'.db == s.db && s'.charges == s.charges
    ensures s'.insts == s.insts[step.inst := s.insts[step.inst].(listings := s.insts[step.inst].listings + [step.listing])]
  {
    s' := Apply(s, step);
  }

  lemma ListsMerged(s: State, step: Step) returns (s': State)
    requires step.MergeLists? && Enabled(s, step)
    ensures s' == Apply(s, step) && s'.db == s.db && s'.charges == s.charges
    ensures |s'.insts| == |s.insts| && forall j :: 0 <= j < |s.insts| && j != step.inst ==> s'.insts[j] == s.insts[j]
    ensures s'.insts[step.inst].mem == Refresh(s.insts[step.inst].mem, s.insts[step.inst].listings[step.k])
  {
    s' := Apply(s, step);
  }

  lemma SessionsRead(s: State, step: Step) returns (s': State)
    requires step.ReadSessions? && Enabled(s, step)
    ensures s' == Apply(s, step) && s'.db == s.db && s'.charges == s.charges && s'.pending == s.pending
    ensures s'.insts == s.insts[step.inst := s.insts[step.inst].(sessionRows := s.insts[step.inst].sessionRows + [step.rows])]
  {
    s' := Apply(s, step);
  }

  lemma SessionsMerged(s: State, step: Step) returns (s': State)
    requires step.MergeSessions? && Enabled(s, step)
    ensures s' == Apply(s, step) && s'.db == s.db && s'.charges == s.charges && s'.pending == s.pending
    ensures |s'.insts| == |s.insts| && forall j :: 0 <= j < |s.insts| && j != step.inst ==> s'.insts[j] == s.insts[j]
    ensures var m := s.insts[step.inst].mem;
            s'.insts[step.inst].mem == m.(sessions := Reconciled(m.sessions, s.insts[step.inst].sessionRows[step.k]))
  {
    s' := Apply(s, step);
  }

  lemma AnswerApplied(s: State, step: Step) returns (s': State)
    requires step.PodAnswered? && Enabled(s, step)
    ensures s' == Apply(s, step) && |s'.insts| == |s.insts|
    ensures s'.insts[step.inst].mem.sessions
         == Answered(s.insts[step.inst].mem.sessions, step.username, step.nas, step.answer, step.now)
  {
    s' := Apply(s, step);
  }

  lemma AuthApplied(s: State, step: Step) returns (s': State)
    requires step.Authenticate? && Enabled(s, step)
    ensures var m := s.insts[step.inst].mem;
            && s' == Apply(s, step) && s'.charges == s.charges
            && s'.insts == WithMem(s, step.inst, AuthEffect(m, step.username, step.passwordOk, step.now).mem)
            && s'.answers == s.answers + [Answer(s.nextRequest, step.inst, step.username,
                                                 AuthReply(m, step.username, step.passwordOk, step.now, step.encoded), step.now)]
  {
    s' := Apply(s, step);
  }

  lemma ReadApplied(s: State, step: Step) returns (s': State)
    requires step.AuthRead? && Enabled(s, step) && Admitted(s.insts[step.inst].mem, step.username, step.passwordOk)
    ensures s' == Apply(s, step) && s'.insts == s.insts && s'.nextRequest == s.nextRequest + 1 && s'.answers == s.answers
    ensures s'.charges == s.charges
    ensures s'.requests == s.requests[s.nextRequest :=
              Request(step.inst, step.username, s.insts[step.inst].mem.subscribers[step.username], false)]
  {
    s' := Apply(s, step);
  }

  lemma MarkApplied(s: State, step: Step) returns (s': State)
    requires step.AuthMark? && Enabled(s, step)
    ensures var r := s.requests[step.request];
            && s' == Apply(s, step) && s'.answers == s.answers && s'.charges == s.charges
            && s'.insts == WithMem(s, r.inst, MarkCached(s.insts[r.inst].mem, r.username, r.user, step.now).mem)
            && s'.requests == s.requests[step.request := r.(user := MarkSnapshot(r.user, step.now), marked := true)]
  {
    s' := Apply(s, step);
  }

  lemma DecideApplied(s: State, step: Step) returns (s': State)
    requires step.AuthDecide? && Enabled(s, step)
    ensures var r := s.requests[step.request];
            var reply := Decide(s.insts[r.inst].mem.sessions, r.username, r.user, step.now, step.encoded);
            && s' == Apply(s, step) && s'.insts == s.insts && s'.requests == s.requests - {step.request}
            && s'.charges == s.charges
            && s'.answers == s.answers + [Answer(step.request, r.inst, r.username, reply, step.now)]
  {
    s' := Apply(s, step);
  }
}
