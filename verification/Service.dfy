/** The RADIUS service object: its mutable maps and the handlers that rewrite them
    (internal/radius/service.go, accounting.go, auth.go, coa.go). */
module Server {
  import opened Domain
  import opened Counters
  import opened Hosts
  import opened ServerSpec

  /** A goroutine started at a reached limit: it disconnects the user, and after that runs the
      statement that disables the row. */
  datatype LimitJob = LimitJob(username: string, userId: string)

  /** The packet types of accounting; other types are answered and change nothing. */
  datatype AcctStatus = Start | Stop | InterimUpdate | OtherStatus

  class Service {
    var nases: map<string, Nas>
    var subscribers: map<string, User>
    var sessions: map<string, Session>

    /** Statements handed to goroutines, in the order the goroutines were started. */
    var spawned: seq<Write>
    /** Goroutines started at a reached limit. */
    var limitJobs: seq<LimitJob>

    var authRequests: nat
    var authAccepts: nat
    var authRejects: nat
    var acctRequests: nat

    ghost function State(): Mem
      reads this
    {
      Mem(subscribers, sessions, nases)
    }

    constructor ()
      ensures State() == Mem(map[], map[], map[])
      ensures spawned == [] && limitJobs == []
      ensures authRequests == authAccepts == authRejects == acctRequests == 0
    {
      nases, subscribers, sessions := map[], map[], map[];
      spawned, limitJobs := [], [];
      authRequests, authAccepts, authRejects, acctRequests := 0, 0, 0, 0;
    }

    // ----- accounting -----

    method HandleAcctStart(id: string, sessionId: string, username: string, remoteAddr: string, now: Time)
      modifies this`sessions, this`spawned
      ensures var e := AcctStart(old(State()), NewSession(id, sessionId, username, remoteAddr, now));
              State() == e.mem && spawned == old(spawned) + e.writes
      ensures id in sessions && Matches(sessions[id], sessionId, username) && sessions[id].nasIp == remoteAddr
    {
      var sess := Session(id, sessionId, username, remoteAddr, 0, 0, 0, Active, now, now, None);
      sessions := sessions[sess.id := sess];
      spawned := spawned + [Upsert(sess)];
    }

    /** Reads the packet's counters, combining octets with gigawords. */
    static method ReadCounters(r: Report) returns (inputOctets: int, outputOctets: int, sessionTime: int)
      ensures inputOctets == TotalIn(r) && outputOctets == TotalOut(r) && sessionTime == Reported(r).seconds
    {
      inputOctets, outputOctets, sessionTime := 0, 0, 0;
      if r.inOctets.Some? { inputOctets := r.inOctets.value; }
      if r.outOctets.Some? { outputOctets := r.outOctets.value; }
      if r.seconds.Some? { sessionTime := r.seconds.value; }
      if r.inGigawords.Some? {
        var total := (r.inGigawords.value * TWO_32 % TWO_64 + inputOctets) % TWO_64;
        if total > INT64_MAX { total := INT64_MAX; }
        inputOctets := total;
      }
      if r.outGigawords.Some? {
        var total := (r.outGigawords.value * TWO_32 % TWO_64 + outputOctets) % TWO_64;
        if total > INT64_MAX { total := INT64_MAX; }
        outputOctets := total;
      }
    }

    /** Deltas against the previous cumulative values of a record. */
    static method DeltasSince(sess: Session, inputOctets: int, outputOctets: int, sessionTime: int)
      returns (deltaSec: int, deltaOct: int)
      ensures Usage(deltaSec, deltaOct)
           == DeltaUsage(Usage(sessionTime, Wrap64(inputOctets + outputOctets)), Stored(sess))
    {
      deltaSec := Wrap64(sessionTime - sess.time);
      if deltaSec < 0 {
        deltaSec := sessionTime;
      }
      deltaOct := Wrap64(Wrap64(inputOctets + outputOctets) - Wrap64(sess.inOctets + sess.outOctets));
      if deltaOct < 0 {
        deltaOct := Wrap64(inputOctets + outputOctets);
      }
    }

    /** Accumulates voucher usage in memory and detects a limit breach. */
    method MeterVoucher(username: string, deltaSec: int, deltaOct: int) returns (userID: string, voucherHit: bool)
      modifies this`subscribers
      ensures IsMetered(old(State()), username) ==>
                var u := Meter(old(subscribers)[username], Usage(deltaSec, deltaOct));
                subscribers == old(subscribers)[username := u] && userID == u.id && voucherHit == UsedUp(u)
      ensures !IsMetered(old(State()), username) ==>
                subscribers == old(subscribers) && userID == "" && !voucherHit
    {
      userID, voucherHit := "", false;
      if username in subscribers && subscribers[username].plan.isVoucher {
        var u := subscribers[username];
        userID := u.id;
        u := u.(usage := Usage(Wrap64(u.usage.seconds + deltaSec), Wrap64(u.usage.octets + deltaOct)));
        subscribers := subscribers[username := u];
        if u.plan.limitType == UsageLimit && u.plan.limitSeconds > 0 && u.usage.seconds >= u.plan.limitSeconds {
          voucherHit := true;
        }
        if u.plan.dataCap > 0 && u.usage.octets >= u.plan.dataCap {
          voucherHit := true;
        }
      }
    }

    /** Updates one matching record, whichever the map iteration meets first. */
    method ApplyAcctUpdate(username: string, sessionId: string, r: Report, stop: bool, now: Time)
      returns (voucherHit: bool, ghost picked: Option<string>)
      modifies this`sessions, this`subscribers, this`spawned
      ensures picked.None? ==>
                && (forall id :: id in old(sessions) ==> !Matches(old(sessions)[id], sessionId, username))
                && State() == old(State()) && spawned == old(spawned) && !voucherHit
      ensures picked.Some? ==>
                && picked.value in old(sessions) && Matches(old(sessions)[picked.value], sessionId, username)
                && (var e := AcctUpdate(old(State()), picked.value, r, stop, now);
                    State() == e.mem && spawned == old(spawned) + e.writes)
                && voucherHit == AcctHit(old(State()), picked.value, r)
    {
      var inputOctets, outputOctets, sessionTime := ReadCounters(r);
      var deltaSec, deltaOct, userID := 0, 0, "";
      voucherHit, picked := false, None;
      var todo := sessions.Keys;
      while todo != {}
        invariant todo <= old(sessions).Keys
        invariant picked.None? && State() == old(State()) && spawned == old(spawned) && !voucherHit && userID == ""
        invariant forall id :: id in old(sessions) && id !in todo ==> !Matches(old(sessions)[id], sessionId, username)
      {
        var id :| id in todo;
        todo := todo - {id};
        var sess := sessions[id];
        if sess.sessionId != sessionId || sess.username != username {
          continue;
        }
        deltaSec, deltaOct := DeltasSince(sess, inputOctets, outputOctets, sessionTime);
        sess := sess.(lastUpdate := now, inOctets := inputOctets, outOctets := outputOctets, time := sessionTime);
        if stop {
          sess := sess.(status := Stopped, stopTime := Some(now));
        }
        sessions := sessions[id := sess];
        spawned := spawned + [Upsert(sess)];
        userID, voucherHit := MeterVoucher(username, deltaSec, deltaOct);
        picked := Some(id);
        break;
      }
      if userID != "" && (deltaSec > 0 || deltaOct > 0) {
        spawned := spawned + [AddUsage(userID, Usage(deltaSec, deltaOct))];
      }
    }

    /** A Stop or Interim-Update packet: the update and, at a limit, the disabling. */
    method HandleAcctUpdate(username: string, sessionId: string, r: Report, stop: bool, now: Time)
      returns (ghost picked: Option<string>)
      modifies this`sessions, this`subscribers, this`spawned, this`limitJobs
      ensures picked.None? ==>
                && (forall id :: id in old(sessions) ==> !Matches(old(sessions)[id], sessionId, username))
                && State() == old(State()) && spawned == old(spawned) && limitJobs == old(limitJobs)
      ensures picked.Some? ==>
                && picked.value in old(sessions) && Matches(old(sessions)[picked.value], sessionId, username)
                && (var e := AcctUpdate(old(State()), picked.value, r, stop, now);
                    if AcctHit(old(State()), picked.value, r) then
                      && State() == DisableInMemory(e.mem, username)
                      && spawned == old(spawned) + e.writes
                      && limitJobs == old(limitJobs) + [LimitJob(username, old(subscribers)[username].id)]
                    else State() == e.mem && spawned == old(spawned) + e.writes && limitJobs == old(limitJobs))
    {
      var hit;
      hit, picked := ApplyAcctUpdate(username, sessionId, r, stop, now);
      if hit {
        DisconnectAndDisableVoucher(username);
      }
    }

    method DisconnectAndDisableVoucher(username: string)
      modifies this`subscribers, this`limitJobs
      ensures State() == DisableInMemory(old(State()), username)
      ensures limitJobs == if username in old(subscribers)
                           then old(limitJobs) + [LimitJob(username, old(subscribers)[username].id)] else old(limitJobs)
    {
      if username !in subscribers {
        return;
      }
      var user := subscribers[username];
      if username in subscribers {
        var u := subscribers[username].(enabled := false);
        subscribers := subscribers[username := u];
      }
      limitJobs := limitJobs + [LimitJob(username, user.id)];
    }

    /** One accounting packet; a packet without a status type is not answered. */
    method HandleAccounting(status: Option<AcctStatus>, id: string, username: string, sessionId: string,
                            remoteAddr: string, r: Report, now: Time)
      returns (responded: bool, ghost picked: Option<string>)
      modifies this`sessions, this`subscribers, this`spawned, this`limitJobs, this`acctRequests
      ensures acctRequests == old(acctRequests) + 1 && (responded <==> status.Some?)
      ensures status == Some(Start) ==>
                var e := AcctStart(old(State()), NewSession(id, sessionId, username, remoteAddr, now));
                State() == e.mem && spawned == old(spawned) + e.writes && limitJobs == old(limitJobs)
      ensures status == Some(Stop) || status == Some(InterimUpdate) ==>
                if picked.None? then
                  && (forall k :: k in old(sessions) ==> !Matches(old(sessions)[k], sessionId, username))
                  && State() == old(State()) && spawned == old(spawned) && limitJobs == old(limitJobs)
                else
                  && picked.value in old(sessions) && Matches(old(sessions)[picked.value], sessionId, username)
                  && (var e := AcctUpdate(old(State()), picked.value, r, status.value.Stop?, now);
                      var hit := AcctHit(old(State()), picked.value, r);
                      && State() == (if hit then DisableInMemory(e.mem, username) else e.mem)
                      && spawned == old(spawned) + e.writes
                      && limitJobs == if hit then old(limitJobs) + [LimitJob(username, old(subscribers)[username].id)]
                                      else old(limitJobs))
      ensures status.None? || status.value.OtherStatus? ==>
                State() == old(State()) && spawned == old(spawned) && limitJobs == old(limitJobs)
    {
      acctRequests := acctRequests + 1;
      picked := None;
      if status.None? {
        return false, None;
      }
      match status.value {
        case Start => HandleAcctStart(id, sessionId, username, remoteAddr, now);
        case Stop => picked := HandleAcctUpdate(username, sessionId, r, true, now);
        case InterimUpdate => picked := HandleAcctUpdate(username, sessionId, r, false, now);
        case OtherStatus =>
      }
      responded := true;
    }

    // ----- refresh -----

    method RefreshFromDB(l: Listing)
      modifies this`subscribers, this`nases
      ensures State() == Refresh(old(State()), l)
    {
      var profileMap := IndexProfiles(l.profiles);
      var packageMap := IndexPackages(l.packages);
      var newSubscribers: map<string, User> := map[];
      for i := 0 to |l.users|
        invariant State() == old(State())
        invariant newSubscribers == RefreshSubscribers(subscribers, l.users[..i], profileMap, packageMap)
      {
        assert l.users[..i + 1][..i] == l.users[..i];
        var u := Preserve(l.users[i]);
        u := Attach(u, profileMap, packageMap);
        newSubscribers := newSubscribers[u.username := u];
      }
      assert l.users[..|l.users|] == l.users;
      var newNases := IndexNases(l.nases);
      subscribers, nases := newSubscribers, newNases;
    }

    static method Attach(row: User, profileMap: map<string, Profile>, packageMap: map<string, Package>) returns (u: User)
      ensures u == Join(row, profileMap, packageMap)
    {
      u := row;
      if u.plan.profileId.Some? && u.plan.profileId.value != "" && u.plan.profileId.value in profileMap {
        u := u.(profile := Some(profileMap[u.plan.profileId.value]));
      }
      if u.plan.packageId.Some? && u.plan.packageId.value != "" && u.plan.packageId.value in packageMap {
        u := u.(package := Some(packageMap[u.plan.packageId.value]));
      }
    }

    static method IndexProfiles(profiles: seq<Profile>) returns (profileMap: map<string, Profile>)
      ensures profileMap == EnabledProfiles(profiles)
    {
      profileMap := map[];
      for i := 0 to |profiles|
        invariant profileMap == EnabledProfiles(profiles[..i])
      {
        assert profiles[..i + 1][..i] == profiles[..i];
        if profiles[i].enabled {
          profileMap := profileMap[profiles[i].id := profiles[i]];
        }
      }
      assert profiles[..|profiles|] == profiles;
    }

    static method IndexPackages(packages: seq<Package>) returns (packageMap: map<string, Package>)
      ensures packageMap == PackagesById(packages)
    {
      packageMap := map[];
      for i := 0 to |packages|
        invariant packageMap == PackagesById(packages[..i])
      {
        assert packages[..i + 1][..i] == packages[..i];
        packageMap := packageMap[packages[i].id := packages[i]];
      }
      assert packages[..|packages|] == packages;
    }

    static method IndexNases(nases: seq<Nas>) returns (nasMap: map<string, Nas>)
      ensures nasMap == EnabledNases(nases)
    {
      nasMap := map[];
      for i := 0 to |nases|
        invariant nasMap == EnabledNases(nases[..i])
      {
        assert nases[..i + 1][..i] == nases[..i];
        if nases[i].enabled {
          nasMap := nasMap[nases[i].ip := nases[i]];
        }
      }
      assert nases[..|nases|] == nases;
    }

    /** Keeps what memory knows and the row does not. */
    method Preserve(row: User) returns (u: User)
      ensures u == MergeUser(Get(subscribers, row.username), row) && u.username == row.username
    {
      u := row;
      if row.username in subscribers {
        var existing := subscribers[row.username];
        if existing.usage.octets > u.usage.octets {
          u := u.(usage := u.usage.(octets := existing.usage.octets));
        }
        if existing.usage.seconds > u.usage.seconds {
          u := u.(usage := u.usage.(seconds := existing.usage.seconds));
        }
        if !existing.enabled {
          u := u.(enabled := false);
        }
        if existing.firstLogin.Some? {
          u := u.(firstLogin := existing.firstLogin);
        }
        if existing.expires.Some? {
          u := u.(expires := existing.expires);
        }
      }
    }

    // ----- stale sessions and reconciliation -----

    method CleanupStaleSessions(now: Time, staleTimeout: int) returns (cleaned: nat, kept: nat, ghost order: seq<string>)
      modifies this`sessions, this`spawned
      ensures var cutoff := now - staleTimeout * SECOND;
              && Enumerates(order, StaleIds(old(sessions), cutoff))
              && (var e := Cleanup(old(State()), cutoff, now, order);
                  State() == e.mem && spawned == old(spawned) + e.writes)
              && cleaned == |StaleIds(old(sessions), cutoff)|
              && kept == |old(sessions)| - cleaned
    {
      var cutoff := now - staleTimeout * SECOND;
      cleaned, kept, order := CleanBefore(cutoff, now);
      assert |order| == |multiset(order)|;
    }

    method CleanBefore(cutoff: Time, now: Time) returns (cleaned: nat, kept: nat, ghost order: seq<string>)
      modifies this`sessions, this`spawned
      ensures Enumerates(order, StaleIds(old(sessions), cutoff))
      ensures sessions == Cleaned(old(sessions), cutoff, now)
      ensures spawned == old(spawned) + Upserts(old(sessions), order, now)
      ensures cleaned == |order| && cleaned + kept == |old(sessions)|
    {
      cleaned, kept, order := 0, 0, [];
      var todo := sessions.Keys;
      ghost var before, writes := sessions, [];
      while todo != {}
        invariant todo <= before.Keys && before == old(sessions)
        invariant sessions == CleanedExcept(before, todo, cutoff, now)
        invariant Enumerates(order, StaleIds(before, cutoff) - todo)
        invariant cleaned == |order| && cleaned + kept + |todo| == |before|
        invariant writes == Upserts(before, order, now)
        invariant spawned == old(spawned) + writes
      {
        var id :| id in todo;
        CleanedNext(before, todo, cutoff, now, order, id);
        writes := Upserts(before, if IsStale(before[id], cutoff) then order + [id] else order, now);
        var wasStale := CleanIfStale(id, cutoff, now);
        todo := todo - {id};
        if wasStale {
          cleaned := cleaned + 1;
          order := order + [id];
        } else {
          kept := kept + 1;
        }
      }
      assert StaleIds(before, cutoff) - todo == StaleIds(before, cutoff);
      assert sessions == Cleaned(before, cutoff, now);
    }

    method CleanIfStale(id: string, cutoff: Time, now: Time) returns (wasStale: bool)
      requires id in sessions
      modifies this`sessions, this`spawned
      ensures wasStale == IsStale(old(sessions)[id], cutoff)
      ensures sessions == old(sessions)[id := CleanOne(old(sessions)[id], cutoff, now)]
      ensures spawned == old(spawned) + if wasStale then [Upsert(Expire(old(sessions)[id], now))] else []
    {
      wasStale := false;
      var sess := sessions[id];
      if sess.status == Active && sess.lastUpdate < cutoff {
        sess := sess.(status := Stale, stopTime := Some(now), lastUpdate := now);
        sessions := sessions[id := sess];
        wasStale := true;
        spawned := spawned + [Upsert(sess)];
      }
    }

    method ReconcileSessions(rows: seq<Session>) returns (merged: nat)
      modifies this`sessions
      ensures sessions == Reconciled(old(sessions), rows)
      ensures merged == |sessions| - |old(sessions)|
    {
      merged := 0;
      for i := 0 to |rows|
        invariant sessions == Reconciled(old(sessions), rows[..i])
        invariant merged == |sessions| - |old(sessions)|
      {
        assert rows[..i + 1][..i] == rows[..i];
        if rows[i].id !in sessions {
          sessions := sessions[rows[i].id := rows[i]];
          merged := merged + 1;
        }
      }
      assert rows[..|rows|] == rows;
    }

    /** The counts of the status report. */
    method Snapshot() returns (nasCount: nat, subscriberCount: nat, activeCount: nat)
      ensures nasCount == |nases| && subscriberCount == |subscribers| && activeCount == |ActiveIds(sessions)|
    {
      activeCount := 0;
      var todo := sessions.Keys;
      ghost var seen: set<string> := {};
      while todo != {}
        invariant todo <= sessions.Keys
        invariant forall k :: k in seen <==> k in sessions && k !in todo && sessions[k].status == Active
        invariant activeCount == |seen|
      {
        var id :| id in todo;
        todo := todo - {id};
        if sessions[id].status == Active {
          activeCount := activeCount + 1;
          seen := seen + {id};
        }
      }
      assert seen == ActiveIds(sessions);
      nasCount, subscriberCount := |nases|, |subscribers|;
    }

    // ----- disconnect -----

    method CollectNASForUser(username: string) returns (nasMap: map<string, string>)
      ensures Collects(State(), username, nasMap)
    {
      nasMap := map[];
      var todo := sessions.Keys;
      while todo != {}
        invariant todo <= sessions.Keys
        invariant CollectsFrom(State(), sessions.Keys - todo, username, nasMap)
      {
        var id :| id in todo;
        CollectsMore(State(), sessions.Keys - todo, username, nasMap, id);
        assert sessions.Keys - todo + {id} == sessions.Keys - (todo - {id});
        todo := todo - {id};
        var sess := sessions[id];
        if sess.username != username || sess.status != Active {
          continue;
        }
        var split := SplitHostPort(sess.nasIp);
        var host := if split.Some? then split.value else sess.nasIp;
        if host in nases {
          nasMap := nasMap[JoinHostPort(host, "3799") := nases[host].secret];
        }
      }
      assert sessions.Keys - todo == sessions.Keys;
    }

    method MarkSessions(username: string, nasAddr: Option<string>, now: Time)
      modifies this`sessions
      ensures sessions == MarkStopped(old(sessions), username, nasAddr, now)
    {
      var todo := sessions.Keys;
      ghost var target := MarkStopped(sessions, username, nasAddr, now);
      while todo != {}
        invariant todo <= old(sessions).Keys == sessions.Keys
        invariant forall id :: id in sessions ==> sessions[id] == if id in todo then old(sessions)[id] else target[id]
      {
        var id :| id in todo;
        todo := todo - {id};
        var sess := sessions[id];
        if sess.username == username && sess.status == Active && (nasAddr.None? || NasContains(sess.nasIp, nasAddr.value)) {
          sess := sess.(status := Stopped, stopTime := Some(now));
          sessions := sessions[id := sess];
        }
      }
      assert sessions == target;
    }

    /** Sends a Disconnect-Request to every NAS hosting the user; `answers` is what each replies. */
    method DisconnectUser(username: string, answers: string -> PodAnswer, now: Time)
      returns (disconnectCount: nat, ghost nasMap: map<string, string>)
      modifies this`sessions
      ensures Collects(old(State()), username, nasMap)
      ensures sessions == Disconnected(old(sessions), username, nasMap.Keys, answers, now)
      ensures disconnectCount == |set nas | nas in nasMap && answers(nas) == Ack|
    {
      disconnectCount := 0;
      var nasIPs := CollectNASForUser(username);
      nasMap := nasIPs;
      var todo := nasIPs.Keys;
      ghost var before, asked := sessions, nasIPs.Keys - todo;
      DisconnectedByNone(sessions, username, answers, now);
      while todo != {}
        invariant todo <= nasIPs.Keys && asked == nasIPs.Keys - todo
        invariant sessions == Disconnected(before, username, asked, answers, now)
        invariant disconnectCount == |Acks(asked, answers)|
      {
        var nasAddr :| nasAddr in todo;
        DisconnectedNext(before, username, asked, answers, now, nasAddr);
        AcksNext(asked, answers, nasAddr);
        var acked := HandleAnswer(username, nasAddr, answers(nasAddr), now);
        if acked {
          disconnectCount := disconnectCount + 1;
        }
        asked, todo := asked + {nasAddr}, todo - {nasAddr};
        SetsMove(nasIPs.Keys, todo, asked, nasAddr);
      }
      assert asked == nasMap.Keys;
      assert Acks(asked, answers) == set nas | nas in nasMap && answers(nas) == Ack;
    }

    method HandleAnswer(username: string, nasAddr: string, answer: PodAnswer, now: Time) returns (acked: bool)
      modifies this`sessions
      ensures sessions == Answered(old(sessions), username, nasAddr, answer, now)
      ensures acked == (answer == Ack)
    {
      acked := false;
      if answer == NoAnswer {
        MarkSessions(username, None, now);
      } else if answer == Ack {
        acked := true;
        MarkSessions(username, Some(nasAddr), now);
      }
    }

    // ----- authentication -----

    method HandleAuth(username: string, passwords: seq<string>, bcrypt: (string, string) -> bool, now: Time, encoded: bool)
      returns (reply: Reply)
      modifies this`subscribers, this`spawned, this`authRequests, this`authAccepts, this`authRejects
      ensures var ok := PasswordOk(old(State()), username, passwords, bcrypt);
              var e := AuthEffect(old(State()), username, ok, now);
              && State() == e.mem && spawned == old(spawned) + e.writes
              && reply == AuthReply(old(State()), username, ok, now, encoded)
      ensures reply.Accept? ==>
                && passwords != [] && passwords[0] != "" && encoded
                && username in old(subscribers) && old(subscribers)[username].enabled
                && old(subscribers)[username].plan.passwordHash != ""
                && bcrypt(old(subscribers)[username].plan.passwordHash, passwords[0])
      ensures authRequests == old(authRequests) + 1
      ensures authAccepts == old(authAccepts) + (if reply.Accept? then 1 else 0)
      ensures authRejects == old(authRejects) + (if reply.Reject? then 1 else 0)
    {
      authRequests := authRequests + 1;
      if passwords == [] {
        authRejects := authRejects + 1;
        return Reject;
      }
      var password := passwords[0];
      if username !in subscribers || !subscribers[username].enabled
         || !PasswordMatches(subscribers[username].plan.passwordHash, password, bcrypt)
      {
        authRejects := authRejects + 1;
        return Reject;
      }
      var user, refused := CheckVoucher(username, subscribers[username], now);
      if refused {
        authRejects := authRejects + 1;
        return Reject;
      }
      if user.plan.simultaneousUse > 0 {
        var count := CountActive(username);
        if count >= user.plan.simultaneousUse {
          authRejects := authRejects + 1;
          return Reject;
        }
      }
      var timeouts := GrantTimeouts(user, now);
      if !encoded {
        authRejects := authRejects + 1;
        return Reject;
      }
      authAccepts := authAccepts + 1;
      reply := Accept(timeouts);
    }

    /** The voucher checks: records a first login, and disables a voucher that has run out. */
    method CheckVoucher(username: string, snapshot: User, now: Time) returns (user: User, refused: bool)
      modifies this`subscribers, this`spawned
      ensures user == MarkSnapshot(snapshot, now) && refused == Refused(user, now)
      ensures var e := MarkCached(old(State()), username, snapshot, now);
              && State() == (if refused then DisableInMemory(e.mem, username) else e.mem)
              && spawned == old(spawned) + e.writes + if refused then [Disable(snapshot.id)] else []
    {
      user, refused := snapshot, false;
      if user.plan.isVoucher {
        if user.firstLogin.None? {
          spawned := spawned + [FirstLogin(user.id, user.plan.limitType, user.plan.limitSeconds)];
          user := user.(firstLogin := Some(now));
          RecordFirstLoginInMemory(username, user, now);
        }
        if user.expires.Some? && now > user.expires.value {
          refused := true;
        } else if user.plan.limitType == UsageLimit && user.plan.limitSeconds > 0 && user.usage.seconds >= user.plan.limitSeconds {
          refused := true;
        } else if user.plan.dataCap > 0 && user.usage.octets >= user.plan.dataCap {
          refused := true;
        }
        if refused {
          RejectAndDisableVoucher(username, user.id);
        }
      }
    }

    /** Stores the first login, and for calendar vouchers the expiry, in the cached user. */
    method RecordFirstLoginInMemory(username: string, user: User, now: Time)
      modifies this`subscribers
      ensures subscribers == if username !in old(subscribers) then old(subscribers) else
                var c := old(subscribers)[username];
                old(subscribers)[username := c.(firstLogin := Some(now),
                  expires := if user.plan.limitType == CalendarLimit
                             then Some(now + user.plan.limitSeconds * SECOND) else c.expires)]
    {
      if username in subscribers {
        var stored := subscribers[username].(firstLogin := Some(now));
        if user.plan.limitType == CalendarLimit {
          stored := stored.(expires := Some(now + user.plan.limitSeconds * SECOND));
        }
        subscribers := subscribers[username := stored];
      }
    }

    method RejectAndDisableVoucher(username: string, userID: string)
      modifies this`subscribers, this`spawned
      ensures State() == DisableInMemory(old(State()), username)
      ensures spawned == old(spawned) + [Disable(userID)]
    {
      if username in subscribers {
        var u := subscribers[username].(enabled := false);
        subscribers := subscribers[username := u];
      }
      spawned := spawned + [Disable(userID)];
    }

    method CountActive(username: string) returns (count: nat)
      ensures count == |ActiveOf(sessions, username)|
    {
      count := 0;
      var todo := sessions.Keys;
      ghost var seen: set<string> := {};
      while todo != {}
        invariant todo <= sessions.Keys
        invariant forall k :: k in seen <==> k in sessions && k !in todo && IsActiveOf(sessions[k], username)
        invariant count == |seen|
      {
        var id :| id in todo;
        todo := todo - {id};
        if sessions[id].username == username && sessions[id].status == Active {
          count := count + 1;
          seen := seen + {id};
        }
      }
      assert seen == ActiveOf(sessions, username);
    }

    /** The Session-Timeout attributes added to an Access-Accept. */
    static method GrantTimeouts(user: User, now: Time) returns (timeouts: seq<int>)
      ensures timeouts == Timeouts(user, now)
    {
      timeouts := [];
      var sessionTimeout := EffectiveTimeout(user);
      if sessionTimeout > 0 {
        timeouts := timeouts + [sessionTimeout % TWO_32];
      }
      if user.plan.isVoucher && user.plan.limitType == UsageLimit && user.plan.limitSeconds > 0 {
        var remaining := Wrap64(user.plan.limitSeconds - user.usage.seconds);
        if remaining > 0 {
          timeouts := timeouts + [remaining % TWO_32];
        }
      }
      if user.plan.isVoucher && user.plan.limitType == CalendarLimit && user.expires.Some? {
        var remaining := WholeSeconds(user.expires.value - now);
        if remaining > 0 {
          timeouts := timeouts + [remaining % TWO_32];
        }
      }
    }
  }

  /** An element moves from those to do to those done. */
  lemma SetsMove(all: set<string>, todo: set<string>, done: set<string>, x: string)
    requires x in all && x !in todo && done == all - (todo + {x}) + {x}
    ensures done == all - todo
  {
  }

  /** The records with all but those in `todo` cleaned. */
  function CleanedExcept(ss: map<string, Session>, todo: set<string>, cutoff: Time, now: Time): map<string, Session> {
    map id | id in ss :: if id in todo then ss[id] else CleanOne(ss[id], cutoff, now)
  }

  lemma CleanedNext(ss: map<string, Session>, todo: set<string>, cutoff: Time, now: Time, order: seq<string>, id: string)
    requires id in todo && todo <= ss.Keys && Enumerates(order, StaleIds(ss, cutoff) - todo)
    ensures var part := CleanedExcept(ss, todo, cutoff, now);
            && id in part && part[id] == ss[id]
            && CleanedExcept(ss, todo - {id}, cutoff, now) == part[id := CleanOne(ss[id], cutoff, now)]
    ensures Enumerates(if IsStale(ss[id], cutoff) then order + [id] else order, StaleIds(ss, cutoff) - (todo - {id}))
    ensures forall before: seq<Write> :: before + Upserts(ss, order + [id], now)
              == before + Upserts(ss, order, now) + [Upsert(Expire(ss[id], now))]
  {
  }
}
