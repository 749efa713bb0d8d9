/** What each critical section of the server does to its memory, as functions. The
    methods of `Service` are proved to compute these, and `Cluster` runs them. */
module ServerSpec {
  import opened Domain
  import opened Counters
  import opened Hosts

  /** The memory after a critical section and the statements it leaves to goroutines. */
  datatype Effect = Effect(mem: Mem, writes: seq<Write>)

  // ----- accounting (internal/radius/accounting.go) -----

  function NewSession(id: string, sessionId: string, username: string, nasIp: string, now: Time): Session {
    Session(id, sessionId, username, nasIp, 0, 0, 0, Active, now, now, None)
  }

  function AcctStart(m: Mem, s: Session): Effect {
    Effect(m.(sessions := m.sessions[s.id := s]), [Upsert(s)])
  }

  predicate Matches(s: Session, sessionId: string, username: string) {
    s.sessionId == sessionId && s.username == username
  }

  function UpdateRecord(s: Session, r: Report, stop: bool, now: Time): Session {
    s.(inOctets := TotalIn(r),
       outOctets := TotalOut(r),
       time := OrZero(r.seconds),
       lastUpdate := now,
       status := if stop then Stopped else s.status,
       stopTime := if stop then Some(now) else s.stopTime)
  }

  /** The subscriber's voucher usage counts. */
  predicate IsMetered(m: Mem, username: string) {
    username in m.subscribers && m.subscribers[username].plan.isVoucher
  }

  function Meter(u: User, d: Usage): User {
    u.(usage := Usage(Wrap64(u.usage.seconds + d.seconds), Wrap64(u.usage.octets + d.octets)))
  }

  predicate TimeUsedUp(u: User) {
    u.plan.limitType == UsageLimit && u.plan.limitSeconds > 0 && u.usage.seconds >= u.plan.limitSeconds
  }

  predicate DataUsedUp(u: User) {
    u.plan.dataCap > 0 && u.usage.octets >= u.plan.dataCap
  }

  predicate UsedUp(u: User) { TimeUsedUp(u) || DataUsedUp(u) }

  function AcctDelta(m: Mem, id: string, r: Report): Usage
    requires id in m.sessions
  {
    DeltaUsage(Reported(r), Stored(m.sessions[id]))
  }

  /** The update of the one record `id` the loop picked. */
  function AcctUpdate(m: Mem, id: string, r: Report, stop: bool, now: Time): Effect
    requires id in m.sessions
  {
    var s := UpdateRecord(m.sessions[id], r, stop, now);
    var sessions := m.sessions[id := s];
    if IsMetered(m, s.username) then
      var d := AcctDelta(m, id, r);
      var u := Meter(m.subscribers[s.username], d);
      Effect(m.(sessions := sessions, subscribers := m.subscribers[s.username := u]),
             [Upsert(s)] + if u.id != "" && (d.seconds > 0 || d.octets > 0) then [AddUsage(u.id, d)] else [])
    else Effect(m.(sessions := sessions), [Upsert(s)])
  }

  /** Whether that update reports a limit as reached. */
  predicate AcctHit(m: Mem, id: string, r: Report)
    requires id in m.sessions
  {
    var n := m.sessions[id].username;
    IsMetered(m, n) && UsedUp(Meter(m.subscribers[n], AcctDelta(m, id, r)))
  }

  /** Disabling a subscriber in memory. */
  function DisableInMemory(m: Mem, username: string): Mem {
    if username in m.subscribers
    then m.(subscribers := m.subscribers[username := m.subscribers[username].(enabled := false)])
    else m
  }

  // ----- refresh (internal/radius/service.go) -----

  function Max(a: int, b: int): int { if a > b then a else b }

  /** A database row, with what memory is ahead of it in. */
  function MergeUser(existing: Option<User>, row: User): User {
    match existing
    case None => row
    case Some(e) =>
      row.(usage := Usage(Max(e.usage.seconds, row.usage.seconds), Max(e.usage.octets, row.usage.octets)),
           enabled := e.enabled && row.enabled,
           firstLogin := if e.firstLogin.Some? then e.firstLogin else row.firstLogin,
           expires := if e.expires.Some? then e.expires else row.expires)
  }

  function EnabledProfiles(ps: seq<Profile>): map<string, Profile> {
    if ps == [] then map[]
    else
      var front, p := EnabledProfiles(ps[..|ps| - 1]), ps[|ps| - 1];
      if p.enabled then front[p.id := p] else front
  }

  function PackagesById(ps: seq<Package>): map<string, Package> {
    if ps == [] then map[] else PackagesById(ps[..|ps| - 1])[ps[|ps| - 1].id := ps[|ps| - 1]]
  }

  function EnabledNases(ns: seq<Nas>): map<string, Nas> {
    if ns == [] then map[]
    else
      var front, n := EnabledNases(ns[..|ns| - 1]), ns[|ns| - 1];
      if n.enabled then front[n.ip := n] else front
  }

  predicate Names<T>(id: Option<string>, m: map<string, T>) {
    id.Some? && id.value != "" && id.value in m
  }

  function Join(u: User, profiles: map<string, Profile>, packages: map<string, Package>): User {
    u.(profile := if Names(u.plan.profileId, profiles) then Some(profiles[u.plan.profileId.value]) else u.profile,
       package := if Names(u.plan.packageId, packages) then Some(packages[u.plan.packageId.value]) else u.package)
  }

  function RefreshSubscribers(
    old_: map<string, User>, rows: seq<User>,
    profiles: map<string, Profile>, packages: map<string, Package>): map<string, User>
  {
    if rows == [] then map[]
    else
      var row := rows[|rows| - 1];
      RefreshSubscribers(old_, rows[..|rows| - 1], profiles, packages)
        [row.username := Join(MergeUser(Get(old_, row.username), row), profiles, packages)]
  }

  /** The lists one refresh has read from the database. */
  datatype Listing = Listing(users: seq<User>, nases: seq<Nas>, profiles: seq<Profile>, packages: seq<Package>)

  function Refresh(m: Mem, l: Listing): Mem {
    Mem(RefreshSubscribers(m.subscribers, l.users, EnabledProfiles(l.profiles), PackagesById(l.packages)),
        m.sessions,
        EnabledNases(l.nases))
  }

  // ----- stale sessions and reconciliation (internal/radius/service.go) -----

  predicate IsStale(s: Session, cutoff: Time) { s.status == Active && s.lastUpdate < cutoff }

  function Expire(s: Session, now: Time): Session {
    s.(status := Stale, stopTime := Some(now), lastUpdate := now)
  }

  function StaleIds(ss: map<string, Session>, cutoff: Time): set<string> {
    set id | id in ss && IsStale(ss[id], cutoff)
  }

  function CleanOne(s: Session, cutoff: Time, now: Time): Session {
    if IsStale(s, cutoff) then Expire(s, now) else s
  }

  function Cleaned(ss: map<string, Session>, cutoff: Time, now: Time): map<string, Session> {
    map id | id in ss :: CleanOne(ss[id], cutoff, now)
  }

  /** The upserts of the expired records, in the order the loop met them. */
  function Upserts(ss: map<string, Session>, order: seq<string>, now: Time): seq<Write>
  {
    if order == [] then []
    else
      var front, id := Upserts(ss, order[..|order| - 1], now), order[|order| - 1];
      if id in ss then front + [Upsert(Expire(ss[id], now))] else front
  }

  /** `order` lists the members of `ids`, each once. */
  ghost predicate Enumerates(order: seq<string>, ids: set<string>) {
    multiset(order) == multiset(ids)
  }

  function Cleanup(m: Mem, cutoff: Time, now: Time, order: seq<string>): Effect
    requires Enumerates(order, StaleIds(m.sessions, cutoff))
  {
    Effect(m.(sessions := Cleaned(m.sessions, cutoff, now)), Upserts(m.sessions, order, now))
  }

  function Reconciled(ss: map<string, Session>, rows: seq<Session>): map<string, Session> {
    if rows == [] then ss
    else
      var front, row := Reconciled(ss, rows[..|rows| - 1]), rows[|rows| - 1];
      if row.id in front then front else front[row.id := row]
  }

  function ActiveIds(ss: map<string, Session>): set<string> {
    set id | id in ss && ss[id].status == Active
  }

  // ----- disconnect (internal/radius/coa.go) -----

  predicate IsActiveOf(s: Session, username: string) { s.username == username && s.status == Active }

  /** Which of a user's sessions an answer marks: all of them, or those on one NAS. */
  predicate Marks(s: Session, username: string, nas: Option<string>) {
    IsActiveOf(s, username) && (nas.None? || NasContains(s.nasIp, nas.value))
  }

  function MarkStopped(ss: map<string, Session>, username: string, nas: Option<string>, now: Time): map<string, Session> {
    map id | id in ss :: if Marks(ss[id], username, nas) then ss[id].(status := Stopped, stopTime := Some(now)) else ss[id]
  }

  /** Session `id` puts the address `a` with this secret on the list. */
  predicate Lists(m: Mem, id: string, username: string, a: string, secret: string)
    requires id in m.sessions
  {
    var host := HostOf(m.sessions[id].nasIp);
    IsActiveOf(m.sessions[id], username) && host in m.nases && a == PodAddress(host) && secret == m.nases[host].secret
  }

  /** The addresses, with secrets, of the NASes hosting the active sessions among `ids`. */
  ghost predicate CollectsFrom(m: Mem, ids: set<string>, username: string, nasMap: map<string, string>)
    requires ids <= m.sessions.Keys
  {
    && (forall id :: id in ids && IsActiveOf(m.sessions[id], username) && HostOf(m.sessions[id].nasIp) in m.nases
          ==> PodAddress(HostOf(m.sessions[id].nasIp)) in nasMap)
    && (forall a :: a in nasMap ==> exists id :: id in ids && Lists(m, id, username, a, nasMap[a]))
  }

  ghost predicate Collects(m: Mem, username: string, nasMap: map<string, string>) {
    CollectsFrom(m, m.sessions.Keys, username, nasMap)
  }

  lemma CollectsMore(m: Mem, ids: set<string>, username: string, nasMap: map<string, string>, id: string)
    requires ids + {id} <= m.sessions.Keys && CollectsFrom(m, ids, username, nasMap)
    ensures var host := HostOf(m.sessions[id].nasIp);
            var nasMap' := if IsActiveOf(m.sessions[id], username) && host in m.nases
                           then nasMap[PodAddress(host) := m.nases[host].secret] else nasMap;
            CollectsFrom(m, ids + {id}, username, nasMap')
  {
  }

  /** A Disconnect-Request goes exactly to port 3799 of the registered NASes that host an active
      session of the user, each with the secret of that NAS. */
  lemma CollectedExactly(m: Mem, username: string, nasMap: map<string, string>, a: string)
    requires Collects(m, username, nasMap)
    ensures a in nasMap <==>
              exists id :: && id in m.sessions && m.sessions[id].username == username && m.sessions[id].status == Active
                           && HostOf(m.sessions[id].nasIp) in m.nases && a == PodAddress(HostOf(m.sessions[id].nasIp))
    ensures a in nasMap ==>
              exists id :: && id in m.sessions && HostOf(m.sessions[id].nasIp) in m.nases
                           && a == PodAddress(HostOf(m.sessions[id].nasIp))
                           && nasMap[a] == m.nases[HostOf(m.sessions[id].nasIp)].secret
  {
    if a in nasMap {
      var id :| id in m.sessions && Lists(m, id, username, a, nasMap[a]);
    }
  }

  /** What a NAS answers to a Disconnect-Request. */
  datatype PodAnswer = Ack | Nak | NoAnswer

  /** The sessions an answer from `nas` marks. */
  predicate MarksOn(s: Session, username: string, nas: string, answer: PodAnswer) {
    match answer
    case Ack => Marks(s, username, Some(nas))
    case Nak => false
    case NoAnswer => Marks(s, username, None)
  }

  /** All marks of one disconnect that has heard from the NASes in `asked`. */
  ghost function Disconnected(ss: map<string, Session>, username: string, asked: set<string>,
                              answers: string -> PodAnswer, now: Time): map<string, Session>
  {
    map id | id in ss ::
      if exists nas :: nas in asked && MarksOn(ss[id], username, nas, answers(nas))
      then ss[id].(status := Stopped, stopTime := Some(now)) else ss[id]
  }

  /** The effect of one answer. */
  function Answered(ss: map<string, Session>, username: string, nas: string, answer: PodAnswer,
                    now: Time): map<string, Session> {
    match answer
    case Ack => MarkStopped(ss, username, Some(nas), now)
    case Nak => ss
    case NoAnswer => MarkStopped(ss, username, None, now)
  }

  function Acks(asked: set<string>, answers: string -> PodAnswer): set<string> {
    set nas | nas in asked && answers(nas) == Ack
  }

  lemma AcksNext(asked: set<string>, answers: string -> PodAnswer, nas: string)
    requires nas !in asked
    ensures |Acks(asked + {nas}, answers)| == |Acks(asked, answers)| + if answers(nas) == Ack then 1 else 0
  {
    assert Acks(asked + {nas}, answers) == Acks(asked, answers) + if answers(nas) == Ack then {nas} else {};
  }

  lemma DisconnectedByNone(ss: map<string, Session>, username: string, answers: string -> PodAnswer, now: Time)
    ensures Disconnected(ss, username, {}, answers, now) == ss
  {
  }

  lemma DisconnectedNext(ss: map<string, Session>, username: string, asked: set<string>,
                         answers: string -> PodAnswer, now: Time, nas: string)
    ensures var before, after := Disconnected(ss, username, asked, answers, now),
                                 Disconnected(ss, username, asked + {nas}, answers, now);
            after == Answered(before, username, nas, answers(nas), now)
  {
  }

  /** Completeness. When no NAS refuses, every active session of the user whose NAS is
      registered and whose address is not written in brackets ends up stopped. */
  lemma DisconnectComplete(m: Mem, username: string, nasMap: map<string, string>,
                           answers: string -> PodAnswer, now: Time, id: string)
    requires Collects(m, username, nasMap)
    requires forall nas :: nas in nasMap ==> answers(nas) != Nak
    requires id in m.sessions && IsActiveOf(m.sessions[id], username)
    requires var s := m.sessions[id];
             HostOf(s.nasIp) in m.nases && BracketFree(HostOf(s.nasIp)) && (s.nasIp == "" || s.nasIp[0] != '[')
    ensures var s := Disconnected(m.sessions, username, nasMap.Keys, answers, now)[id];
            s == m.sessions[id].(status := Stopped, stopTime := Some(now))
  {
    var nasIp := m.sessions[id].nasIp;
    var nas := PodAddress(HostOf(nasIp));
    AckReachesSessionIff(nasIp);
    assert nas in nasMap && MarksOn(m.sessions[id], username, nas, answers(nas));
  }

  /** Frame: no other user's session and no session that was not active is touched. */
  lemma DisconnectFrame(ss: map<string, Session>, username: string, asked: set<string>,
                        answers: string -> PodAnswer, now: Time, id: string)
    requires id in ss && !IsActiveOf(ss[id], username)
    ensures Disconnected(ss, username, asked, answers, now).Keys == ss.Keys
    ensures Disconnected(ss, username, asked, answers, now)[id] == ss[id]
  {
  }

  /** Every active session of the user is at an address as Go prints them. */
  ghost predicate AtRemoteAddrs(ss: map<string, Session>, username: string) {
    forall id :: id in ss && IsActiveOf(ss[id], username) ==> IsRemoteAddr(ss[id].nasIp)
  }

  /** The sessions that an ACK from the NAS at `host` marks, and those that are there. */
  function MarkedFor(ss: map<string, Session>, username: string, host: string): set<string> {
    set id | id in ss && Marks(ss[id], username, Some(PodAddress(host)))
  }

  function OnHost(ss: map<string, Session>, username: string, host: string): set<string> {
    set id | id in ss && IsActiveOf(ss[id], username) && HostOf(ss[id].nasIp) == host
  }

  /** Exactly when an ACK marks just the user's sessions on its own host: the host has no
      colon, and is no proper prefix of another host of the user without one. From a host
      with a colon an ACK marks nothing. */
  lemma AckIsExactIff(ss: map<string, Session>, username: string, host: string)
    requires AtRemoteAddrs(ss, username) && HostShaped(host) && host != ""
    ensures ':' in host ==> MarkedFor(ss, username, host) == {}
    ensures ':' !in host ==>
              (MarkedFor(ss, username, host) == OnHost(ss, username, host) <==>
               forall id :: id in ss && IsActiveOf(ss[id], username) && ':' !in HostOf(ss[id].nasIp) ==>
                 !(host < HostOf(ss[id].nasIp)))
  {
    forall id | id in ss && IsActiveOf(ss[id], username)
      ensures id in MarkedFor(ss, username, host) <==> HostMatches(host, HostOf(ss[id].nasIp))
    {
      MatchByHost(ss[id].nasIp, host);
    }
    if ':' !in host && MarkedFor(ss, username, host) == OnHost(ss, username, host) {
      forall id | id in ss && IsActiveOf(ss[id], username) && ':' !in HostOf(ss[id].nasIp)
        ensures !(host < HostOf(ss[id].nasIp))
      {
        assert id in MarkedFor(ss, username, host) <==> id in OnHost(ss, username, host);
      }
    }
  }

  /** Session `k` puts its NAS on the list, and this is what the NAS answers. */
  predicate Answers(m: Mem, username: string, k: string, answers: string -> PodAnswer, answer: PodAnswer) {
    && k in m.sessions && m.sessions[k].username == username && m.sessions[k].status == Active
    && HostOf(m.sessions[k].nasIp) in m.nases && answers(PodAddress(HostOf(m.sessions[k].nasIp))) == answer
  }

  lemma ListedAnswers(m: Mem, username: string, nasMap: map<string, string>, answers: string -> PodAnswer, nas: string)
    returns (k: string)
    requires Collects(m, username, nasMap) && nas in nasMap && AtRemoteAddrs(m.sessions, username)
    ensures Answers(m, username, k, answers, answers(nas)) && nas == PodAddress(HostOf(m.sessions[k].nasIp))
    ensures HostShaped(HostOf(m.sessions[k].nasIp))
  {
    k :| k in m.sessions && Lists(m, k, username, nas, nasMap[nas]);
    MatchByHost(m.sessions[k].nasIp, "");
  }

  lemma AskedByMap(m: Mem, username: string, nasMap: map<string, string>, answers: string -> PodAnswer,
                   answer: PodAnswer, k: string, id: string)
    requires Collects(m, username, nasMap) && AtRemoteAddrs(m.sessions, username) && Answers(m, username, k, answers, answer)
    requires id in m.sessions && IsActiveOf(m.sessions[id], username)
    requires answer == NoAnswer || (answer == Ack && HostMatches(HostOf(m.sessions[k].nasIp), HostOf(m.sessions[id].nasIp)))
    ensures var nas := PodAddress(HostOf(m.sessions[k].nasIp));
            nas in nasMap && MarksOn(m.sessions[id], username, nas, answers(nas))
  {
    MatchByHost(m.sessions[k].nasIp, "");
    MatchByHost(m.sessions[id].nasIp, HostOf(m.sessions[k].nasIp));
  }

  lemma MarkedWasAnswered(m: Mem, username: string, nasMap: map<string, string>, answers: string -> PodAnswer,
                          nas: string, id: string) returns (k: string)
    requires Collects(m, username, nasMap) && AtRemoteAddrs(m.sessions, username) && nas in nasMap
    requires id in m.sessions && MarksOn(m.sessions[id], username, nas, answers(nas))
    ensures Answers(m, username, k, answers, answers(nas)) && answers(nas) != Nak
    ensures answers(nas) == Ack ==> HostMatches(HostOf(m.sessions[k].nasIp), HostOf(m.sessions[id].nasIp))
  {
    k := ListedAnswers(m, username, nasMap, answers, nas);
    MatchByHost(m.sessions[id].nasIp, HostOf(m.sessions[k].nasIp));
  }

  /** Some NAS of the user's active sessions did not answer. */
  ghost predicate OneIsSilent(m: Mem, username: string, answers: string -> PodAnswer) {
    exists k :: Answers(m, username, k, answers, NoAnswer)
  }

  /** One acknowledged whose host is that of the session or a beginning of it, without colons. */
  ghost predicate OneAcknowledges(m: Mem, username: string, answers: string -> PodAnswer, id: string)
    requires id in m.sessions
  {
    exists k :: Answers(m, username, k, answers, Ack) && HostMatches(HostOf(m.sessions[k].nasIp), HostOf(m.sessions[id].nasIp))
  }

  lemma MarkedIff(m: Mem, username: string, nasMap: map<string, string>, answers: string -> PodAnswer, id: string)
    requires Collects(m, username, nasMap) && AtRemoteAddrs(m.sessions, username)
    requires id in m.sessions && IsActiveOf(m.sessions[id], username)
    ensures (exists nas :: nas in nasMap && MarksOn(m.sessions[id], username, nas, answers(nas)))
       <==> OneIsSilent(m, username, answers) || OneAcknowledges(m, username, answers, id)
  {
    if nas :| nas in nasMap && MarksOn(m.sessions[id], username, nas, answers(nas)) {
      var k := MarkedWasAnswered(m, username, nasMap, answers, nas, id);
    }
    if k :| Answers(m, username, k, answers, NoAnswer) {
      AskedByMap(m, username, nasMap, answers, NoAnswer, k, id);
    }
    if k :| Answers(m, username, k, answers, Ack) && HostMatches(HostOf(m.sessions[k].nasIp), HostOf(m.sessions[id].nasIp)) {
      AskedByMap(m, username, nasMap, answers, Ack, k, id);
    }
  }

  /** Whatever the NASes answer: an active session of the user ends exactly when some asked
      NAS did not answer, or one acknowledged whose host matches the session's. A refusal ends
      nothing. A session that ends is stopped now, and otherwise no record changes. */
  lemma DisconnectEndsIff(m: Mem, username: string, nasMap: map<string, string>, answers: string -> PodAnswer,
                          now: Time, id: string)
    requires Collects(m, username, nasMap) && AtRemoteAddrs(m.sessions, username)
    requires id in m.sessions && m.sessions[id].username == username && m.sessions[id].status == Active
    ensures Disconnected(m.sessions, username, nasMap.Keys, answers, now)[id]
         == if OneIsSilent(m, username, answers) || OneAcknowledges(m, username, answers, id)
            then m.sessions[id].(status := Stopped, stopTime := Some(now)) else m.sessions[id]
  {
    MarkedIff(m, username, nasMap, answers, id);
  }

  /** When every asked NAS refuses, nothing happens, and nothing is counted. */
  lemma RefusedDisconnectDoesNothing(ss: map<string, Session>, username: string, asked: set<string>,
                                     answers: string -> PodAnswer, now: Time)
    requires forall nas :: nas in asked ==> answers(nas) == Nak
    ensures Disconnected(ss, username, asked, answers, now) == ss && |Acks(asked, answers)| == 0
  {
  }

  lemma AllAckMarks(ss: map<string, Session>, username: string, asked: set<string>, now: Time, id: string)
    requires id in ss && IsActiveOf(ss[id], username)
    ensures Disconnected(ss, username, asked, _ => Ack, now)[id].status != Active
       <==> exists nas :: nas in asked && NasContains(ss[id].nasIp, nas)
  {
    var answers: string -> PodAnswer := _ => Ack;
    forall nas ensures MarksOn(ss[id], username, nas, answers(nas)) <==> NasContains(ss[id].nasIp, nas) {}
  }

  /** Session `k` brings a NAS on the list whose ACK reaches session `id`. */
  predicate Reaches(m: Mem, username: string, k: string, id: string)
    requires id in m.sessions
  {
    && k in m.sessions && IsActiveOf(m.sessions[k], username) && HostOf(m.sessions[k].nasIp) in m.nases
    && HostMatches(HostOf(m.sessions[k].nasIp), HostOf(m.sessions[id].nasIp))
  }

  /** When every contacted NAS acknowledges: exactly the sessions end that share their host,
      or a beginning of it, with a registered NAS of an active session, without colons. */
  lemma AllAckStopsIff(m: Mem, username: string, nasMap: map<string, string>, now: Time, id: string)
    requires Collects(m, username, nasMap) && AtRemoteAddrs(m.sessions, username)
    requires id in m.sessions && IsActiveOf(m.sessions[id], username)
    ensures Disconnected(m.sessions, username, nasMap.Keys, _ => Ack, now)[id].status != Active
       <==> exists k :: Reaches(m, username, k, id)
  {
    var a := m.sessions[id].nasIp;
    AllAckMarks(m.sessions, username, nasMap.Keys, now, id);
    if nas :| nas in nasMap && NasContains(a, nas) {
      var k :| k in m.sessions && Lists(m, k, username, nas, nasMap[nas]);
      MatchByHost(m.sessions[k].nasIp, "");
      MatchByHost(a, HostOf(m.sessions[k].nasIp));
      assert Reaches(m, username, k, id);
    }
    if k :| Reaches(m, username, k, id) {
      MatchByHost(m.sessions[k].nasIp, "");
      MatchByHost(a, HostOf(m.sessions[k].nasIp));
      assert PodAddress(HostOf(m.sessions[k].nasIp)) in nasMap;
    }
  }

  // ----- authentication (internal/radius/auth.go) -----

  /** `bcrypt` says which password a hash belongs to; nothing matches an empty one. */
  predicate PasswordMatches(hash: string, supplied: string, bcrypt: (string, string) -> bool) {
    supplied != "" && hash != "" && bcrypt(hash, supplied)
  }

  /** The first password of the packet is the cached user's. */
  predicate PasswordOk(m: Mem, username: string, passwords: seq<string>, bcrypt: (string, string) -> bool) {
    && passwords != [] && username in m.subscribers
    && PasswordMatches(m.subscribers[username].plan.passwordHash, passwords[0], bcrypt)
  }

  /** The user passes the checks made before any voucher logic. */
  predicate Admitted(m: Mem, username: string, passwordOk: bool) {
    username in m.subscribers && m.subscribers[username].enabled && passwordOk
  }

  predicate IsFirstLogin(u: User) { u.plan.isVoucher && u.firstLogin.None? }

  /** The handler's own copy of the user, once the first login is recorded. */
  function MarkSnapshot(u: User, now: Time): User {
    if IsFirstLogin(u) then u.(firstLogin := Some(now)) else u
  }

  /** The cached user, once the first login of the copy `u` is recorded. */
  function MarkCached(m: Mem, username: string, u: User, now: Time): Effect {
    if !IsFirstLogin(u) then Effect(m, [])
    else
      var writes := [FirstLogin(u.id, u.plan.limitType, u.plan.limitSeconds)];
      if username !in m.subscribers then Effect(m, writes)
      else
        var c := m.subscribers[username];
        var c' := c.(firstLogin := Some(now),
                     expires := if u.plan.limitType == CalendarLimit
                                then Some(now + u.plan.limitSeconds * SECOND) else c.expires);
        Effect(m.(subscribers := m.subscribers[username := c']), writes)
  }

  predicate Expired(u: User, now: Time) { u.expires.Some? && now > u.expires.value }

  /** The voucher is refused and disabled. */
  predicate Refused(u: User, now: Time) { u.plan.isVoucher && (Expired(u, now) || UsedUp(u)) }

  function ActiveOf(ss: map<string, Session>, username: string): set<string> {
    set id | id in ss && IsActiveOf(ss[id], username)
  }

  predicate TooManySessions(ss: map<string, Session>, username: string, u: User) {
    u.plan.simultaneousUse > 0 && |ActiveOf(ss, username)| >= u.plan.simultaneousUse
  }

  function EffectiveTimeout(u: User): int {
    if u.plan.sessionTimeout > 0 then u.plan.sessionTimeout
    else if u.profile.Some? && u.profile.value.sessionTimeout > 0 then u.profile.value.sessionTimeout
    else 0
  }

  /** Go's division truncates toward zero. */
  function WholeSeconds(d: Time): int { if d >= 0 then d / SECOND else -(-d / SECOND) }

  /** The Session-Timeout attribute holds an unsigned 32-bit value. */
  function TimeoutAttribute(seconds: int): seq<int> {
    if seconds > 0 then [seconds % TWO_32] else []
  }

  /** The Session-Timeout attributes of an Access-Accept, in order. */
  function Timeouts(u: User, now: Time): seq<int> {
    TimeoutAttribute(EffectiveTimeout(u))
    + (if u.plan.isVoucher && u.plan.limitType == UsageLimit && u.plan.limitSeconds > 0
       then TimeoutAttribute(Wrap64(u.plan.limitSeconds - u.usage.seconds)) else [])
    + (if u.plan.isVoucher && u.plan.limitType == CalendarLimit && u.expires.Some?
       then TimeoutAttribute(WholeSeconds(u.expires.value - now)) else [])
  }

  datatype Reply = Reject | Accept(timeouts: seq<int>)

  /** The decision on the handler's copy `u`; `encoded` is whether the reply could be signed. */
  function Decide(ss: map<string, Session>, username: string, u: User, now: Time, encoded: bool): Reply {
    if Refused(u, now) || TooManySessions(ss, username, u) || !encoded then Reject else Accept(Timeouts(u, now))
  }

  /** One Access-Request handled without interruption. */
  function AuthEffect(m: Mem, username: string, passwordOk: bool, now: Time): Effect {
    if !Admitted(m, username, passwordOk) then Effect(m, [])
    else
      var u := m.subscribers[username];
      var marked := MarkCached(m, username, u, now);
      if Refused(MarkSnapshot(u, now), now)
      then Effect(DisableInMemory(marked.mem, username), marked.writes + [Disable(u.id)])
      else marked
  }

  function AuthReply(m: Mem, username: string, passwordOk: bool, now: Time, encoded: bool): Reply {
    if !Admitted(m, username, passwordOk) then Reject
    else Decide(m.sessions, username, MarkSnapshot(m.subscribers[username], now), now, encoded)
  }
}
