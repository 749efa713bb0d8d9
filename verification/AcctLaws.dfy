/** What one accounting packet does to the record it finds and to its user, in the numbers of
    the packet (internal/radius/accounting.go). */
module AcctLaws {
  import opened Domain
  import opened Counters
  import opened ServerSpec

  /** A Start makes one active record without counters, which carries what the packet said,
      hands over its upsert, and changes nothing else. */
  lemma StartMakesRecord(m: Mem, id: string, sessionId: string, username: string, nasIp: string, now: Time)
    requires id !in m.sessions
    ensures var e := AcctStart(m, NewSession(id, sessionId, username, nasIp, now));
            && e.mem.subscribers == m.subscribers && e.mem.nases == m.nases
            && e.mem.sessions.Keys == m.sessions.Keys + {id}
            && (forall k :: k in m.sessions ==> e.mem.sessions[k] == m.sessions[k])
            && (var x := e.mem.sessions[id];
                && x.id == id && x.sessionId == sessionId && x.username == username && x.nasIp == nasIp
                && x.status == Active && x.stopTime.None? && x.startTime == x.lastUpdate == now
                && x.inOctets == x.outOctets == x.time == 0
                && e.writes == [Upsert(x)])
  {
  }

  /** The total of one direction: gigawords and octets together, at most 2^63 - 1; a missing
      attribute is zero. */
  function PacketTotal(octets: Option<uint32>, gigawords: Option<uint32>): int {
    var low := if octets.Some? then octets.value else 0;
    var high := if gigawords.Some? then gigawords.value else 0;
    var total := high * 0x1_0000_0000 + low;
    if total < 0x8000_0000_0000_0000 then total else 0x7FFF_FFFF_FFFF_FFFF
  }

  lemma TotalIsExact(octets: Option<uint32>, gigawords: Option<uint32>)
    ensures Combined(octets, gigawords) == PacketTotal(octets, gigawords)
  {
    if gigawords.Some? {
      CombinedIsExact(if octets.Some? then octets.value else 0, gigawords.value);
    }
  }

  /** An update writes the packet's totals, each direction in its own place, and the time into
      the one record; a Stop ends it. Its identity and start time stay. */
  lemma UpdateWritesRecord(m: Mem, id: string, r: Report, stop: bool, now: Time)
    requires id in m.sessions
    ensures var e := AcctUpdate(m, id, r, stop, now);
            && e.mem.nases == m.nases && e.mem.sessions.Keys == m.sessions.Keys
            && (forall k :: k in m.sessions && k != id ==> e.mem.sessions[k] == m.sessions[k])
            && (var was, x := m.sessions[id], e.mem.sessions[id];
                && x.inOctets == PacketTotal(r.inOctets, r.inGigawords)
                && x.outOctets == PacketTotal(r.outOctets, r.outGigawords)
                && x.time == (if r.seconds.Some? then r.seconds.value else 0) && x.lastUpdate == now
                && x.status == (if stop then Stopped else was.status)
                && x.stopTime == (if stop then Some(now) else was.stopTime)
                && x.id == was.id && x.sessionId == was.sessionId && x.username == was.username
                && x.nasIp == was.nasIp && x.startTime == was.startTime
                && e.writes != [] && e.writes[0] == Upsert(x)
                && forall k :: 0 < k < |e.writes| ==> !e.writes[k].Upsert?)
  {
    TotalIsExact(r.inOctets, r.inGigawords);
    TotalIsExact(r.outOctets, r.outGigawords);
  }

  /** What a counter has grown by: a smaller value than before counts from zero. */
  function Growth(reported: int, stored: int): int { if reported < stored then reported else reported - stored }

  function GrowthOf(r: Report, x: Session): Usage {
    Usage(Growth(if r.seconds.Some? then r.seconds.value else 0, x.time),
          Growth(PacketTotal(r.inOctets, r.inGigawords) + PacketTotal(r.outOctets, r.outGigawords), x.inOctets + x.outOctets))
  }

  /** The counters of a record are in range: the two totals together fit an int64. */
  predicate PlainCounters(x: Session) {
    0 <= x.time < TWO_32 && 0 <= x.inOctets && 0 <= x.outOctets && x.inOctets + x.outOctets <= INT64_MAX
  }

  lemma GrowthIsDelta(r: Report, x: Session)
    requires Sane(r) && PlainCounters(x)
    ensures DeltaUsage(Reported(r), Stored(x)) == GrowthOf(r, x) && SaneUsage(GrowthOf(r, x))
  {
    TotalIsExact(r.inOctets, r.inGigawords);
    TotalIsExact(r.outOctets, r.outGigawords);
    SaneReport(r);
    DeltaExact(Reported(r).seconds, x.time);
    DeltaExact(Reported(r).octets, x.inOctets + x.outOctets);
  }

  lemma MeterAdds(u: User, delta: Usage)
    requires SaneUsage(delta)
    ensures Meter(u, delta) == u.(usage := Meter(u, delta).usage)
    ensures forall d: Dim :: 0 <= u.usage.Of(d) && u.usage.Of(d) + delta.Of(d) <= INT64_MAX ==>
              Meter(u, delta).usage.Of(d) == u.usage.Of(d) + delta.Of(d)
  {
  }

  /** Only a cached voucher is metered. */
  lemma OthersAreNotMetered(m: Mem, id: string, r: Report, stop: bool, now: Time)
    requires id in m.sessions
    requires var n := m.sessions[id].username;
             n !in m.subscribers || !m.subscribers[n].plan.isVoucher
    ensures var e := AcctUpdate(m, id, r, stop, now);
            e.mem.subscribers == m.subscribers && |e.writes| == 1
  {
  }

  /** Only the usage of the voucher changes, by the growth of the record's counters, and the
      same amount is handed to the database when there is any. */
  lemma UpdateMetersUser(m: Mem, id: string, r: Report, stop: bool, now: Time, n: string)
    requires id in m.sessions && m.sessions[id].username == n && Sane(r) && PlainCounters(m.sessions[id])
    requires n in m.subscribers && m.subscribers[n].plan.isVoucher
    ensures var grown, e := GrowthOf(r, m.sessions[id]), AcctUpdate(m, id, r, stop, now);
            && e.mem.subscribers.Keys == m.subscribers.Keys
            && (forall k :: k in m.subscribers && k != n ==> e.mem.subscribers[k] == m.subscribers[k])
            && (var was, u := m.subscribers[n], e.mem.subscribers[n];
                && u == was.(usage := u.usage)
                && (forall d: Dim :: 0 <= was.usage.Of(d) && was.usage.Of(d) + grown.Of(d) <= INT64_MAX ==>
                      u.usage.Of(d) == was.usage.Of(d) + grown.Of(d))
                && e.writes[1..] == if was.id != "" && (grown.seconds > 0 || grown.octets > 0)
                                    then [AddUsage(was.id, grown)] else [])
  {
    GrowthIsDelta(r, m.sessions[id]);
    MeterAdds(m.subscribers[n], GrowthOf(r, m.sessions[id]));
  }
}
