/** Stale-session cleanup and reconciliation as operations on the session table
    (internal/radius/service.go). */
module SessionLaws {
  import opened Domain
  import opened ServerSpec

  /** Cleanup marks every active record older than the cutoff, with a stop time, and
      leaves all others as they were. */
  lemma CleanupIsExact(ss: map<string, Session>, cutoff: Time, now: Time, id: string)
    requires id in ss
    ensures Cleaned(ss, cutoff, now).Keys == ss.Keys
    ensures var s := Cleaned(ss, cutoff, now)[id];
            && !(s.status == Active && s.lastUpdate < cutoff)
            && s == if ss[id].status == Active && ss[id].lastUpdate < cutoff
                    then ss[id].(status := Stale, stopTime := Some(now), lastUpdate := now) else ss[id]
  {
  }

  /** The records that a cleanup ends are handed to the database as they are then, each once,
      and no others. */
  lemma CleanupWrites(m: Mem, cutoff: Time, now: Time, order: seq<string>)
    requires Enumerates(order, StaleIds(m.sessions, cutoff)) && forall id :: id in m.sessions ==> m.sessions[id].id == id
    ensures var e := Cleanup(m, cutoff, now, order);
            && (forall id :: id in m.sessions && e.mem.sessions[id] != m.sessions[id] ==> Upsert(e.mem.sessions[id]) in e.writes)
            && (forall w :: w in e.writes ==> w.Upsert? && w.session.id in m.sessions
                                              && w.session == e.mem.sessions[w.session.id]
                                              && m.sessions[w.session.id].status == Active)
            && |e.writes| == |StaleIds(m.sessions, cutoff)|
  {
    assert forall id :: id in order <==> id in multiset(order);
    assert forall id :: id in order <==> id in StaleIds(m.sessions, cutoff);
    UpsertsOf(m.sessions, order, now);
    assert |order| == |multiset(order)| == |multiset(StaleIds(m.sessions, cutoff))|;
  }

  lemma {:induction false} UpsertsOf(ss: map<string, Session>, order: seq<string>, now: Time)
    requires forall id :: id in order ==> id in ss
    ensures |Upserts(ss, order, now)| == |order|
    ensures forall id :: id in order ==> Upsert(Expire(ss[id], now)) in Upserts(ss, order, now)
    ensures forall w :: w in Upserts(ss, order, now) ==> exists id :: id in order && w == Upsert(Expire(ss[id], now))
    decreases |order|
  {
    if order != [] {
      var front, id := order[..|order| - 1], order[|order| - 1];
      assert order == front + [id];
      UpsertsOf(ss, front, now);
      assert id in order;
    }
  }

  /** The active count falls by exactly the number of records cleaned. */
  lemma CleanupCounts(ss: map<string, Session>, cutoff: Time, now: Time)
    ensures |ActiveIds(Cleaned(ss, cutoff, now))| == |ActiveIds(ss)| - |StaleIds(ss, cutoff)|
  {
    var after := Cleaned(ss, cutoff, now);
    assert ActiveIds(ss) == ActiveIds(after) + StaleIds(ss, cutoff);
    assert ActiveIds(after) !! StaleIds(ss, cutoff);
  }

  /** A second cleanup with the same cutoff finds nothing. */
  lemma CleanupTwice(ss: map<string, Session>, cutoff: Time, now: Time, later: Time)
    ensures StaleIds(Cleaned(ss, cutoff, now), cutoff) == {}
    ensures Cleaned(Cleaned(ss, cutoff, now), cutoff, later) == Cleaned(ss, cutoff, now)
  {
  }

  /** The number reported as active sessions kept counts every record that was not
      cleaned; it is the number of active sessions left exactly when memory held no
      stopped or stale record. */
  lemma KeptIsActiveIff(ss: map<string, Session>, cutoff: Time, now: Time)
    ensures |ss| - |StaleIds(ss, cutoff)| == |ActiveIds(Cleaned(ss, cutoff, now))|
       <==> forall id :: id in ss ==> ss[id].status == Active
  {
    CleanupCounts(ss, cutoff, now);
    if id :| id in ss && ss[id].status != Active {
      assert ActiveIds(ss) < ss.Keys;
      SmallerSubset(ActiveIds(ss), ss.Keys);
    } else {
      assert ActiveIds(ss) == ss.Keys;
    }
  }

  lemma SmallerSubset<T>(a: set<T>, b: set<T>)
    requires a < b
    ensures |a| < |b|
  {
    var x :| x in b && x !in a;
    assert a <= b - {x};
    CardinalityMonotone(a, b - {x});
  }

  lemma {:induction false} CardinalityMonotone<T>(a: set<T>, b: set<T>)
    requires a <= b
    ensures |a| <= |b|
    decreases a
  {
    if a != {} {
      var x :| x in a;
      CardinalityMonotone(a - {x}, b - {x});
    }
  }

  /** Reconciling adds the rows whose ids are new, the first row of each id, and changes
      no record that memory already holds. */
  lemma {:induction false} ReconcileIsExact(ss: map<string, Session>, rows: seq<Session>, id: string)
    ensures id in ss ==> id in Reconciled(ss, rows) && Reconciled(ss, rows)[id] == ss[id]
    ensures id !in ss ==> (id in Reconciled(ss, rows) <==> exists i :: 0 <= i < |rows| && rows[i].id == id)
    ensures id !in ss && id in Reconciled(ss, rows) ==>
              exists i :: 0 <= i < |rows| && rows[i].id == id && Reconciled(ss, rows)[id] == rows[i]
                       && forall j :: 0 <= j < i ==> rows[j].id != id
    decreases |rows|
  {
    if rows != [] {
      var front, row := rows[..|rows| - 1], rows[|rows| - 1];
      assert rows == front + [row];
      ReconcileIsExact(ss, front, id);
      assert forall k :: 0 <= k < |front| ==> front[k] == rows[k];
      if id !in ss {
        if id in Reconciled(ss, front) {
          var i :| 0 <= i < |front| && front[i].id == id && Reconciled(ss, front)[id] == front[i]
                && forall j :: 0 <= j < i ==> front[j].id != id;
          assert rows[i].id == id;
          assert Reconciled(ss, rows)[id] == rows[i];
        } else if row.id == id {
          assert rows[|rows| - 1].id == id && Reconciled(ss, rows)[id] == rows[|rows| - 1];
          forall j | 0 <= j < |rows| - 1 ensures rows[j].id != id {
            assert front[j].id == rows[j].id;
          }
        }
      }
    }
  }
}
