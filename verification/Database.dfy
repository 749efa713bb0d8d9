/** The database rows the server shares, and the statements that rewrite them
    (internal/radius/repository.go). */
module Database {
  import opened Domain

  datatype Db = Db(users: map<string, User>, sessions: map<string, Session>)

  /** The usage columns can hold these values. */
  predicate FitsColumns(u: Usage) {
    -INT32_MAX - 1 <= u.seconds <= INT32_MAX && -INT64_MAX - 1 <= u.octets <= INT64_MAX
  }

  function Plus(a: Usage, b: Usage): Usage { Usage(a.seconds + b.seconds, a.octets + b.octets) }

  /** The statement is refused when a value does not fit its column, and nothing reports it. */
  predicate CanAdd(row: User, delta: Usage) { FitsColumns(delta) && FitsColumns(Plus(row.usage, delta)) }

  function FirstLoginRow(row: User, limitType: LimitType, limitSeconds: int, now: Time): User {
    row.(firstLogin := Some(now),
         expires := if limitType == CalendarLimit then Some(now + limitSeconds * SECOND) else row.expires)
  }

  /** One statement, executed when the database's clock shows `now`. */
  function Execute(db: Db, w: Write, now: Time): Db {
    match w
    case AddUsage(id, delta) =>
      if id in db.users && CanAdd(db.users[id], delta)
      then db.(users := db.users[id := db.users[id].(usage := Plus(db.users[id].usage, delta))]) else db
    case FirstLogin(id, limitType, limitSeconds) =>
      if id in db.users
      then db.(users := db.users[id := FirstLoginRow(db.users[id], limitType, limitSeconds, now)]) else db
    case Disable(id) =>
      if id in db.users then db.(users := db.users[id := db.users[id].(enabled := false)]) else db
    case Upsert(s) => db.(sessions := db.sessions[s.id := s])
  }

  /** The rows of a `SELECT` of all users: each row once, in any order. */
  ghost predicate ListsUsers(db: Db, rows: seq<User>) {
    && (forall i, j :: 0 <= i < j < |rows| ==> rows[i].id != rows[j].id)
    && (forall i :: 0 <= i < |rows| ==> rows[i].id in db.users && db.users[rows[i].id] == rows[i])
    && (forall id :: id in db.users ==> exists i :: 0 <= i < |rows| && rows[i].id == id)
  }

  /** The rows of a `SELECT` of the active sessions: each once, in any order. */
  ghost predicate ListsActive(db: Db, rows: seq<Session>) {
    && (forall i, j :: 0 <= i < j < |rows| ==> rows[i].id != rows[j].id)
    && (forall i :: 0 <= i < |rows| ==> rows[i].id in db.sessions && db.sessions[rows[i].id] == rows[i] && rows[i].status == Active)
    && (forall id :: id in db.sessions && db.sessions[id].status == Active ==> exists i :: 0 <= i < |rows| && rows[i].id == id)
  }

  /** The repository object, its tables as fields that each statement rewrites. */
  class Repository {
    var users: map<string, User>
    var sessions: map<string, Session>

    ghost function Rows(): Db
      reads this
    {
      Db(users, sessions)
    }

    method AddUsageDelta(userID: string, secs: int, octets: int) returns (ok: bool)
      modifies this`users
      ensures forall now: Time :: Rows() == Execute(old(Rows()), AddUsage(userID, Usage(secs, octets)), now)
      ensures ok <==> userID in old(users) ==> CanAdd(old(users)[userID], Usage(secs, octets))
    {
      ok := true;
      if userID in users {
        var row := users[userID];
        var seconds, bytes := row.usage.seconds + secs, row.usage.octets + octets;
        if FitsColumns(Usage(secs, octets)) && FitsColumns(Usage(seconds, bytes)) {
          users := users[userID := row.(usage := Usage(seconds, bytes))];
        } else {
          ok := false;
        }
      }
    }

    method RecordFirstLogin(userID: string, timeLimitType: LimitType, timeLimitSeconds: int, now: Time)
      modifies this`users
      ensures Rows() == Execute(old(Rows()), FirstLogin(userID, timeLimitType, timeLimitSeconds), now)
      ensures users.Keys == old(users).Keys && forall id :: id in users && id != userID ==> users[id] == old(users)[id]
      ensures userID in users ==>
                var row, was := users[userID], old(users)[userID];
                && row.firstLogin == Some(now) && (timeLimitType != CalendarLimit ==> row.expires == was.expires)
                && row == was.(firstLogin := row.firstLogin, expires := row.expires)
    {
      if timeLimitType != CalendarLimit {
        if userID in users {
          users := users[userID := users[userID].(firstLogin := Some(now))];
        }
        return;
      }
      if userID in users {
        users := users[userID := users[userID].(firstLogin := Some(now), expires := Some(now + timeLimitSeconds * SECOND))];
      }
    }

    method DisableUser(userID: string)
      modifies this`users
      ensures forall now: Time :: Rows() == Execute(old(Rows()), Disable(userID), now)
      ensures users.Keys == old(users).Keys && forall id :: id in users && id != userID ==> users[id] == old(users)[id]
      ensures userID in users ==>
                !users[userID].enabled && users[userID] == old(users)[userID].(enabled := users[userID].enabled)
    {
      if userID in users {
        users := users[userID := users[userID].(enabled := false)];
      }
    }

    method UpsertSession(session: Session)
      modifies this`sessions
      ensures forall now: Time :: Rows() == Execute(old(Rows()), Upsert(session), now)
      ensures session.id in sessions && sessions[session.id] == session
      ensures forall id :: id != session.id ==> (id in sessions <==> id in old(sessions))
      ensures forall id :: id in old(sessions) && id != session.id ==> sessions[id] == old(sessions)[id]
    {
      sessions := sessions[session.id := session];
    }

    method ListUsers() returns (rows: seq<User>)
      requires forall id :: id in users ==> users[id].id == id
      ensures ListsUsers(Rows(), rows)
      ensures forall u :: u in rows <==> exists id :: id in users && u == users[id]
    {
      rows := [];
      var todo := users.Keys;
      while todo != {}
        invariant todo <= users.Keys
        invariant forall i :: 0 <= i < |rows| ==>
                    rows[i].id in users && users[rows[i].id] == rows[i] && rows[i].id !in todo
        invariant forall i, j :: 0 <= i < j < |rows| ==> rows[i].id != rows[j].id
        invariant forall id :: id in users && id !in todo ==> exists i :: 0 <= i < |rows| && rows[i].id == id
      {
        var id :| id in todo;
        ghost var before := rows;
        rows := rows + [users[id]];
        todo := todo - {id};
        assert rows[|before|].id == id && forall i :: 0 <= i < |before| ==> rows[i] == before[i];
      }
    }

    method ListActiveSessions() returns (rows: seq<Session>)
      requires forall id :: id in sessions ==> sessions[id].id == id
      ensures ListsActive(Rows(), rows)
      ensures forall x :: x in rows <==> exists id :: id in sessions && x == sessions[id] && x.status == Active
    {
      rows := [];
      var todo := sessions.Keys;
      while todo != {}
        invariant todo <= sessions.Keys
        invariant forall i :: 0 <= i < |rows| ==>
                    && rows[i].id in sessions && sessions[rows[i].id] == rows[i] && rows[i].status == Active
                    && rows[i].id !in todo
        invariant forall i, j :: 0 <= i < j < |rows| ==> rows[i].id != rows[j].id
        invariant forall id :: id in sessions && id !in todo && sessions[id].status == Active ==>
                    exists i :: 0 <= i < |rows| && rows[i].id == id
      {
        var id :| id in todo;
        ghost var before := rows;
        if sessions[id].status == Active {
          rows := rows + [sessions[id]];
          assert rows[|before|].id == id;
        }
        todo := todo - {id};
        assert forall i :: 0 <= i < |before| ==> rows[i] == before[i];
      }
    }
  }
}
