/** What one refresh guarantees: a correct join of the lists it read, and a merge that
    can be repeated and reordered (internal/radius/service.go). */
module RefreshLaws {
  import opened Domain
  import opened ServerSpec

  predicate HasUser(rows: seq<User>, username: string) {
    exists i :: 0 <= i < |rows| && rows[i].username == username
  }

  /** The row a username ends up with: the last one. */
  ghost predicate IsLastRow(rows: seq<User>, i: int, username: string) {
    && 0 <= i < |rows| && rows[i].username == username
    && (forall j :: i < j < |rows| ==> rows[j].username != username)
  }

  /** Afterwards the keys are exactly the usernames read, and each entry is the merge of
      that user's row with what memory held, joined with its profile and package. */
  lemma {:induction false} RefreshedEntry(
    before: map<string, User>, rows: seq<User>,
    profiles: map<string, Profile>, packages: map<string, Package>, username: string) returns (i: int)
    ensures var after := RefreshSubscribers(before, rows, profiles, packages);
            && (username in after <==> HasUser(rows, username))
            && (username in after ==>
                  && IsLastRow(rows, i, username)
                  && after[username] == Join(MergeUser(Get(before, username), rows[i]), profiles, packages))
    decreases |rows|
  {
    if rows == [] {
      i := -1;
    } else {
      var front := rows[..|rows| - 1];
      assert rows == front + [rows[|rows| - 1]];
      if rows[|rows| - 1].username == username {
        i := |rows| - 1;
      } else {
        i := RefreshedEntry(before, front, profiles, packages, username);
        if HasUser(rows, username) {
          var k :| 0 <= k < |rows| && rows[k].username == username;
          assert front[k].username == username;
        }
      }
    }
  }

  /** Profiles and packages as rows come from the database: not attached yet. */
  predicate Scanned(rows: seq<User>) {
    forall i :: 0 <= i < |rows| ==> rows[i].profile.None? && rows[i].package.None?
  }

  ghost predicate IsLastEnabledProfile(ps: seq<Profile>, i: int, id: string) {
    && 0 <= i < |ps| && ps[i].enabled && ps[i].id == id
    && (forall j :: i < j < |ps| && ps[j].enabled ==> ps[j].id != id)
  }

  lemma {:induction false} EnabledProfilesEntry(ps: seq<Profile>, id: string) returns (i: int)
    ensures id in EnabledProfiles(ps) <==> exists k :: 0 <= k < |ps| && ps[k].enabled && ps[k].id == id
    ensures id in EnabledProfiles(ps) ==> IsLastEnabledProfile(ps, i, id) && EnabledProfiles(ps)[id] == ps[i]
    decreases |ps|
  {
    if ps == [] {
      i := -1;
    } else {
      var front, p := ps[..|ps| - 1], ps[|ps| - 1];
      assert ps == front + [p];
      i := EnabledProfilesEntry(front, id);
      if p.enabled && p.id == id {
        i := |ps| - 1;
        assert ps[i].enabled;
      } else {
        assert forall k :: 0 <= k < |front| ==> front[k] == ps[k];
      }
    }
  }

  lemma {:induction false} PackagesEntry(ps: seq<Package>, id: string)
    ensures id in PackagesById(ps) <==> exists k :: 0 <= k < |ps| && ps[k].id == id
    ensures id in PackagesById(ps) ==> PackagesById(ps)[id] in ps && PackagesById(ps)[id].id == id
    decreases |ps|
  {
    if ps != [] {
      var front, p := ps[..|ps| - 1], ps[|ps| - 1];
      assert ps == front + [p];
      PackagesEntry(front, id);
      if p.id == id {
        assert ps[|ps| - 1].id == id;
      } else {
        assert forall k :: 0 <= k < |front| ==> front[k] == ps[k];
      }
    }
  }

  ghost predicate IsLastEnabledNas(ns: seq<Nas>, i: int, ip: string) {
    && 0 <= i < |ns| && ns[i].enabled && ns[i].ip == ip
    && (forall j :: i < j < |ns| && ns[j].enabled ==> ns[j].ip != ip)
  }

  lemma {:induction false} EnabledNasesEntry(ns: seq<Nas>, ip: string) returns (i: int)
    ensures ip in EnabledNases(ns) <==> exists k :: 0 <= k < |ns| && ns[k].enabled && ns[k].ip == ip
    ensures ip in EnabledNases(ns) ==> IsLastEnabledNas(ns, i, ip) && EnabledNases(ns)[ip] == ns[i]
    decreases |ns|
  {
    if ns == [] {
      i := -1;
    } else {
      var front, n := ns[..|ns| - 1], ns[|ns| - 1];
      assert ns == front + [n];
      i := EnabledNasesEntry(front, ip);
      if n.enabled && n.ip == ip {
        i := |ns| - 1;
        assert ns[i].enabled;
      } else {
        assert forall k :: 0 <= k < |front| ==> front[k] == ns[k];
      }
    }
  }

  /** After a refresh the NAS table holds, for every address of an enabled NAS just read, the
      last one listed, and nothing else. */
  lemma NasTable(m: Mem, l: Listing, ip: string) returns (i: int)
    ensures ip in Refresh(m, l).nases <==> exists k :: 0 <= k < |l.nases| && l.nases[k].enabled && l.nases[k].ip == ip
    ensures ip in Refresh(m, l).nases ==> IsLastEnabledNas(l.nases, i, ip) && Refresh(m, l).nases[ip] == l.nases[i]
  {
    i := EnabledNasesEntry(l.nases, ip);
  }

  predicate NamesEnabledProfile(id: Option<string>, ps: seq<Profile>) {
    id.Some? && id.value != "" && exists k :: 0 <= k < |ps| && ps[k].enabled && ps[k].id == id.value
  }

  predicate NamesPackage(id: Option<string>, ps: seq<Package>) {
    id.Some? && id.value != "" && exists k :: 0 <= k < |ps| && ps[k].id == id.value
  }

  /** The join: a profile is attached exactly when the id in the user's last row names an
      enabled profile, a package exactly when it exists, and what is attached carries that id. */
  lemma RefreshJoins(m: Mem, l: Listing, username: string) returns (i: int)
    requires Scanned(l.users) && HasUser(l.users, username)
    ensures IsLastRow(l.users, i, username) && username in Refresh(m, l).subscribers
    ensures var u, plan := Refresh(m, l).subscribers[username], l.users[i].plan;
            && (u.profile.Some? <==> NamesEnabledProfile(plan.profileId, l.profiles))
            && (u.package.Some? <==> NamesPackage(plan.packageId, l.packages))
            && (u.profile.Some? ==> var p := u.profile.value; p in l.profiles && p.enabled && p.id == plan.profileId.value)
            && (u.package.Some? ==> var p := u.package.value; p in l.packages && p.id == plan.packageId.value)
  {
    var profiles, packages := EnabledProfiles(l.profiles), PackagesById(l.packages);
    i := RefreshedEntry(m.subscribers, l.users, profiles, packages, username);
    if l.users[i].plan.profileId.Some? {
      var k := EnabledProfilesEntry(l.profiles, l.users[i].plan.profileId.value);
    }
    if l.users[i].plan.packageId.Some? {
      PackagesEntry(l.packages, l.users[i].plan.packageId.value);
    }
  }

  function Or<T>(a: Option<T>, b: Option<T>): Option<T> { if a.Some? then a else b }

  /** A refresh takes over whatever an administrator changed: id, name and plan of every entry
      are those of the last row of the name. A user not cached before is the row; of one that
      was, memory keeps only the first login and the expiry it knows, larger counters and a
      disabling. */
  lemma RefreshTakesTheRow(m: Mem, l: Listing, username: string) returns (i: int)
    requires HasUser(l.users, username)
    ensures IsLastRow(l.users, i, username) && username in Refresh(m, l).subscribers
    ensures var u, row := Refresh(m, l).subscribers[username], l.users[i];
            && u.id == row.id && u.username == username && u.plan == row.plan
            && (username !in m.subscribers ==> u == row.(profile := u.profile, package := u.package))
            && (username in m.subscribers ==>
                  var was := m.subscribers[username];
                  && u.firstLogin == Or(was.firstLogin, row.firstLogin) && u.expires == Or(was.expires, row.expires)
                  && (u.enabled <==> was.enabled && row.enabled)
                  && (forall d: Dim :: u.usage.Of(d) == if was.usage.Of(d) > row.usage.Of(d) then was.usage.Of(d) else row.usage.Of(d)))
  {
    i := EntryIsMerge(m, l, username);
  }

  /** Merging the same lists twice is merging them once. */
  lemma RefreshIsIdempotent(m: Mem, l: Listing)
    ensures Refresh(Refresh(m, l), l) == Refresh(m, l)
  {
    var profiles, packages := EnabledProfiles(l.profiles), PackagesById(l.packages);
    var once := RefreshSubscribers(m.subscribers, l.users, profiles, packages);
    var twice := RefreshSubscribers(once, l.users, profiles, packages);
    forall n ensures n in once <==> n in twice
             ensures n in once ==> twice[n] == once[n]
    {
      var i := RefreshedEntry(m.subscribers, l.users, profiles, packages, n);
      var j := RefreshedEntry(once, l.users, profiles, packages, n);
      if n in once {
        SameLastRow(l.users, i, j, n);
      }
    }
    assert twice.Keys == once.Keys;
    assert twice == once;
  }

  lemma SameLastRow(rows: seq<User>, i: int, j: int, username: string)
    requires IsLastRow(rows, i, username) && IsLastRow(rows, j, username)
    ensures i == j
  {
  }

  /** Two lists of the same users may be merged in either order: the counters and the
      enabled flags come out the same, however stale one list is. */
  lemma RefreshesCommute(m: Mem, l1: Listing, l2: Listing, username: string)
    requires HasUser(l1.users, username) && HasUser(l2.users, username)
    ensures var a, b := Refresh(Refresh(m, l1), l2).subscribers, Refresh(Refresh(m, l2), l1).subscribers;
            && username in a && username in b
            && a[username].usage == b[username].usage
            && a[username].enabled == b[username].enabled
  {
    var i1 := EntryIsMerge(m, l1, username);
    var i2 := EntryIsMerge(m, l2, username);
    var j2 := EntryIsMerge(Refresh(m, l1), l2, username);
    var j1 := EntryIsMerge(Refresh(m, l2), l1, username);
    SameLastRow(l1.users, i1, j1, username);
    SameLastRow(l2.users, i2, j2, username);
  }

  lemma EntryIsMerge(m: Mem, l: Listing, username: string) returns (i: int)
    requires HasUser(l.users, username)
    ensures IsLastRow(l.users, i, username)
    ensures username in Refresh(m, l).subscribers
    ensures var u, e := Refresh(m, l).subscribers[username], MergeUser(Get(m.subscribers, username), l.users[i]);
            u == e.(profile := u.profile, package := u.package)
  {
    i := RefreshedEntry(m.subscribers, l.users, EnabledProfiles(l.profiles), PackagesById(l.packages), username);
  }

  /** A refresh never takes usage back, and enables exactly the users that the database
      enables and memory has not disabled: a re-enabling in the database alone is ignored
      while the cached entry lives. */
  lemma RefreshKeepsProgress(m: Mem, l: Listing, username: string) returns (i: int)
    requires username in m.subscribers && HasUser(l.users, username)
    ensures IsLastRow(l.users, i, username) && username in Refresh(m, l).subscribers
    ensures var before, after := m.subscribers[username], Refresh(m, l).subscribers[username];
            && (forall d: Dim :: after.usage.Of(d) >= before.usage.Of(d) && after.usage.Of(d) >= l.users[i].usage.Of(d))
            && (forall d: Dim :: after.usage.Of(d) == before.usage.Of(d) || after.usage.Of(d) == l.users[i].usage.Of(d))
            && (after.enabled <==> before.enabled && l.users[i].enabled)
  {
    i := EntryIsMerge(m, l, username);
  }
}
