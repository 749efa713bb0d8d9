/** The migration runner (internal/database/postgres.go): one run as the loop it is, and
    any number of runs at once, with crashes, as a state machine of transactions. */
module Migrations {
  import opened FileNames
  import opened Sums

  /** The statements of a run that can fail. */
  datatype Stage = CreateTable | ReadDir | Check | ReadFile | Begin | Execute | Record | Commit

  datatype Entry = Entry(name: string, isDir: bool)

  /** What goes wrong in a run: which statement fails for which file, and after which failed
      commits the transaction is in the database all the same. */
  datatype Faults = Faults(fails: (Stage, string) -> bool, lost: string -> bool)

  function Files(entries: seq<Entry>): seq<string> {
    if entries == [] then []
    else
      var front, e := Files(entries[..|entries| - 1]), entries[|entries| - 1];
      if e.isDir then front else front + [e.name]
  }

  /** The files of a directory are its entries that are no directories, each as often as it is
      listed; names that are listed once make a list without repetitions. */
  lemma {:induction false} FilesAreNotDirectories(entries: seq<Entry>, name: string)
    ensures name in Files(entries) <==> exists k :: 0 <= k < |entries| && entries[k].name == name && !entries[k].isDir
    ensures Distinct(entries) ==> Distinct(Files(entries))
    decreases |entries|
  {
    if entries != [] {
      var front, e := entries[..|entries| - 1], entries[|entries| - 1];
      FilesAreNotDirectories(front, name);
      FilesAreNotDirectories(front, e.name);
      assert forall k :: 0 <= k < |front| ==> entries[k] == front[k];
    }
  }

  /** The transaction of one file goes through up to its commit. */
  predicate Ready(name: string, f: Faults) {
    !f.fails(ReadFile, name) && !f.fails(Begin, name) && !f.fails(Execute, name) && !f.fails(Record, name)
  }

  datatype RunResult = RunResult(done: seq<string>, ok: bool)

  /** The files a run commits, in order, and whether it succeeds. */
  function Replay(names: seq<string>, applied: set<string>, f: Faults): RunResult {
    if names == [] then RunResult([], true)
    else if f.fails(Check, names[0]) then RunResult([], false)
    else if names[0] in applied then Replay(names[1..], applied, f)
    else if !Ready(names[0], f) then RunResult([], false)
    else if f.fails(Commit, names[0]) then RunResult(if f.lost(names[0]) then [names[0]] else [], false)
    else
      var rest := Replay(names[1..], applied + {names[0]}, f);
      RunResult([names[0]] + rest.done, rest.ok)
  }

  /** The same with what comes before the first file. */
  function WholeRun(names: seq<string>, applied: set<string>, f: Faults): RunResult {
    if f.fails(CreateTable, "") || f.fails(ReadDir, "") then RunResult([], false) else Replay(names, applied, f)
  }

  function Elements(names: seq<string>): set<string> { set n | n in names }

  /** What a run leaves behind: the effects, the applied files and whether it succeeds. */
  function Finally(names: seq<string>, effects: seq<string>, applied: set<string>, f: Faults): (seq<string>,
                   set<string>, bool) {
    var r := Replay(names, applied, f);
    (effects + r.done, applied + Elements(r.done), r.ok)
  }

  lemma FinallyDone(effects: seq<string>, applied: set<string>, f: Faults)
    ensures Finally([], effects, applied, f) == (effects, applied, true)
  {
    assert effects + [] == effects && applied + Elements([]) == applied;
  }

  lemma FinallyNext(names: seq<string>, effects: seq<string>, applied: set<string>, f: Faults)
    requires names != []
    ensures var n := names[0];
            Finally(names, effects, applied, f) ==
              if f.fails(Check, n) then (effects, applied, false)
              else if n in applied then Finally(names[1..], effects, applied, f)
              else if !Ready(n, f) then (effects, applied, false)
              else if f.fails(Commit, n) then
                if f.lost(n) then (effects + [n], applied + {n}, false) else (effects, applied, false)
              else Finally(names[1..], effects + [n], applied + {n}, f)
  {
    var n, rest := names[0], Replay(names[1..], applied + {names[0]}, f);
    assert effects + [] == effects && applied + Elements([]) == applied && Elements([n]) == {n};
    assert effects + ([n] + rest.done) == effects + [n] + rest.done;
    assert Elements([n] + rest.done) == {n} + Elements(rest.done);
    assert applied + ({n} + Elements(rest.done)) == applied + {n} + Elements(rest.done);
  }

  /** The database: the committed effects in order, and the rows of `schema_migrations`. */
  class Store {
    var effects: seq<string>
    var applied: set<string>

    method RunMigrations(entries: seq<Entry>, f: Faults) returns (ok: bool)
      modifies this
      ensures var r := WholeRun(Sorted(Files(entries)), old(applied), f);
              ok == r.ok && effects == old(effects) + r.done && applied == old(applied) + Elements(r.done)
    {
      if f.fails(CreateTable, "") || f.fails(ReadDir, "") {
        return false;
      }
      var names := ListFiles(entries);
      ok := ApplyFiles(Sorted(names), f);
    }

    static method ListFiles(entries: seq<Entry>) returns (names: seq<string>)
      ensures names == Files(entries)
    {
      names := [];
      for i := 0 to |entries|
        invariant names == Files(entries[..i])
      {
        assert entries[..i + 1][..i] == entries[..i];
        if !entries[i].isDir {
          names := names + [entries[i].name];
        }
      }
      assert entries[..|entries|] == entries;
    }

    method ApplyFiles(names: seq<string>, f: Faults) returns (ok: bool)
      modifies this
      ensures var r := Replay(names, old(applied), f);
              ok == r.ok && effects == old(effects) + r.done && applied == old(applied) + Elements(r.done)
    {
      ghost var final := Finally(names, effects, applied, f);
      assert names[0..] == names;
      for i := 0 to |names|
        invariant final == Finally(names[i..], effects, applied, f)
      {
        var name := names[i];
        assert names[i..][0] == name && names[i..][1..] == names[i + 1..];
        FinallyNext(names[i..], effects, applied, f);
        if f.fails(Check, name) {
          return false;
        }
        if name in applied {
          continue;
        }
        if f.fails(ReadFile, name) || f.fails(Begin, name) || f.fails(Execute, name) || f.fails(Record, name) {
          return false;
        }
        if f.fails(Commit, name) {
          if f.lost(name) {
            CommitTransaction(name);
          }
          return false;
        }
        CommitTransaction(name);
      }
      FinallyDone(effects, applied, f);
      ok := true;
    }

    /** The script and its row become visible together. */
    method CommitTransaction(name: string)
      modifies this
      ensures effects == old(effects) + [name] && applied == old(applied) + {name}
    {
      effects, applied := effects + [name], applied + {name};
    }
  }

  // ----- one run -----

  /** The database holds exactly the first files of the list, each once and in order. */
  ghost predicate Consistent(names: seq<string>, effects: seq<string>, applied: set<string>) {
    && |effects| <= |names| && effects == names[..|effects|] && applied == Elements(effects)
  }

  lemma NextIsNew(names: seq<string>, effects: seq<string>, applied: set<string>, j: nat)
    requires Distinct(names) && Consistent(names, effects, applied) && j < |names|
    ensures names[j] in applied <==> j < |effects|
  {
  }

  lemma OneMore(names: seq<string>, effects: seq<string>, applied: set<string>)
    requires Consistent(names, effects, applied) && |effects| < |names|
    ensures Consistent(names, effects + [names[|effects|]], applied + {names[|effects|]})
  {
  }

  /** A run, from whatever prefix it finds and wherever it fails, leaves a prefix; it
      succeeds only with everything applied, and always when nothing fails. */
  lemma {:induction false} RunKeepsPrefix(names: seq<string>, j: nat, effects: seq<string>, applied: set<string>, f: Faults)
    requires Distinct(names) && Consistent(names, effects, applied) && j <= |effects|
    ensures var (effects', applied', ok) := Finally(names[j..], effects, applied, f);
            && Consistent(names, effects', applied') && effects <= effects'
            && (ok ==> effects' == names)
            && ((forall stage, n :: !f.fails(stage, n)) ==> ok)
    decreases |names| - j
  {
    if j == |names| {
      assert names[j..] == [];
      FinallyDone(effects, applied, f);
    } else {
      NextIsNew(names, effects, applied, j);
      FinallyNext(names[j..], effects, applied, f);
      assert names[j..][0] == names[j] && names[j..][1..] == names[j + 1..];
      if names[j] in applied {
        RunKeepsPrefix(names, j + 1, effects, applied, f);
      } else {
        OneMore(names, effects, applied);
        RunKeepsPrefix(names, j + 1, effects + [names[j]], applied + {names[j]}, f);
      }
    }
  }

  /** A run over a complete database finds nothing to do. */
  lemma {:induction false} NothingToDo(names: seq<string>, applied: set<string>, f: Faults)
    requires Elements(names) <= applied
    ensures Replay(names, applied, f).done == []
    ensures Replay(names, applied, f).ok <==> forall n :: n in names ==> !f.fails(Check, n)
    decreases |names|
  {
    if names != [] {
      assert names[0] in Elements(names) && Elements(names[1..]) <= Elements(names);
      NothingToDo(names[1..], applied, f);
      assert forall n :: n in names <==> n == names[0] || n in names[1..];
    }
  }

  // ----- any number of runs at once -----

  /** Where a run stands: stopped, about to check file `next`, in the transaction of file
      `next` with its script executed, or with its row inserted too. */
  datatype Phase = Stopped(ok: bool) | Checking(next: nat) | Executed(next: nat) | Recorded(next: nat)

  datatype World = World(effects: seq<string>, applied: set<string>, runs: seq<Phase>)

  datatype Move =
    | Start(r: nat)
    | SkipApplied(r: nat)
    | ExecuteScript(r: nat)
    | InsertRow(r: nat)
    | CommitBoth(r: nat)
    | CommitUnseen(r: nat)
    | FailOrCrash(r: nat)
    | Finish(r: nat)

  /** When a move is possible. The row's file name is a primary key: an insert waits while
      another transaction holds the same name, and fails when the name is there. */
  ghost predicate CanMove(names: seq<string>, w: World, m: Move) {
    && m.r < |w.runs|
    && var p := w.runs[m.r];
       match m
       case Start(_) => p.Stopped?
       case SkipApplied(_) => p.Checking? && p.next < |names| && names[p.next] in w.applied
       case ExecuteScript(_) => p.Checking? && p.next < |names| && names[p.next] !in w.applied
       case InsertRow(_) =>
         && p.Executed? && p.next < |names| && names[p.next] !in w.applied
         && (forall q :: 0 <= q < |w.runs| && w.runs[q].Recorded? && w.runs[q].next < |names| ==>
               names[w.runs[q].next] != names[p.next])
       case CommitBoth(_) => p.Recorded? && p.next < |names|
       case CommitUnseen(_) => p.Recorded? && p.next < |names|
       case FailOrCrash(_) => !p.Stopped?
       case Finish(_) => p.Checking? && p.next == |names|
  }

  ghost function AfterMove(names: seq<string>, w: World, m: Move): World
    requires CanMove(names, w, m)
  {
    var p := w.runs[m.r];
    match m
    case Start(r) => w.(runs := w.runs[r := Checking(0)])
    case SkipApplied(r) => w.(runs := w.runs[r := Checking(p.next + 1)])
    case ExecuteScript(r) => w.(runs := w.runs[r := Executed(p.next)])
    case InsertRow(r) => w.(runs := w.runs[r := Recorded(p.next)])
    case CommitBoth(r) =>
      World(w.effects + [names[p.next]], w.applied + {names[p.next]}, w.runs[r := Checking(p.next + 1)])
    case CommitUnseen(r) =>
      World(w.effects + [names[p.next]], w.applied + {names[p.next]}, w.runs[r := Stopped(false)])
    case FailOrCrash(r) => w.(runs := w.runs[r := Stopped(false)])
    case Finish(r) => w.(runs := w.runs[r := Stopped(true)])
  }

  /** The place of a run fits what is in the database. */
  predicate FitsPlace(p: Phase, effects: nat, files: nat) {
    match p
    case Stopped(ok) => ok ==> effects == files
    case Checking(next) => next <= effects
    case Executed(next) => next <= effects && next < files
    case Recorded(next) => next == effects < files
  }

  ghost predicate Sound(names: seq<string>, w: World) {
    && Consistent(names, w.effects, w.applied)
    && (forall r :: 0 <= r < |w.runs| ==> FitsPlace(w.runs[r], |w.effects|, |names|))
    && (forall q, r :: 0 <= q < r < |w.runs| ==> !(w.runs[q].Recorded? && w.runs[r].Recorded?))
  }

  /** A fresh database, and any number of runs that have not started. */
  predicate Fresh(w: World) {
    w.effects == [] && w.applied == {} && forall r :: 0 <= r < |w.runs| ==> w.runs[r] == Stopped(false)
  }

  lemma MoveIsSound(names: seq<string>, w: World, m: Move)
    requires Distinct(names) && Sound(names, w) && CanMove(names, w, m)
    ensures Sound(names, AfterMove(names, w, m))
    ensures w.effects <= AfterMove(names, w, m).effects
  {
  }

  ghost predicate CanMoves(names: seq<string>, w: World, ms: seq<Move>)
    decreases |ms|
  {
    ms != [] ==> CanMove(names, w, ms[0]) && CanMoves(names, AfterMove(names, w, ms[0]), ms[1..])
  }

  ghost function AfterMoves(names: seq<string>, w: World, ms: seq<Move>): World
    requires CanMoves(names, w, ms)
    decreases |ms|
  {
    if ms == [] then w else AfterMoves(names, AfterMove(names, w, ms[0]), ms[1..])
  }

  lemma {:induction false} MovesAreSound(names: seq<string>, w: World, ms: seq<Move>)
    requires Distinct(names) && Sound(names, w) && CanMoves(names, w, ms)
    ensures Sound(names, AfterMoves(names, w, ms)) && w.effects <= AfterMoves(names, w, ms).effects
    decreases |ms|
  {
    if ms != [] {
      MoveIsSound(names, w, ms[0]);
      MovesAreSound(names, AfterMove(names, w, ms[0]), ms[1..]);
    }
  }

  /** Main result. From a fresh database, however many runs start, overlap, fail or crash:
      the database always holds a prefix of the list, each file once and in order; a run that
      reports success has seen every file applied; and whatever happens then, nothing is
      taken back, and nothing changes any more once everything is applied. */
  lemma ExactlyOnce(names: seq<string>, w0: World, ms: seq<Move>, w: World, more: seq<Move>, w': World)
    requires Distinct(names) && Fresh(w0) && CanMoves(names, w0, ms) && w == AfterMoves(names, w0, ms)
    requires CanMoves(names, w, more) && w' == AfterMoves(names, w, more)
    ensures Consistent(names, w.effects, w.applied) && Distinct(w.effects)
    ensures forall r :: 0 <= r < |w.runs| && w.runs[r] == Stopped(true) ==> w.effects == names
    ensures w.effects <= w'.effects
    ensures w.effects == names ==> w'.effects == names && w'.applied == w.applied
  {
    assert Sound(names, w0);
    MovesAreSound(names, w0, ms);
    MovesAreSound(names, w, more);
  }

  // ----- the loop is such a sequence of moves -----

  lemma MovesFirst(names: seq<string>, w: World, m: Move, rest: seq<Move>)
    requires CanMove(names, w, m) && CanMoves(names, AfterMove(names, w, m), rest)
    ensures CanMoves(names, w, [m] + rest)
    ensures AfterMoves(names, w, [m] + rest) == AfterMoves(names, AfterMove(names, w, m), rest)
  {
    assert ([m] + rest)[1..] == rest;
  }

  lemma OneMove(names: seq<string>, w: World, m: Move)
    requires CanMove(names, w, m)
    ensures CanMoves(names, w, [m]) && AfterMoves(names, w, [m]) == AfterMove(names, w, m)
  {
    assert [m][1..] == [];
    assert AfterMoves(names, w, [m]) == AfterMoves(names, AfterMove(names, w, m), []);
  }

  /** All runs but `r` are stopped. */
  predicate Alone(w: World, r: nat) { r < |w.runs| && forall q :: 0 <= q < |w.runs| && q != r ==> w.runs[q].Stopped? }

  /** The result is that of the loop, and the run has stopped with its success or failure. */
  ghost predicate EndsAs(w: World, w': World, r: nat, end: (seq<string>, set<string>, bool)) {
    r < |w.runs| && w' == World(end.0, end.1, w.runs[r := Stopped(end.2)])
  }

  lemma CommitMoves(names: seq<string>, w: World, r: nat, last: Move) returns (ms: seq<Move>, w': World)
    requires Alone(w, r) && w.runs[r].Checking? && w.runs[r].next < |names| && names[w.runs[r].next] !in w.applied
    requires last == CommitBoth(r) || last == CommitUnseen(r) || last == FailOrCrash(r)
    ensures CanMoves(names, w, ms) && w' == AfterMoves(names, w, ms)
    ensures var j := w.runs[r].next;
            w' == if last.FailOrCrash? then w.(runs := w.runs[r := Stopped(false)])
                  else World(w.effects + [names[j]], w.applied + {names[j]},
                             w.runs[r := if last.CommitBoth? then Checking(j + 1) else Stopped(false)])
  {
    var w1 := AfterMove(names, w, ExecuteScript(r));
    var w2 := AfterMove(names, w1, InsertRow(r));
    w' := AfterMove(names, w2, last);
    ms := [ExecuteScript(r)] + ([InsertRow(r)] + [last]);
    OneMove(names, w2, last);
    MovesFirst(names, w1, InsertRow(r), [last]);
    MovesFirst(names, w, ExecuteScript(r), [InsertRow(r)] + [last]);
  }

  lemma MovesThen(names: seq<string>, w: World, a: seq<Move>, b: seq<Move>)
    requires CanMoves(names, w, a) && CanMoves(names, AfterMoves(names, w, a), b)
    ensures CanMoves(names, w, a + b) && AfterMoves(names, w, a + b) == AfterMoves(names, AfterMoves(names, w, a), b)
    decreases |a|
  {
    if a == [] {
      assert a + b == b;
    } else {
      assert a + b == [a[0]] + (a[1..] + b);
      MovesThen(names, AfterMove(names, w, a[0]), a[1..], b);
      MovesFirst(names, w, a[0], a[1..] + b);
    }
  }

  /** What the loop does from file `j` on, a lone run can do as moves. */
  lemma {:induction false} LoopIsMoves(names: seq<string>, w: World, r: nat, j: nat, f: Faults) returns (ms: seq<Move>)
    requires Alone(w, r) && j <= |names| && w.runs[r] == Checking(j)
    ensures CanMoves(names, w, ms)
    ensures EndsAs(w, AfterMoves(names, w, ms), r, Finally(names[j..], w.effects, w.applied, f))
    decreases |names| - j
  {
    if j == |names| {
      assert names[j..] == [];
      FinallyDone(w.effects, w.applied, f);
      ms := [Finish(r)];
      OneMove(names, w, Finish(r));
      return;
    }
    assert names[j..][0] == names[j] && names[j..][1..] == names[j + 1..];
    FinallyNext(names[j..], w.effects, w.applied, f);
    if f.fails(Check, names[j]) || (names[j] !in w.applied && !Ready(names[j], f)) {
      ms := [FailOrCrash(r)];
      OneMove(names, w, FailOrCrash(r));
    } else if names[j] in w.applied {
      var w1 := AfterMove(names, w, SkipApplied(r));
      var rest := LoopIsMoves(names, w1, r, j + 1, f);
      ms := [SkipApplied(r)] + rest;
      MovesFirst(names, w, SkipApplied(r), rest);
    } else if f.fails(Commit, names[j]) {
      var w1;
      ms, w1 := CommitMoves(names, w, r, if f.lost(names[j]) then CommitUnseen(r) else FailOrCrash(r));
    } else {
      var first, w1 := CommitMoves(names, w, r, CommitBoth(r));
      var rest := LoopIsMoves(names, w1, r, j + 1, f);
      ms := first + rest;
      MovesThen(names, w, first, rest);
    }
  }

  /** Every outcome of `Store.RunMigrations` is one of the state machine: started over any
      database, a lone run ends as moves with the same effects, rows and success. */
  lemma RunIsMoves(names: seq<string>, w: World, r: nat, f: Faults) returns (ms: seq<Move>)
    requires Alone(w, r) && w.runs[r].Stopped?
    ensures CanMoves(names, w, ms)
    ensures var result := WholeRun(names, w.applied, f);
            EndsAs(w, AfterMoves(names, w, ms), r, (w.effects + result.done, w.applied + Elements(result.done), result.ok))
  {
    var w1 := AfterMove(names, w, Start(r));
    var rest;
    if f.fails(CreateTable, "") || f.fails(ReadDir, "") {
      rest := [FailOrCrash(r)];
      OneMove(names, w1, FailOrCrash(r));
      FinallyDone(w.effects, w.applied, f);
    } else {
      rest := LoopIsMoves(names, w1, r, 0, f);
      assert names[0..] == names;
    }
    ms := [Start(r)] + rest;
    MovesFirst(names, w, Start(r), rest);
    assert AfterMoves(names, w, ms).runs == w.runs[r := Stopped(WholeRun(names, w.applied, f).ok)];
  }
}
