/** File names in the order `sort.Strings` puts them. */
module FileNames {
  import opened Sums

  predicate LessEq(a: string, b: string) {
    a == "" || (b != "" && (a[0] < b[0] || (a[0] == b[0] && LessEq(a[1..], b[1..]))))
  }

  /** `a` comes before `b` at position `k`: they agree so far, and there `a` ends or has the
      smaller character. */
  predicate DiffersAt(a: string, b: string, k: nat) {
    && k <= |a| && k < |b| && a[..k] == b[..k] && (k == |a| || a[k] < b[k])
  }

  /** The order is the lexicographic one. */
  lemma {:induction false} LessEqIff(a: string, b: string)
    ensures LessEq(a, b) <==> a == b || exists k :: DiffersAt(a, b, k)
    decreases |a|
  {
    if a == "" {
      assert b != "" ==> DiffersAt(a, b, 0);
    } else if b != "" {
      if a[0] < b[0] {
        assert DiffersAt(a, b, 0);
      } else if a[0] == b[0] {
        LessEqIff(a[1..], b[1..]);
        assert a == [a[0]] + a[1..] && b == [b[0]] + b[1..];
        if k: nat :| DiffersAt(a[1..], b[1..], k) {
          assert a[..k + 1] == [a[0]] + a[1..][..k] && b[..k + 1] == [b[0]] + b[1..][..k];
          assert DiffersAt(a, b, k + 1);
        }
        if k: nat :| DiffersAt(a, b, k) {
          assert k > 0 && a[1..][..k - 1] == a[..k][1..] && b[1..][..k - 1] == b[..k][1..];
          assert DiffersAt(a[1..], b[1..], k - 1);
        }
      }
    }
  }

  lemma {:induction false} OrderIsTotal(a: string, b: string)
    ensures LessEq(a, b) || LessEq(b, a)
  {
    if a != "" && b != "" {
      OrderIsTotal(a[1..], b[1..]);
    }
  }

  lemma {:induction false} Antisymmetric(a: string, b: string)
    requires LessEq(a, b) && LessEq(b, a)
    ensures a == b
  {
    if a != "" && b != "" {
      Antisymmetric(a[1..], b[1..]);
      assert a == [a[0]] + a[1..] && b == [b[0]] + b[1..];
    }
  }

  lemma {:induction false} Transitive(a: string, b: string, c: string)
    requires LessEq(a, b) && LessEq(b, c)
    ensures LessEq(a, c)
  {
    if a != "" && a[0] == b[0] == c[0] {
      Transitive(a[1..], b[1..], c[1..]);
    }
  }

  predicate Ascending(names: seq<string>) {
    forall i, j :: 0 <= i < j < |names| ==> LessEq(names[i], names[j])
  }

  function Insert(name: string, names: seq<string>): seq<string> {
    if names == [] || LessEq(name, names[0]) then [name] + names
    else [names[0]] + Insert(name, names[1..])
  }

  function Sorted(names: seq<string>): seq<string> {
    if names == [] then [] else Insert(names[0], Sorted(names[1..]))
  }

  lemma FirstIsLeast(name: string, names: seq<string>)
    requires Ascending(names) && names != [] && LessEq(name, names[0])
    ensures forall j :: 0 <= j < |names| ==> LessEq(name, names[j])
  {
    forall j | 0 < j < |names| ensures LessEq(name, names[j]) {
      Transitive(name, names[0], names[j]);
    }
  }

  lemma {:induction false} InsertKeepsOrder(name: string, names: seq<string>)
    requires Ascending(names)
    ensures Ascending(Insert(name, names))
    ensures multiset(Insert(name, names)) == multiset(names) + multiset{name}
    decreases |names|
  {
    if names == [] {
    } else if LessEq(name, names[0]) {
      FirstIsLeast(name, names);
    } else {
      var rest := Insert(name, names[1..]);
      OrderIsTotal(name, names[0]);
      InsertKeepsOrder(name, names[1..]);
      assert names == [names[0]] + names[1..];
      forall j | 0 <= j < |rest| ensures LessEq(names[0], rest[j]) {
        assert rest[j] in multiset(rest);
        assert rest[j] == name || rest[j] in names[1..];
      }
    }
  }

  lemma {:induction false} SortedIsAscending(names: seq<string>)
    ensures Ascending(Sorted(names)) && multiset(Sorted(names)) == multiset(names)
    decreases |names|
  {
    if names != [] {
      SortedIsAscending(names[1..]);
      InsertKeepsOrder(names[0], Sorted(names[1..]));
      assert names == [names[0]] + names[1..];
    }
  }

  /** There is only one ascending order of the same names. */
  lemma {:induction false} AscendingIsUnique(a: seq<string>, b: seq<string>)
    requires Ascending(a) && Ascending(b) && multiset(a) == multiset(b)
    ensures a == b
    decreases |a|
  {
    assert |a| == |multiset(a)| == |multiset(b)| == |b|;
    if a != [] {
      SameFirst(a, b);
      WithoutFirst(a);
      WithoutFirst(b);
      AscendingIsUnique(a[1..], b[1..]);
      assert a == [a[0]] + a[1..] && b == [b[0]] + b[1..];
    }
  }

  lemma WithoutFirst(a: seq<string>)
    requires a != []
    ensures multiset(a[1..]) == multiset(a) - multiset{a[0]}
  {
    assert a == [a[0]] + a[1..];
  }

  lemma SameFirst(a: seq<string>, b: seq<string>)
    requires Ascending(a) && Ascending(b) && multiset(a) == multiset(b) && a != [] && b != []
    ensures a[0] == b[0]
  {
    assert a[0] in multiset(b) && b[0] in multiset(a);
    var i :| 0 <= i < |b| && b[i] == a[0];
    var j :| 0 <= j < |a| && a[j] == b[0];
    if i > 0 && j > 0 {
      Antisymmetric(a[0], b[0]);
    }
  }

  lemma DistinctByCount(names: seq<string>)
    ensures Distinct(names) <==> forall n :: n in names ==> multiset(names)[n] == 1
  {
    if !Distinct(names) {
      var i, j :| 0 <= i < j < |names| && names[i] == names[j];
      assert names == names[..i] + [names[i]] + names[i + 1..j] + [names[j]] + names[j + 1..];
      assert multiset(names)[names[i]] >= 2;
    }
    forall n | Distinct(names) && n in names ensures multiset(names)[n] == 1 {
      var i :| 0 <= i < |names| && names[i] == n;
      assert names == names[..i] + [n] + names[i + 1..];
      assert n !in names[..i] && n !in names[i + 1..];
    }
  }

  lemma InLexicographicOrder(names: seq<string>)
    requires Ascending(names)
    ensures forall i, j :: 0 <= i < j < |names| ==> names[i] == names[j] || exists k :: DiffersAt(names[i], names[j], k)
  {
    forall i, j | 0 <= i < j < |names| ensures names[i] == names[j] || exists k :: DiffersAt(names[i], names[j], k) {
      LessEqIff(names[i], names[j]);
    }
  }

  /** Sorting puts the names in lexicographic order and keeps distinct names distinct, and
      every listing of a directory, in whatever order, sorts to the same list. */
  lemma SortedList(names: seq<string>, others: seq<string>)
    requires multiset(names) == multiset(others)
    ensures multiset(Sorted(names)) == multiset(names)
    ensures var sorted := Sorted(names);
            forall i, j :: 0 <= i < j < |sorted| ==> sorted[i] == sorted[j] || exists k :: DiffersAt(sorted[i], sorted[j], k)
    ensures Sorted(names) == Sorted(others)
    ensures Distinct(names) ==> Distinct(Sorted(names))
  {
    SortedIsAscending(names);
    SortedIsAscending(others);
    AscendingIsUnique(Sorted(names), Sorted(others));
    InLexicographicOrder(Sorted(names));
    DistinctByCount(names);
    DistinctByCount(Sorted(names));
    forall n | n in Sorted(names) && Distinct(names) ensures multiset(Sorted(names))[n] == 1 {
      assert n in multiset(names);
    }
  }
}
