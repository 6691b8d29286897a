/** Discovery and ordering: from the candidate migration types, keep those
    that carry a migration attribute and belong to the run's profiles, then
    order them by version, ascending for an Up run and descending for a Down
    run. The ordering is stable: migrations of equal version keep the order in
    which discovery produced them. */
module Discovery {
  import opened Migrations
  import opened Profiles

  /** Whether discovery keeps a candidate for the run described by `options`. */
  predicate Keep(t: MigrationType, options: MigrationOptions)
  {
    t.attribute.Some? && IsInCurrentMigrationProfile(t.attribute.value, options)
  }

  function WithAttribute(t: MigrationType): MigrationWithAttribute
    requires t.attribute.Some?
  {
    MigrationWithAttribute(t.name, t.id, t.attribute.value)
  }

  /** The candidates that carry an attribute and pass the profile filter, in
      discovery order; all others are dropped without an error. */
  function SelectMigrations(types: seq<MigrationType>, options: MigrationOptions): (r: seq<MigrationWithAttribute>)
    ensures |r| <= |types|
    ensures forall k :: 0 <= k < |r| ==>
              IsInCurrentMigrationProfile(r[k].attribute, options) &&
              exists i :: 0 <= i < |types| && Keep(types[i], options) && WithAttribute(types[i]) == r[k]
    ensures forall i :: 0 <= i < |types| && Keep(types[i], options) ==> WithAttribute(types[i]) in r
  {
    if types == [] then []
    else if Keep(types[0], options) then [WithAttribute(types[0])] + SelectMigrations(types[1..], options)
    else SelectMigrations(types[1..], options)
  }

  /** Selecting from one candidate keeps it exactly when it carries an
      attribute and is in the current profile. */
  lemma SelectOne(t: MigrationType, options: MigrationOptions)
    ensures SelectMigrations([t], options) == if Keep(t, options) then [WithAttribute(t)] else []
  {
    assert [t][1..] == [];
  }

  /** Selection distributes over concatenation: each kept candidate appears
      once, at its place in discovery order. */
  lemma {:induction false} SelectConcat(a: seq<MigrationType>, b: seq<MigrationType>, options: MigrationOptions)
    ensures SelectMigrations(a + b, options) == SelectMigrations(a, options) + SelectMigrations(b, options)
    decreases |a|
  {
    if a == [] {
      assert a + b == b;
    } else {
      assert (a + b)[0] == a[0] && (a + b)[1..] == a[1..] + b;
      SelectConcat(a[1..], b, options);
    }
  }

  /** Whether version `a` may come before version `b` in a run going `direction`. */
  predicate InOrder(direction: Direction, a: int, b: int)
  {
    if direction == Down then a >= b else a <= b
  }

  /** Non-decreasing versions for Up, non-increasing versions for Down. */
  predicate Sorted(ms: seq<MigrationWithAttribute>, direction: Direction)
  {
    forall i, j :: 0 <= i < j < |ms| ==> InOrder(direction, Version(ms[i]), Version(ms[j]))
  }

  /** The migrations of version `v`, in the order they occur in `ms`. */
  function WithVersion(ms: seq<MigrationWithAttribute>, v: int): (r: seq<MigrationWithAttribute>)
    ensures forall k :: 0 <= k < |r| ==> r[k] in ms && Version(r[k]) == v
  {
    if ms == [] then []
    else if Version(ms[0]) == v then [ms[0]] + WithVersion(ms[1..], v)
    else WithVersion(ms[1..], v)
  }

  /** Places `m` before the first element it may precede; in a sorted
      sequence that is ahead of every element of its own version. */
  function Insert(m: MigrationWithAttribute, ms: seq<MigrationWithAttribute>, direction: Direction): seq<MigrationWithAttribute>
  {
    if ms == [] then [m]
    else if InOrder(direction, Version(m), Version(ms[0])) then [m] + ms
    else [ms[0]] + Insert(m, ms[1..], direction)
  }

  lemma {:induction false} InsertMultiset(m: MigrationWithAttribute, ms: seq<MigrationWithAttribute>, direction: Direction)
    ensures multiset(Insert(m, ms, direction)) == multiset(ms) + multiset{m}
  {
    if ms != [] && !InOrder(direction, Version(m), Version(ms[0])) {
      InsertMultiset(m, ms[1..], direction);
      assert ms == [ms[0]] + ms[1..];
    }
  }

  lemma {:induction false} InsertSorted(m: MigrationWithAttribute, ms: seq<MigrationWithAttribute>, direction: Direction)
    requires Sorted(ms, direction)
    ensures Sorted(Insert(m, ms, direction), direction)
  {
    if ms == [] {
    } else if InOrder(direction, Version(m), Version(ms[0])) {
      forall x | x in ms ensures InOrder(direction, Version(m), Version(x)) {
        FirstIsExtreme(ms, direction, x);
      }
      ConsSorted(m, ms, direction);
    } else {
      TailSorted(ms, direction);
      InsertSorted(m, ms[1..], direction);
      InsertMultiset(m, ms[1..], direction);
      var rest := Insert(m, ms[1..], direction);
      forall x | x in rest ensures InOrder(direction, Version(ms[0]), Version(x)) {
        assert x in multiset(rest);
        if x != m {
          FirstIsExtreme(ms, direction, x);
        }
      }
      ConsSorted(ms[0], rest, direction);
    }
  }

  lemma {:induction false} InsertWithVersion(m: MigrationWithAttribute, ms: seq<MigrationWithAttribute>, direction: Direction, v: int)
    requires Sorted(ms, direction)
    ensures WithVersion(Insert(m, ms, direction), v) == (if Version(m) == v then [m] else []) + WithVersion(ms, v)
  {
    if ms == [] {
      WithVersionCons(m, [], v);
    } else if InOrder(direction, Version(m), Version(ms[0])) {
      WithVersionCons(m, ms, v);
    } else {
      TailSorted(ms, direction);
      InsertWithVersion(m, ms[1..], direction, v);
      WithVersionCons(ms[0], Insert(m, ms[1..], direction), v);
      WithVersionCons(ms[0], ms[1..], v);
      assert ms == [ms[0]] + ms[1..];
    }
  }

  lemma WithVersionCons(a: MigrationWithAttribute, s: seq<MigrationWithAttribute>, v: int)
    ensures WithVersion([a] + s, v) == (if Version(a) == v then [a] else []) + WithVersion(s, v)
  {
    assert ([a] + s)[1..] == s;
  }

  lemma ConsSorted(a: MigrationWithAttribute, s: seq<MigrationWithAttribute>, direction: Direction)
    requires Sorted(s, direction)
    requires forall x :: x in s ==> InOrder(direction, Version(a), Version(x))
    ensures Sorted([a] + s, direction)
  {
    forall i, j | 0 <= i < j < |s| + 1
      ensures InOrder(direction, Version(([a] + s)[i]), Version(([a] + s)[j]))
    {
      assert ([a] + s)[j] == s[j - 1];
      if i > 0 {
        assert ([a] + s)[i] == s[i - 1];
      }
    }
  }

  lemma TailSorted(s: seq<MigrationWithAttribute>, direction: Direction)
    requires Sorted(s, direction) && s != []
    ensures Sorted(s[1..], direction)
  {
    forall i, j | 0 <= i < j < |s| - 1 ensures InOrder(direction, Version(s[1..][i]), Version(s[1..][j])) {
      assert s[1..][i] == s[i + 1] && s[1..][j] == s[j + 1];
    }
  }

  /** A stable sort by version in the given direction (OrderBy for Up,
      OrderByDescending for Down). */
  function OrderByVersion(ms: seq<MigrationWithAttribute>, direction: Direction): (r: seq<MigrationWithAttribute>)
    ensures Sorted(r, direction)
    ensures multiset(r) == multiset(ms)
    ensures forall v :: WithVersion(r, v) == WithVersion(ms, v)
  {
    if ms == [] then []
    else
      var rest := OrderByVersion(ms[1..], direction);
      InsertSorted(ms[0], rest, direction);
      InsertMultiset(ms[0], rest, direction);
      assert ms == [ms[0]] + ms[1..];
      assert forall v :: WithVersion(Insert(ms[0], rest, direction), v) == WithVersion(ms, v) by {
        forall v ensures WithVersion(Insert(ms[0], rest, direction), v) == WithVersion(ms, v) {
          InsertWithVersion(ms[0], rest, direction, v);
          WithVersionCons(ms[0], ms[1..], v);
        }
      }
      Insert(ms[0], rest, direction)
  }

  /** The migrations a run executes, in the order it executes them. */
  function FindAllMigrationsWithOptions(types: seq<MigrationType>, options: MigrationOptions): (r: seq<MigrationWithAttribute>)
    ensures Sorted(r, options.direction)
    ensures multiset(r) == multiset(SelectMigrations(types, options))
    ensures forall v :: WithVersion(r, v) == WithVersion(SelectMigrations(types, options), v)
    ensures forall m :: m in r <==> exists i :: 0 <= i < |types| && Keep(types[i], options) && WithAttribute(types[i]) == m
  {
    var selected := SelectMigrations(types, options);
    var r := OrderByVersion(selected, options.direction);
    assert forall m :: m in r <==> m in selected by {
      forall m ensures m in r <==> m in selected {
        assert m in r <==> m in multiset(r);
      }
    }
    r
  }

  lemma FirstIsExtreme(t: seq<MigrationWithAttribute>, direction: Direction, x: MigrationWithAttribute)
    requires Sorted(t, direction) && x in t
    ensures InOrder(direction, Version(t[0]), Version(x))
  {
    var i :| 0 <= i < |t| && t[i] == x;
    if i > 0 {
      assert InOrder(direction, Version(t[0]), Version(t[i]));
    }
  }

  lemma {:induction false} WithVersionTail(s: seq<MigrationWithAttribute>, v: int)
    requires s != []
    ensures WithVersion(s[1..], v) == if Version(s[0]) == v then WithVersion(s, v)[1..] else WithVersion(s, v)
  {
  }

  /** A sequence sorted in `direction` is determined by its per-version
      subsequences: so OrderByVersion is the only stable sort there is. */
  lemma {:induction false} SortedStableIsUnique(s: seq<MigrationWithAttribute>, t: seq<MigrationWithAttribute>, direction: Direction)
    requires Sorted(s, direction) && Sorted(t, direction)
    requires forall v :: WithVersion(s, v) == WithVersion(t, v)
    ensures s == t
    decreases |s|
  {
    if s == [] || t == [] {
      if s != [] {
        assert s == [s[0]] + s[1..];
        WithVersionCons(s[0], s[1..], Version(s[0]));
      } else if t != [] {
        assert t == [t[0]] + t[1..];
        WithVersionCons(t[0], t[1..], Version(t[0]));
      }
    } else {
      var a, b := s[0], t[0];
      var ws := WithVersion(s, Version(a));
      var wt := WithVersion(t, Version(b));
      assert ws[0] == a;
      assert wt[0] == b;
      assert WithVersion(t, Version(a))[0] in t;
      FirstIsExtreme(t, direction, WithVersion(t, Version(a))[0]);
      assert WithVersion(s, Version(b))[0] in s;
      FirstIsExtreme(s, direction, WithVersion(s, Version(b))[0]);
      assert Version(a) == Version(b);
      assert a == b;
      forall v ensures WithVersion(s[1..], v) == WithVersion(t[1..], v) {
        WithVersionTail(s, v);
        WithVersionTail(t, v);
      }
      TailSorted(s, direction);
      TailSorted(t, direction);
      SortedStableIsUnique(s[1..], t[1..], direction);
      assert s == [a] + s[1..] && t == [b] + t[1..];
    }
  }
}
