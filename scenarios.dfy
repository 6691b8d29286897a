/** Whole runs over three migration types of versions 1, 2 and 3, the second
    restricted to the "prod" profile. */
module Scenarios {
  import opened Migrations
  import opened Profiles
  import opened Discovery
  import opened Runner
  import opened RunnerProperties

  function Types(): seq<MigrationType>
  {
    [MigrationType("First", "1", Some(MigrationAttribute(1, []))),
     MigrationType("Second", "2", Some(MigrationAttribute(2, ["prod"]))),
     MigrationType("Third", "3", Some(MigrationAttribute(3, [])))]
  }

  const First := MigrationWithAttribute("First", "1", MigrationAttribute(1, []))
  const Second := MigrationWithAttribute("Second", "2", MigrationAttribute(2, ["prod"]))
  const Third := MigrationWithAttribute("Third", "3", MigrationAttribute(3, []))

  /** A migration restricted to "prod" is eligible under "PROD" and not when
      the run names no profile or another one; an unrestricted one is
      eligible under any profiles. */
  lemma ProfileEligibility()
    ensures IsInCurrentMigrationProfile(MigrationAttribute(2, ["prod"]), MigrationOptions(Up, ["PROD"], None))
    ensures !IsInCurrentMigrationProfile(MigrationAttribute(2, ["prod"]), MigrationOptions(Up, [], None))
    ensures !IsInCurrentMigrationProfile(MigrationAttribute(2, ["prod"]), MigrationOptions(Up, ["test"], None))
    ensures IsInCurrentMigrationProfile(MigrationAttribute(1, []), MigrationOptions(Up, ["prod"], None))
  {
    assert UpperAscii('p') == 'P' && UpperAscii('r') == 'R' && UpperAscii('o') == 'O' && UpperAscii('d') == 'D';
    assert EqualsIgnoreCase("PROD", "prod");
    assert !EqualsIgnoreCase("test", "prod") by {
      assert UpperAscii("test"[0]) == 'T';
    }
  }

  /** Without profiles, discovery keeps the first and the third type. */
  lemma SelectWithoutProfiles(direction: Direction)
    ensures SelectMigrations(Types(), MigrationOptions(direction, [], None)) == [First, Third]
  {
    var options := MigrationOptions(direction, [], None);
    var ts := Types();
    assert Keep(ts[0], options) && !Keep(ts[1], options) && Keep(ts[2], options);
    assert ts[1..][1..] == [ts[2]] && ts[1..][1..][1..] == [];
    assert SelectMigrations(ts[1..][1..][1..], options) == [];
    assert SelectMigrations(ts[1..][1..], options) == [Third];
    assert SelectMigrations(ts[1..], options) == [Third];
  }

  lemma KeepsProdUnderProd(direction: Direction)
    ensures Keep(Types()[1], MigrationOptions(direction, ["PROD"], None))
  {
    var options := MigrationOptions(direction, ["PROD"], None);
    assert UpperAscii('p') == 'P' && UpperAscii('r') == 'R' && UpperAscii('o') == 'O' && UpperAscii('d') == 'D';
    assert EqualsIgnoreCase(options.profiles[0], Second.attribute.profiles[0]);
  }

  /** Under "PROD", discovery keeps all three types. */
  lemma SelectUnderProd(direction: Direction)
    ensures SelectMigrations(Types(), MigrationOptions(direction, ["PROD"], None)) == [First, Second, Third]
  {
    var options := MigrationOptions(direction, ["PROD"], None);
    var ts := Types();
    KeepsProdUnderProd(direction);
    assert Keep(ts[0], options) && Keep(ts[2], options);
    assert ts[1..][1..] == [ts[2]] && ts[1..][1..][1..] == [];
    assert SelectMigrations(ts[1..][1..][1..], options) == [];
    assert SelectMigrations(ts[1..][1..], options) == [Third];
    assert SelectMigrations(ts[1..], options) == [Second, Third];
  }

  /** Discovery orders the first and the third type ascending for Up. */
  lemma FindWithoutProfiles()
    ensures FindAllMigrationsWithOptions(Types(), MigrationOptions(Up, [], None)) == [First, Third]
  {
    var options := MigrationOptions(Up, [], None);
    SelectWithoutProfiles(Up);
    var r := FindAllMigrationsWithOptions(Types(), options);
    SortedStableIsUnique(r, [First, Third], Up);
  }

  lemma WithVersionOfThree(a: MigrationWithAttribute, b: MigrationWithAttribute, c: MigrationWithAttribute, v: int)
    ensures WithVersion([a, b, c], v) ==
      (if Version(a) == v then [a] else []) + (if Version(b) == v then [b] else []) + (if Version(c) == v then [c] else [])
  {
    assert [a, b, c] == [a] + [b, c] && [b, c] == [b] + [c] && [c] == [c] + [];
    WithVersionCons(a, [b, c], v);
    WithVersionCons(b, [c], v);
    WithVersionCons(c, [], v);
  }

  lemma NewestFirstIsSorted()
    ensures Sorted([Third, Second, First], Down)
  {
    var ms := [Third, Second, First];
    forall i, j | 0 <= i < j < 3 ensures InOrder(Down, Version(ms[i]), Version(ms[j])) {
      assert Version(ms[i]) == 3 - i && Version(ms[j]) == 3 - j;
    }
  }

  /** Discovery orders all three types descending for Down under "PROD". */
  lemma FindUnderProd()
    ensures FindAllMigrationsWithOptions(Types(), MigrationOptions(Down, ["PROD"], None)) == [Third, Second, First]
  {
    var options := MigrationOptions(Down, ["PROD"], None);
    SelectUnderProd(Down);
    var r := FindAllMigrationsWithOptions(Types(), options);
    forall v ensures WithVersion(r, v) == WithVersion([Third, Second, First], v) {
      WithVersionOfThree(First, Second, Third, v);
      WithVersionOfThree(Third, Second, First, v);
    }
    NewestFirstIsSorted();
    SortedStableIsUnique(r, [Third, Second, First], Down);
  }

  lemma UpOverFirstAndThird()
    ensures var r := Execute({}, MigrationOptions(Up, [], None), [First, Third]);
      r.markers == {"1", "3"} && Invoked(r.events) == [First, Third]
  {
    var options := MigrationOptions(Up, [], None);
    var ms := [First, Third];
    assert ms == [First] + [Third] && [Third] == [Third] + [];
    IdsConcat([First], [Third]);
    assert Ids(ms) == {"1", "3"};
    assert Unapplied([Third], {}) == [Third];
    assert Unapplied(ms, {}) == ms;
    UpInvokesUnapplied({}, options, ms);
    UpRunWithoutStop({}, options, ms);
  }

  /** Without profiles, an Up run over an empty store applies the first and
      the third migration, in that order, and leaves their two markers. */
  lemma UpWithoutProfiles()
    ensures var r := RunOutcome({}, MigrationOptions(Up, [], None), Types());
      r.markers == {"1", "3"} && Invoked(r.events) == [First, Third]
  {
    FindWithoutProfiles();
    UpOverFirstAndThird();
  }

  lemma DownOverAll()
    ensures var r := Execute({"1", "2", "3"}, MigrationOptions(Down, ["PROD"], None), [Third, Second, First]);
      r.markers == {} && Invoked(r.events) == [Third, Second, First]
  {
    var ms := [Third, Second, First];
    assert ms == [Third] + [Second] + [First];
    IdsConcat([Third], [Second]);
    IdsConcat([Third] + [Second], [First]);
    assert Ids(ms) == {"1", "2", "3"};
    DownRunWithoutStop({"1", "2", "3"}, MigrationOptions(Down, ["PROD"], None), ms);
  }

  /** Under "PROD", a Down run from a store holding all three markers
      reverts the third, the second and the first migration, in that order,
      and leaves no marker. */
  lemma DownUnderProd()
    ensures var r := RunOutcome({"1", "2", "3"}, MigrationOptions(Down, ["PROD"], None), Types());
      r.markers == {} && Invoked(r.events) == [Third, Second, First]
  {
    var options := MigrationOptions(Down, ["PROD"], None);
    FindUnderProd();
    DownOverAll();
    assert RunOutcome({"1", "2", "3"}, options, Types()) == Execute({"1", "2", "3"}, options, [Third, Second, First]);
  }

  /** Two migrations of version ToVersion, the first already applied: the
      run skips the first, migrates the second, stops there and never
      reaches version 3. */
  lemma SecondToVersionMigrationStops()
    ensures var a := MigrationWithAttribute("A", "a", MigrationAttribute(2, []));
      var b := MigrationWithAttribute("B", "b", MigrationAttribute(2, []));
      var c := MigrationWithAttribute("C", "c", MigrationAttribute(3, []));
      var r := Execute({"a"}, MigrationOptions(Up, [], Some(2)), [a, b, c]);
      r.stopped && r.markers == {"a", "b"} && Invoked(r.events) == [b]
  {
    var a := MigrationWithAttribute("A", "a", MigrationAttribute(2, []));
    var b := MigrationWithAttribute("B", "b", MigrationAttribute(2, []));
    var c := MigrationWithAttribute("C", "c", MigrationAttribute(3, []));
    var ms := [a, b, c];
    var options := MigrationOptions(Up, [], Some(2));
    assert ms[..1] == [a] && ms[..0] == [] && ms[..2] == [a, b];
    assert [a][1..] == [] && [a, b][1..] == [b] && [b][1..] == [];
    assert Ids([a]) == {"a"};
    assert SkipsEveryStop({"a"}, options, ms[..1]);
    assert DistinctIds(ms[..2]);
    assert Ids([a, b]) == {"a", "b"};
    assert "b" !in {"a"};
    assert Unapplied([b], {"a"}) == [b];
    assert Unapplied([a, b], {"a"}) == [b];
    StopsAtToVersion({"a"}, options, ms, 1);
  }
}
