/** What a run of the migration runner guarantees, stated about Execute (the
    loop over ordered migrations) and RunOutcome (discovery, then the loop). */
module RunnerProperties {
  import opened Migrations
  import opened Discovery
  import opened Runner

  /** The migrations whose Up() or Down() was called, in call order. */
  function Invoked(events: seq<Event>): seq<MigrationWithAttribute>
  {
    if events == [] then []
    else if events[0].InvokedUp? || events[0].InvokedDown? then [events[0].migration] + Invoked(events[1..])
    else Invoked(events[1..])
  }

  /** No migration of `ms` has the version a run is asked to stop at. */
  predicate NoStop(ms: seq<MigrationWithAttribute>, toVersion: Option<int>)
  {
    forall i :: 0 <= i < |ms| ==> toVersion != Some(Version(ms[i]))
  }

  /** Every migration of `ms` whose version is ToVersion is skipped: the run is
      Up and its marker is in the store before the run or was stored earlier
      in it. So the run never stops in `ms`. NoStopSkipsEveryStop shows that
      a sequence without ToVersion migrations meets it. */
  predicate SkipsEveryStop(markers: set<string>, options: MigrationOptions, ms: seq<MigrationWithAttribute>)
  {
    forall i :: 0 <= i < |ms| && options.toVersion == Some(Version(ms[i])) ==>
      options.direction == Up && ms[i].id in markers + Ids(ms[..i])
  }

  predicate DistinctIds(ms: seq<MigrationWithAttribute>)
  {
    forall i, j :: 0 <= i < j < |ms| ==> ms[i].id != ms[j].id
  }

  /** The migrations of `ms` that have no marker in `markers`, in order. */
  function Unapplied(ms: seq<MigrationWithAttribute>, markers: set<string>): seq<MigrationWithAttribute>
  {
    if ms == [] then []
    else if ms[0].id in markers then Unapplied(ms[1..], markers)
    else [ms[0]] + Unapplied(ms[1..], markers)
  }

  /** Every call to Up() or Down() is preceded by the migration's Setup and
      its "started" line, and followed by its "completed" line and then the
      commit of its session. */
  ghost predicate Bracketed(events: seq<Event>)
  {
    forall k :: 0 <= k < |events| ==> BracketedAt(events, k)
  }

  ghost predicate BracketedAt(events: seq<Event>, k: nat)
    requires k < |events|
  {
    (events[k].InvokedUp? || events[k].InvokedDown?) ==>
      var d := if events[k].InvokedDown? then Down else Up;
      1 < k && k + 2 < |events| &&
      events[k - 2] == Setup(events[k].migration) &&
      events[k - 1] == Information(Started(events[k].migration.name, d)) &&
      events[k + 1] == Information(Completed(events[k].migration.name, d)) &&
      events[k + 2] == Committed
  }

  // ---------------------------------------------------------------------
  // Small facts about the helpers

  lemma {:induction false} InvokedConcat(a: seq<Event>, b: seq<Event>)
    ensures Invoked(a + b) == Invoked(a) + Invoked(b)
    decreases |a|
  {
    if a == [] {
      assert a + b == b;
    } else {
      assert (a + b)[1..] == a[1..] + b;
      InvokedConcat(a[1..], b);
    }
  }

  lemma InvokedOfStep(m: MigrationWithAttribute, d: Direction)
    ensures Invoked([Setup(m)]) == []
    ensures Invoked([Setup(m)] + Migrate(m, d)) == [m]
  {
    var s := [Setup(m)] + Migrate(m, d);
    assert Invoked(s[4..]) == [] by {
      assert s[4..][1..] == [];
    }
    assert Invoked(s[3..]) == [] by {
      assert s[3..][1..] == s[4..];
    }
    assert Invoked(s[2..]) == [m] by {
      assert s[2..][1..] == s[3..];
    }
    assert Invoked(s[1..]) == [m] by {
      assert s[1..][1..] == s[2..];
    }
  }

  lemma {:induction false} IdsConcat(a: seq<MigrationWithAttribute>, b: seq<MigrationWithAttribute>)
    ensures Ids(a + b) == Ids(a) + Ids(b)
    decreases |a|
  {
    if a == [] {
      assert a + b == b;
    } else {
      assert (a + b)[1..] == a[1..] + b;
      IdsConcat(a[1..], b);
    }
  }

  lemma NoStopTail(ms: seq<MigrationWithAttribute>, toVersion: Option<int>)
    requires ms != [] && NoStop(ms, toVersion)
    ensures NoStop(ms[1..], toVersion) && toVersion != Some(Version(ms[0]))
  {
    forall i | 0 <= i < |ms| - 1 ensures toVersion != Some(Version(ms[1..][i])) {
      assert ms[1..][i] == ms[i + 1];
    }
  }

  /** A run without ToVersion migrations skips every stop, so the lemmas
      stated with SkipsEveryStop cover runs that reach no ToVersion at all. */
  lemma NoStopSkipsEveryStop(markers: set<string>, options: MigrationOptions, ms: seq<MigrationWithAttribute>)
    requires NoStop(ms, options.toVersion)
    ensures SkipsEveryStop(markers, options, ms)
  {
  }

  /** A Down run skips every stop only when it has no ToVersion migration. */
  lemma SkipsEveryStopDown(markers: set<string>, options: MigrationOptions, ms: seq<MigrationWithAttribute>)
    requires options.direction == Down && SkipsEveryStop(markers, options, ms)
    ensures NoStop(ms, options.toVersion)
  {
  }

  /** The rest of a run that skips every stop skips every stop, from the store
      its first migration leaves. */
  lemma SkipsEveryStopTail(markers: set<string>, options: MigrationOptions, ms: seq<MigrationWithAttribute>)
    requires ms != [] && options.direction == Up && SkipsEveryStop(markers, options, ms)
    ensures SkipsEveryStop(markers + {ms[0].id}, options, ms[1..])
    ensures options.toVersion == Some(Version(ms[0])) ==> ms[0].id in markers
  {
    assert ms[..0] == [];
    var tail := ms[1..];
    forall i | 0 <= i < |tail| && options.toVersion == Some(Version(tail[i]))
      ensures tail[i].id in markers + {ms[0].id} + Ids(tail[..i])
    {
      assert tail[i] == ms[i + 1];
      assert ms[..i + 1] == [ms[0]] + tail[..i];
      IdsConcat([ms[0]], tail[..i]);
      assert [ms[0]][1..] == [];
    }
  }

  lemma {:induction false} UnappliedConcat(a: seq<MigrationWithAttribute>, b: seq<MigrationWithAttribute>, markers: set<string>)
    ensures Unapplied(a + b, markers) == Unapplied(a, markers) + Unapplied(b, markers)
    decreases |a|
  {
    if a == [] {
      assert a + b == b;
    } else {
      assert (a + b)[0] == a[0] && (a + b)[1..] == a[1..] + b;
      UnappliedConcat(a[1..], b, markers);
    }
  }

  // ---------------------------------------------------------------------
  // The loop over ordered migrations

  /** Up only adds markers and Down only removes them, and only markers of
      the migrations run: every other marker is left exactly as it was. A
      run that stops has a ToVersion. */
  lemma {:induction false} MarkerBounds(markers: set<string>, options: MigrationOptions, ms: seq<MigrationWithAttribute>)
    ensures var r := Execute(markers, options, ms);
      && (options.direction == Up ==> markers <= r.markers <= markers + Ids(ms))
      && (options.direction == Down ==> markers - Ids(ms) <= r.markers <= markers)
      && (forall id :: id !in Ids(ms) ==> (id in r.markers <==> id in markers))
      && (r.stopped ==> options.toVersion.Some?)
    decreases |ms|
  {
    if ms != [] {
      var m := ms[0];
      var after := if options.direction == Down then markers - {m.id} else markers + {m.id};
      if options.direction == Up && m.id in markers {
        MarkerBounds(markers, options, ms[1..]);
      } else if options.toVersion != Some(Version(m)) {
        MarkerBounds(after, options, ms[1..]);
      }
    }
  }

  /** Running `a + b` is running `a`, then, unless `a` stopped at ToVersion,
      running `b` from the store `a` left behind. So nothing after the
      migration that stops a run is processed. */
  lemma {:induction false} ExecuteConcat(markers: set<string>, options: MigrationOptions,
                                         a: seq<MigrationWithAttribute>, b: seq<MigrationWithAttribute>)
    ensures var ra := Execute(markers, options, a);
      Execute(markers, options, a + b) ==
        if ra.stopped then ra else Prepend(ra.events, Execute(ra.markers, options, b))
    decreases |a|
  {
    if a == [] {
      assert a + b == b;
    } else {
      var m := a[0];
      assert (a + b)[0] == m && (a + b)[1..] == a[1..] + b;
      var after := if options.direction == Down then markers - {m.id} else markers + {m.id};
      if options.direction == Up && m.id in markers {
        ExecuteConcat(markers, options, a[1..], b);
        var rest := Execute(markers, options, a[1..]);
        PrependTwice([Setup(m)], rest.events, Execute(rest.markers, options, b));
      } else if options.toVersion != Some(Version(m)) {
        ExecuteConcat(after, options, a[1..], b);
        var rest := Execute(after, options, a[1..]);
        PrependTwice([Setup(m)] + Migrate(m, options.direction), rest.events, Execute(rest.markers, options, b));
      }
    }
  }

  /** An Up run over migrations that are all applied calls no Up(), commits
      nothing, leaves the store as it is and does not stop. */
  lemma {:induction false} AppliedUpRunIsNoop(markers: set<string>, options: MigrationOptions, ms: seq<MigrationWithAttribute>)
    requires options.direction == Up && Ids(ms) <= markers
    ensures var r := Execute(markers, options, ms);
      && r.markers == markers
      && !r.stopped
      && Invoked(r.events) == []
      && (forall k :: 0 <= k < |r.events| ==> r.events[k].Setup?)
    decreases |ms|
  {
    if ms != [] {
      AppliedUpRunIsNoop(markers, options, ms[1..]);
      var rest := Execute(markers, options, ms[1..]);
      InvokedConcat([Setup(ms[0])], rest.events);
      InvokedOfStep(ms[0], Up);
    }
  }

  /** An Up run that migrates no ToVersion migration processes the whole
      sequence and leaves every migration's marker in the store, and no
      other new marker. */
  lemma {:induction false} UpRunWithoutStop(markers: set<string>, options: MigrationOptions, ms: seq<MigrationWithAttribute>)
    requires options.direction == Up && SkipsEveryStop(markers, options, ms)
    ensures Execute(markers, options, ms).markers == markers + Ids(ms)
    ensures !Execute(markers, options, ms).stopped
    decreases |ms|
  {
    if ms != [] {
      SkipsEveryStopTail(markers, options, ms);
      if ms[0].id in markers {
        assert markers + {ms[0].id} == markers;
        UpRunWithoutStop(markers, options, ms[1..]);
      } else {
        UpRunWithoutStop(markers + {ms[0].id}, options, ms[1..]);
      }
    }
  }

  /** A Down run that reaches no ToVersion calls Down() on every migration,
      in order, whether or not its marker exists, and removes every one of
      their markers. */
  lemma {:induction false} DownRunWithoutStop(markers: set<string>, options: MigrationOptions, ms: seq<MigrationWithAttribute>)
    requires options.direction == Down && NoStop(ms, options.toVersion)
    ensures Execute(markers, options, ms).markers == markers - Ids(ms)
    ensures Invoked(Execute(markers, options, ms).events) == ms
    ensures !Execute(markers, options, ms).stopped
    decreases |ms|
  {
    if ms != [] {
      NoStopTail(ms, options.toVersion);
      DownRunWithoutStop(markers - {ms[0].id}, options, ms[1..]);
      var rest := Execute(markers - {ms[0].id}, options, ms[1..]);
      InvokedConcat([Setup(ms[0])] + Migrate(ms[0], Down), rest.events);
      InvokedOfStep(ms[0], Down);
      assert ms == [ms[0]] + ms[1..];
    }
  }

  /** Running Up twice, when the first run migrates no ToVersion
      migration: the second run calls no Up() and leaves the same markers as
      the first. */
  lemma UpRunIsIdempotent(markers: set<string>, options: MigrationOptions, ms: seq<MigrationWithAttribute>)
    requires options.direction == Up && SkipsEveryStop(markers, options, ms)
    ensures var first := Execute(markers, options, ms);
      var second := Execute(first.markers, options, ms);
      second.markers == first.markers && Invoked(second.events) == []
  {
    UpRunWithoutStop(markers, options, ms);
    AppliedUpRunIsNoop(Execute(markers, options, ms).markers, options, ms);
  }

  lemma {:induction false} UnappliedIgnores(ms: seq<MigrationWithAttribute>, markers: set<string>, id: string)
    requires id !in Ids(ms)
    ensures Unapplied(ms, markers + {id}) == Unapplied(ms, markers)
    decreases |ms|
  {
    if ms != [] {
      UnappliedIgnores(ms[1..], markers, id);
    }
  }

  /** With distinct marker ids, an Up run that migrates no ToVersion
      migration calls Up() exactly once on each migration that had no
      marker, in order, and on no other. */
  lemma {:induction false} UpInvokesUnapplied(markers: set<string>, options: MigrationOptions, ms: seq<MigrationWithAttribute>)
    requires options.direction == Up && SkipsEveryStop(markers, options, ms) && DistinctIds(ms)
    ensures Invoked(Execute(markers, options, ms).events) == Unapplied(ms, markers)
    decreases |ms|
  {
    if ms != [] {
      SkipsEveryStopTail(markers, options, ms);
      assert DistinctIds(ms[1..]) by {
        forall i, j | 0 <= i < j < |ms| - 1 ensures ms[1..][i].id != ms[1..][j].id {
          assert ms[1..][i] == ms[i + 1] && ms[1..][j] == ms[j + 1];
        }
      }
      var m := ms[0];
      if m.id in markers {
        assert markers + {m.id} == markers;
        UpInvokesUnapplied(markers, options, ms[1..]);
        InvokedConcat([Setup(m)], Execute(markers, options, ms[1..]).events);
        InvokedOfStep(m, Up);
      } else {
        UpInvokesUnapplied(markers + {m.id}, options, ms[1..]);
        InvokedConcat([Setup(m)] + Migrate(m, Up), Execute(markers + {m.id}, options, ms[1..]).events);
        InvokedOfStep(m, Up);
        assert m.id !in Ids(ms[1..]);
        UnappliedIgnores(ms[1..], markers, m.id);
      }
    }
  }

  /** The first ToVersion migration that the run migrates ends the run. For
      Down that is the first of that version. For Up it is the first whose
      marker is absent; every earlier one of that version is skipped. The
      outcome is that of the prefix up to and including it. The store holds
      the prefix's markers (Up) or lacks them (Down). The run has called
      Down() on the whole prefix, in order (Down), or Up() on the prefix's
      migrations that had no marker, in order (Up, with distinct ids). */
  lemma StopsAtToVersion(markers: set<string>, options: MigrationOptions, ms: seq<MigrationWithAttribute>, k: nat)
    requires k < |ms| && options.toVersion == Some(Version(ms[k])) && SkipsEveryStop(markers, options, ms[..k])
    requires options.direction == Down || ms[k].id !in markers + Ids(ms[..k])
    ensures var r := Execute(markers, options, ms[..k + 1]);
      && Execute(markers, options, ms) == r
      && r.stopped
      && r.markers == (if options.direction == Down then markers - Ids(ms[..k + 1]) else markers + Ids(ms[..k + 1]))
      && (options.direction == Down ==> Invoked(r.events) == ms[..k + 1])
      && (options.direction == Up && DistinctIds(ms[..k + 1]) ==> Invoked(r.events) == Unapplied(ms[..k + 1], markers))
  {
    var m := ms[k];
    assert ms[..k + 1] == ms[..k] + [m];
    assert ms == ms[..k + 1] + ms[k + 1..];
    assert [m][1..] == [];
    var before := Execute(markers, options, ms[..k]);
    if options.direction == Down {
      SkipsEveryStopDown(markers, options, ms[..k]);
      DownRunWithoutStop(markers, options, ms[..k]);
    } else {
      UpRunWithoutStop(markers, options, ms[..k]);
    }
    ExecuteConcat(markers, options, ms[..k], [m]);
    ExecuteConcat(markers, options, ms[..k + 1], ms[k + 1..]);
    IdsConcat(ms[..k], [m]);
    var last := Execute(before.markers, options, [m]);
    assert last.events == [Setup(m)] + Migrate(m, options.direction);
    InvokedOfStep(m, options.direction);
    InvokedConcat(before.events, last.events);
    if options.direction == Up && DistinctIds(ms[..k + 1]) {
      assert DistinctIds(ms[..k]) by {
        forall i, j | 0 <= i < j < k ensures ms[..k][i].id != ms[..k][j].id {
          assert ms[..k][i] == ms[..k + 1][i] && ms[..k][j] == ms[..k + 1][j];
        }
      }
      UpInvokesUnapplied(markers, options, ms[..k]);
      UnappliedConcat(ms[..k], [m], markers);
    }
  }

  /** The subtlety of the Up branch: a migration of version ToVersion whose
      marker already exists is skipped before the ToVersion check, so the
      run does not stop there and goes on with the migrations after it. */
  lemma AppliedToVersionDoesNotStop(markers: set<string>, options: MigrationOptions, ms: seq<MigrationWithAttribute>, k: nat)
    requires options.direction == Up && k < |ms| && SkipsEveryStop(markers, options, ms[..k])
    requires options.toVersion == Some(Version(ms[k])) && ms[k].id in markers + Ids(ms[..k])
    ensures !Execute(markers, options, ms[..k + 1]).stopped
    ensures Execute(markers, options, ms) ==
              Prepend(Execute(markers, options, ms[..k + 1]).events, Execute(markers + Ids(ms[..k + 1]), options, ms[k + 1..]))
  {
    assert ms[..k + 1] == ms[..k] + [ms[k]];
    assert ms == ms[..k + 1] + ms[k + 1..];
    UpRunWithoutStop(markers, options, ms[..k]);
    ExecuteConcat(markers, options, ms[..k], [ms[k]]);
    ExecuteConcat(markers, options, ms[..k + 1], ms[k + 1..]);
    IdsConcat(ms[..k], [ms[k]]);
    var applied := markers + Ids(ms[..k]);
    assert [ms[k]][1..] == [];
    assert Execute(applied, options, [ms[k]]) == Prepend([Setup(ms[k])], Outcome(applied, [], false));
    assert applied == markers + Ids(ms[..k + 1]);
  }

  lemma BracketedConcat(a: seq<Event>, b: seq<Event>)
    requires Bracketed(a) && Bracketed(b)
    ensures Bracketed(a + b)
  {
    var c := a + b;
    forall k | 0 <= k < |c| ensures BracketedAt(c, k) {
      if k < |a| {
        assert c[k] == a[k];
        assert BracketedAt(a, k);
        if a[k].InvokedUp? || a[k].InvokedDown? {
          assert c[k - 2] == a[k - 2] && c[k - 1] == a[k - 1] && c[k + 1] == a[k + 1] && c[k + 2] == a[k + 2];
        }
      } else {
        var j := k - |a|;
        assert c[k] == b[j];
        assert BracketedAt(b, j);
        if b[j].InvokedUp? || b[j].InvokedDown? {
          assert c[k - 2] == b[j - 2] && c[k - 1] == b[j - 1] && c[k + 1] == b[j + 1] && c[k + 2] == b[j + 2];
        }
      }
    }
  }

  /** In every run, each Up() or Down() call sits between the migration's
      "started" and "completed" lines, and both come before its commit. */
  lemma {:induction false} LogBracketsEachInvocation(markers: set<string>, options: MigrationOptions, ms: seq<MigrationWithAttribute>)
    ensures Bracketed(Execute(markers, options, ms).events)
    decreases |ms|
  {
    if ms != [] {
      var m := ms[0];
      var after := if options.direction == Down then markers - {m.id} else markers + {m.id};
      var step := [Setup(m)] + Migrate(m, options.direction);
      assert Bracketed(step);
      assert Bracketed([Setup(m)]);
      if options.direction == Up && m.id in markers {
        LogBracketsEachInvocation(markers, options, ms[1..]);
        BracketedConcat([Setup(m)], Execute(markers, options, ms[1..]).events);
      } else if options.toVersion != Some(Version(m)) {
        LogBracketsEachInvocation(after, options, ms[1..]);
        BracketedConcat(step, Execute(after, options, ms[1..]).events);
      }
    }
  }

  // ---------------------------------------------------------------------
  // Whole runs: discovery, then the loop

  lemma {:induction false} SelectIgnoresDirection(types: seq<MigrationType>, o1: MigrationOptions, o2: MigrationOptions)
    requires o1.profiles == o2.profiles
    ensures SelectMigrations(types, o1) == SelectMigrations(types, o2)
    decreases |types|
  {
    if types != [] {
      SelectIgnoresDirection(types[1..], o1, o2);
    }
  }

  lemma IdsOfPermutation(a: seq<MigrationWithAttribute>, b: seq<MigrationWithAttribute>)
    requires multiset(a) == multiset(b)
    ensures Ids(a) == Ids(b)
  {
    forall id | id in Ids(a) ensures id in Ids(b) {
      var i :| 0 <= i < |a| && a[i].id == id;
      assert a[i] in multiset(b);
    }
    forall id | id in Ids(b) ensures id in Ids(a) {
      var i :| 0 <= i < |b| && b[i].id == id;
      assert b[i] in multiset(a);
    }
  }

  /** A Down run without ToVersion reverts every eligible migration, newest
      version first, and removes all their markers. */
  lemma DownRunRevertsNewestFirst(markers: set<string>, options: MigrationOptions, types: seq<MigrationType>)
    requires options.direction == Down && options.toVersion == None
    ensures var ms := FindAllMigrationsWithOptions(types, options);
      var r := RunOutcome(markers, options, types);
      && Invoked(r.events) == ms
      && Sorted(Invoked(r.events), Down)
      && r.markers == markers - Ids(ms)
  {
    DownRunWithoutStop(markers, options, FindAllMigrationsWithOptions(types, options));
  }

  /** Up then Down, over the same candidates and profiles and without
      ToVersion, gives back the store the Up run started from, provided
      none of the eligible migrations was applied before. */
  lemma UpThenDownRestores(markers: set<string>, profiles: seq<string>, types: seq<MigrationType>)
    requires Ids(FindAllMigrationsWithOptions(types, MigrationOptions(Up, profiles, None))) !! markers
    ensures var up := MigrationOptions(Up, profiles, None);
      var down := MigrationOptions(Down, profiles, None);
      RunOutcome(RunOutcome(markers, up, types).markers, down, types).markers == markers
  {
    var up := MigrationOptions(Up, profiles, None);
    var down := MigrationOptions(Down, profiles, None);
    var upMs := FindAllMigrationsWithOptions(types, up);
    var downMs := FindAllMigrationsWithOptions(types, down);
    SelectIgnoresDirection(types, up, down);
    IdsOfPermutation(upMs, downMs);
    NoStopSkipsEveryStop(markers, up, upMs);
    UpRunWithoutStop(markers, up, upMs);
    DownRunWithoutStop(markers + Ids(upMs), down, downMs);
  }
}
