/** An Up run that is asked to stop at ToVersion stops only after committing a
    migration of that version. When that migration's marker already exists,
    the Up branch leaves the iteration before the ToVersion check, so a second
    Up run with the same ToVersion goes on past it and applies later
    migrations. This module exhibits that on the loop as written (Execute)
    and defines and proves the loop with the check applied to skipped
    migrations too. */
module ToVersionRerun {
  import opened Migrations
  import opened Runner
  import opened RunnerProperties

  /** Running to version 2 twice over versions 1, 2 and 3: the first run
      applies 1 and 2, the second applies 3. */
  lemma RerunPassesToVersion()
    ensures var m1 := MigrationWithAttribute("First", "1", MigrationAttribute(1, []));
      var m2 := MigrationWithAttribute("Second", "2", MigrationAttribute(2, []));
      var m3 := MigrationWithAttribute("Third", "3", MigrationAttribute(3, []));
      var options := MigrationOptions(Up, [], Some(2));
      var first := Execute({}, options, [m1, m2, m3]);
      var second := Execute(first.markers, options, [m1, m2, m3]);
      && first.markers == {"1", "2"}
      && Invoked(first.events) == [m1, m2]
      && second.markers == {"1", "2", "3"}
      && Invoked(second.events) == [m3]
  {
    var m1 := MigrationWithAttribute("First", "1", MigrationAttribute(1, []));
    var m2 := MigrationWithAttribute("Second", "2", MigrationAttribute(2, []));
    var m3 := MigrationWithAttribute("Third", "3", MigrationAttribute(3, []));
    var options := MigrationOptions(Up, [], Some(2));
    var ms := [m1, m2, m3];
    assert ms == [m1, m2] + [m3];
    assert [m1, m2] == [m1] + [m2];
    ExecuteConcat({}, options, [m1, m2], [m3]);
    ExecuteConcat({}, options, [m1], [m2]);
    InvokedOfStep(m1, Up);
    InvokedOfStep(m2, Up);
    InvokedOfStep(m3, Up);
    var r1 := Execute({}, options, [m1]);
    assert r1 == Outcome({"1"}, [Setup(m1)] + Migrate(m1, Up), false);
    var r2 := Execute({"1"}, options, [m2]);
    assert r2 == Outcome({"1", "2"}, [Setup(m2)] + Migrate(m2, Up), true);
    InvokedConcat(r1.events, r2.events);
    var first := Execute({}, options, ms);
    assert first == Prepend(r1.events, r2);
    ExecuteConcat({"1", "2"}, options, [m1, m2], [m3]);
    ExecuteConcat({"1", "2"}, options, [m1], [m2]);
    var s1 := Execute({"1", "2"}, options, [m1]);
    assert s1 == Outcome({"1", "2"}, [Setup(m1)], false);
    var s2 := Execute({"1", "2"}, options, [m2]);
    assert s2 == Outcome({"1", "2"}, [Setup(m2)], false);
    var s3 := Execute({"1", "2"}, options, [m3]);
    assert s3 == Outcome({"1", "2", "3"}, [Setup(m3)] + Migrate(m3, Up), false);
    InvokedConcat(s1.events, s2.events);
    InvokedConcat(s1.events + s2.events, s3.events);
  }

  /** The loop with the ToVersion check applied to every migration reached,
      whether it was migrated or skipped. */
  function ExecuteStoppingAtToVersion(markers: set<string>, options: MigrationOptions, ms: seq<MigrationWithAttribute>): Outcome
    decreases |ms|
  {
    if ms == [] then Outcome(markers, [], false)
    else
      var m := ms[0];
      var stop := options.toVersion == Some(Version(m));
      if options.direction == Up && m.id in markers then
        if stop then Outcome(markers, [Setup(m)], true)
        else Prepend([Setup(m)], ExecuteStoppingAtToVersion(markers, options, ms[1..]))
      else
        var after := if options.direction == Down then markers - {m.id} else markers + {m.id};
        var events := [Setup(m)] + Migrate(m, options.direction);
        if stop then Outcome(after, events, true)
        else Prepend(events, ExecuteStoppingAtToVersion(after, options, ms[1..]))
  }

  /** The corrected loop never looks past the first migration of version
      ToVersion, whatever the store holds. */
  lemma {:induction false} CorrectedStopsAtToVersion(markers: set<string>, options: MigrationOptions,
                                                      ms: seq<MigrationWithAttribute>, k: nat)
    requires k < |ms| && options.toVersion == Some(Version(ms[k])) && NoStop(ms[..k], options.toVersion)
    ensures ExecuteStoppingAtToVersion(markers, options, ms) == ExecuteStoppingAtToVersion(markers, options, ms[..k + 1])
    ensures ExecuteStoppingAtToVersion(markers, options, ms).stopped
    decreases k
  {
    var m := ms[0];
    assert ms[..k + 1][0] == m;
    if k > 0 {
      assert ms[..k][0] == m;
      var tail := ms[1..][..k - 1];
      assert NoStop(tail, options.toVersion) by {
        forall i | 0 <= i < k - 1 ensures options.toVersion != Some(Version(tail[i])) {
          assert tail[i] == ms[..k][i + 1];
        }
      }
      assert ms[..k + 1][1..] == ms[1..][..k];
      var after := if options.direction == Down then markers - {m.id} else markers + {m.id};
      CorrectedStopsAtToVersion(markers, options, ms[1..], k - 1);
      CorrectedStopsAtToVersion(after, options, ms[1..], k - 1);
    }
  }

  /** Up runs of the corrected loop only add markers. */
  lemma {:induction false} CorrectedUpOnlyAdds(markers: set<string>, options: MigrationOptions, ms: seq<MigrationWithAttribute>)
    requires options.direction == Up
    ensures markers <= ExecuteStoppingAtToVersion(markers, options, ms).markers
    decreases |ms|
  {
    if ms != [] {
      CorrectedUpOnlyAdds(markers, options, ms[1..]);
      CorrectedUpOnlyAdds(markers + {ms[0].id}, options, ms[1..]);
    }
  }

  /** With the check on every migration reached, running Up twice with the
      same options is idempotent for every ToVersion: the second run calls
      no Up() and leaves the markers as the first run left them. */
  lemma {:induction false} CorrectedUpRunIsIdempotent(markers: set<string>, options: MigrationOptions, ms: seq<MigrationWithAttribute>)
    requires options.direction == Up
    ensures var first := ExecuteStoppingAtToVersion(markers, options, ms);
      var second := ExecuteStoppingAtToVersion(first.markers, options, ms);
      second.markers == first.markers && Invoked(second.events) == []
    decreases |ms|
  {
    if ms != [] {
      var m := ms[0];
      InvokedOfStep(m, Up);
      var base := if m.id in markers then markers else markers + {m.id};
      if options.toVersion != Some(Version(m)) {
        CorrectedUpRunIsIdempotent(base, options, ms[1..]);
        var rest := ExecuteStoppingAtToVersion(base, options, ms[1..]);
        CorrectedUpOnlyAdds(base, options, ms[1..]);
        assert m.id in rest.markers;
        InvokedConcat([Setup(m)], ExecuteStoppingAtToVersion(rest.markers, options, ms[1..]).events);
      }
    }
  }

  /** Where no migration has the ToVersion, the corrected loop and the loop
      as written agree. */
  lemma {:induction false} CorrectedAgreesWithoutStop(markers: set<string>, options: MigrationOptions, ms: seq<MigrationWithAttribute>)
    requires NoStop(ms, options.toVersion)
    ensures ExecuteStoppingAtToVersion(markers, options, ms) == Execute(markers, options, ms)
    decreases |ms|
  {
    if ms != [] {
      NoStopTail(ms, options.toVersion);
      var m := ms[0];
      var after := if options.direction == Down then markers - {m.id} else markers + {m.id};
      CorrectedAgreesWithoutStop(markers, options, ms[1..]);
      CorrectedAgreesWithoutStop(after, options, ms[1..]);
    }
  }
}
