# RavenMigrations runner, modelled in Dafny

RavenMigrations applies versioned migrations to a RavenDB document store. A
migration is a type that carries a migration attribute with a version and a
list of profiles. The runner (`Runner` in `RavenMigrations/Runner.cs`) does
three things:

- It finds the candidate types that carry the attribute and belong to the
  run's profiles.
- It orders them by version: ascending for an Up run, descending for a Down
  run.
- It walks them in order. For each one it opens a session and loads the
  migration's marker document. Then it applies the migration (Up) or reverts
  it (Down), stores or deletes the marker, and commits. It stops after
  committing a migration whose version is the run's `ToVersion`.

The model has one module per stage:

- `Migrations` holds the values shared by every stage: the migration
  attribute, candidate types, options and direction.
- `Profiles` models the case-insensitive profile filter
  (`IsInCurrentMigrationProfile`).
- `Discovery` models the filter and the stable sort by version
  (`FindAllMigrationsWithOptions`).
- `Runner` models the execution loop imperatively:
  - a `DocumentStore` class holds the set of marker ids;
  - a `Session` class stages `Store`/`Delete` changes until `SaveChanges`;
  - the methods `Run` and `RunMigrations` perform the `foreach` loop, with
    its `continue` and `break`.

  The loop is proved against the specification function `Execute`. That
  function gives the marker set, the event trace, and whether the run
  stopped at `ToVersion`. The trace records Setup, the information log
  lines, the Up()/Down() calls and the commits.
- `RunnerProperties` proves what a run guarantees, as lemmas about `Execute`
  and `RunOutcome`.
- `Scenarios` works through small concrete runs.
- `ToVersionRerun` exhibits the behaviour listed under Findings. It also
  gives a loop that also checks `ToVersion` on skipped migrations, and
  proves properties of that loop.

`Runner.Run` models the loop as written. An Up run skips an applied
migration with `continue`, and that jump passes both `SaveChanges` and the
`ToVersion` check.

## Model

| member | source | states |
|---|---|---|
| Profiles.UpperAscii | RavenMigrations/Runner.cs:99 | The character fold of the ordinal case-insensitive comparer, for ASCII letters. Its characterisation is Profiles.SameFold. |
| Profiles.EqualsIgnoreCase | RavenMigrations/Runner.cs:99 | The definition of name equality under the ordinal case-insensitive comparer. It has no contract of its own. Profiles.EqualsIgnoreCaseIsEquivalence and Profiles.EqualsIgnoreCaseByCharacters give its properties. |
| Profiles.SameFold | RavenMigrations/Runner.cs:99 | Two characters compare equal under the ordinal case-insensitive comparer exactly when they are equal or are the lower- and upper-case forms of one ASCII letter. |
| Profiles.EqualsIgnoreCaseIsEquivalence | RavenMigrations/Runner.cs:99 | Case-insensitive equality of names is reflexive, symmetric and transitive, as the comparer passed to `Intersect` must be. |
| Profiles.EqualsIgnoreCaseByCharacters | RavenMigrations/Runner.cs:99 | Two names are equal ignoring case exactly when they have the same length and agree at every position up to the case of ASCII letters. |
| Profiles.ContainsIgnoreCase | RavenMigrations/Runner.cs:98-100 | True exactly when some element of the list equals the name, ignoring case. |
| Profiles.Intersect | RavenMigrations/Runner.cs:98-100 | The result's elements are run profiles that have a case-insensitive match among the migration's profiles. Every run profile with such a match is in the result. The result is non-empty exactly when some run profile has a match. |
| Profiles.IsInCurrentMigrationProfile | RavenMigrations/Runner.cs:88-101 | A migration without profiles is eligible for every run, including one with no profiles. A migration with profiles is never eligible for a run without profiles. Otherwise it is eligible exactly when some run profile equals one of its profiles, ignoring case. |
| Discovery.SelectMigrations | RavenMigrations/Runner.cs:70-80 | Every selected migration comes from a candidate that has an attribute and is in the current profile. Every such candidate is selected. No candidate without an attribute or outside the profile is selected. |
| Discovery.SelectOne | RavenMigrations/Runner.cs:79-80 | A single candidate is selected, once, exactly when it carries an attribute and is in the current profile. |
| Discovery.SelectConcat | RavenMigrations/Runner.cs:70-80 | Selecting from a + b is selecting from a followed by selecting from b. With SelectOne, this fixes that each kept candidate appears exactly once, in discovery order. |
| Discovery.InsertMultiset | RavenMigrations/Runner.cs:83-85 | One insertion step of the sort adds exactly the inserted migration. |
| Discovery.InsertSorted | RavenMigrations/Runner.cs:83-85 | Inserting into a sequence ordered for the direction keeps it ordered. |
| Discovery.InsertWithVersion | RavenMigrations/Runner.cs:83-85 | An inserted migration goes ahead of every migration of its own version and leaves the order of the others unchanged (the step that makes the sort stable). |
| Discovery.OrderByVersion | RavenMigrations/Runner.cs:82-85 | The result is ordered: non-decreasing versions for Up, non-increasing for Down. It is a permutation of the input. Migrations of equal version keep their input order. |
| Discovery.FindAllMigrationsWithOptions | RavenMigrations/Runner.cs:68-86 | The migrations a run executes are ordered by version for the run's direction and are a permutation of the eligible candidates. The sort is stable on ties. A migration is in the result exactly when it comes from a candidate with an attribute that is in the current profile. |
| Discovery.SortedStableIsUnique | RavenMigrations/Runner.cs:82-85 | Two sequences ordered in the same direction that have the same subsequence for every version are equal, so the stable sort's result is determined. |
| Runner.LogLine.Text | RavenMigrations/Runner.cs:38-51 | The definition of the rendered information line: the migration's name, then ": Up migration " or ": Down migration ", then "started" or "completed". It has no contract of its own. Runner.TextIdentifiesLine gives its property. |
| Runner.TextIdentifiesLine | RavenMigrations/Runner.cs:38-51 | Two information lines have the same text exactly when they are the same line. The migration's name, the direction, and "started" or "completed" can all be read back from the text. |
| Runner.Execute | RavenMigrations/Runner.cs:21-60 | The definition of the loop as written: marker set, event trace and stop flag. It has no contract of its own. Runner.RunMigrations is proved equal to it. RunnerProperties.MarkerBounds, ExecuteConcat, UpRunWithoutStop, DownRunWithoutStop, UpInvokesUnapplied, StopsAtToVersion, AppliedToVersionDoesNotStop and LogBracketsEachInvocation give its properties. |
| Runner.RunOutcome | RavenMigrations/Runner.cs:19-21 | The definition of a whole run: discovery, then the loop over its result. It has no contract of its own. Runner.Run is proved equal to it. RunnerProperties.DownRunRevertsNewestFirst and UpThenDownRestores give its properties. |
| Runner.Session.Load | RavenMigrations/Runner.cs:33 | The marker document is found exactly when its id is in the store. |
| Runner.Session.Delete | RavenMigrations/Runner.cs:40 | A deletion of the marker is staged in the session and nothing else changes. |
| Runner.Session.Store | RavenMigrations/Runner.cs:50 | A new marker with the migration's id is staged in the session and nothing else changes. |
| Runner.Session.SaveChanges | RavenMigrations/Runner.cs:55 | The staged changes are applied to the store in order and the session has nothing left staged. |
| Runner.Run | RavenMigrations/Runner.cs:11-61 | A whole run leaves the store with the markers, and produces the event trace, that discovery followed by the loop specifies. |
| Runner.RunMigrations | RavenMigrations/Runner.cs:21-60 | The loop over the ordered migrations leaves the store and the trace as `Execute` specifies. This covers the skip of applied migrations in Up runs, the unconditional Down, one commit per migrated item and the stop after the ToVersion commit. |
| Runner.SkipStep | RavenMigrations/Runner.cs:44-46 | An Up iteration whose marker exists only resolves and sets up the migration. Then it moves on without committing or checking ToVersion. |
| Runner.MigrateStep | RavenMigrations/Runner.cs:35-58 | A migrated item adds (Up) or removes (Down) its marker, records its log lines, call and commit, and ends the run exactly when its version is ToVersion. |
| Runner.FinishedStep | RavenMigrations/Runner.cs:21-60 | A loop that reaches the end of the sequence has produced the outcome of the whole sequence. |
| RunnerProperties.MarkerBounds | RavenMigrations/Runner.cs:35-55 | An Up run only adds markers of the migrations it runs, and a Down run only removes them. Every other marker is unchanged. A run that stops has a ToVersion. |
| RunnerProperties.ExecuteConcat | RavenMigrations/Runner.cs:55-58 | Running a + b is running a, then b from the store a left behind, unless a stopped at ToVersion. In that case nothing of b is processed. |
| RunnerProperties.AppliedUpRunIsNoop | RavenMigrations/Runner.cs:43-46 | An Up run over migrations that are all applied calls no Up(), commits nothing, leaves the store as it was and does not stop. |
| RunnerProperties.UpRunWithoutStop | RavenMigrations/Runner.cs:43-55 | Consider an Up run in which every migration of version ToVersion is already applied when reached (in particular, a run with no such migration). It processes the whole sequence, does not stop, and leaves exactly the old markers plus the migrations' ids. |
| RunnerProperties.DownRunWithoutStop | RavenMigrations/Runner.cs:37-42 | A Down run that reaches no ToVersion calls Down() on every migration, in order, whether or not its marker exists. It leaves exactly the old markers minus the migrations' ids. |
| RunnerProperties.UpRunIsIdempotent | RavenMigrations/Runner.cs:43-55 | Suppose the first Up run migrates no ToVersion migration (every one it reaches is already applied, or there is none). Then running Up a second time over the store it left calls no Up() and leaves the same markers. ToVersionRerun.RerunPassesToVersion shows the other case. |
| RunnerProperties.UpInvokesUnapplied | RavenMigrations/Runner.cs:43-52 | Consider an Up run, over migrations with distinct ids, that migrates no ToVersion migration (every one it reaches is already applied, or there is none). It calls Up() exactly once on each migration that had no marker, in order, and on no other. |
| RunnerProperties.StopsAtToVersion | RavenMigrations/Runner.cs:43-58 | The first ToVersion migration that is migrated ends the run, including one that follows skipped, already-applied migrations of the same version. The outcome is that of the prefix up to it, and no later migration is processed. The store then holds the prefix's markers (Up) or lacks them (Down). Down() has been called on the whole prefix in order. Up() has been called on the prefix's migrations that had no marker, in order, given distinct ids. |
| RunnerProperties.AppliedToVersionDoesNotStop | RavenMigrations/Runner.cs:43-58 | In an Up run, a ToVersion migration whose marker already exists does not stop the run, and the migrations after it are run. |
| RunnerProperties.LogBracketsEachInvocation | RavenMigrations/Runner.cs:37-55 | Every Up() or Down() call comes after the migration's Setup and its "started" line. Its "completed" line and then the commit follow it. |
| RunnerProperties.SelectIgnoresDirection | RavenMigrations/Runner.cs:70-80 | Which candidates are eligible depends on the profiles and not on the direction. |
| RunnerProperties.DownRunRevertsNewestFirst | RavenMigrations/Runner.cs:11-61 | A Down run without ToVersion reverts every eligible migration, highest version first, and removes all their markers. |
| RunnerProperties.UpThenDownRestores | RavenMigrations/Runner.cs:11-61 | An Up run then a Down run with the same profiles and no ToVersion restore the original store, when none of the eligible migrations was applied before. |
| Scenarios.ProfileEligibility | RavenMigrations/Runner.cs:88-101 | A "prod" migration is eligible under "PROD". It is not eligible under no profile or under "test". A migration without profiles is eligible under "prod". |
| Scenarios.SelectWithoutProfiles | RavenMigrations/Runner.cs:70-80 | With no run profiles, the profile-restricted candidate is dropped. |
| Scenarios.SelectUnderProd | RavenMigrations/Runner.cs:70-80 | Under "PROD", all three candidates are kept. |
| Scenarios.FindWithoutProfiles | RavenMigrations/Runner.cs:68-86 | The kept versions 1 and 3 are ordered ascending for Up. |
| Scenarios.FindUnderProd | RavenMigrations/Runner.cs:68-86 | Versions 1, 2 and 3 are ordered descending for Down. |
| Scenarios.UpWithoutProfiles | RavenMigrations/Runner.cs:11-61 | An Up run with no profiles over an empty store applies versions 1 and 3, in that order, and leaves their two markers. |
| Scenarios.DownUnderProd | RavenMigrations/Runner.cs:11-61 | A Down run under "PROD" reverts versions 3, 2 and 1, in that order, and leaves no marker. |
| Scenarios.SecondToVersionMigrationStops | RavenMigrations/Runner.cs:43-58 | Two migrations of version ToVersion, the first already applied: the run skips the first, migrates and commits the second, and stops before version 3. |
| ToVersionRerun.RerunPassesToVersion | RavenMigrations/Runner.cs:43-58 | Over versions 1, 2 and 3 with ToVersion 2, the first Up run applies 1 and 2. A second identical run applies 3. |
| ToVersionRerun.CorrectedStopsAtToVersion | RavenMigrations/Runner.cs:55-58 | With the ToVersion check applied to skipped migrations too, the first ToVersion migration reached always ends the run, whatever the store holds. |
| ToVersionRerun.CorrectedUpOnlyAdds | RavenMigrations/Runner.cs:43-55 | Up runs of the corrected loop only add markers. |
| ToVersionRerun.CorrectedUpRunIsIdempotent | RavenMigrations/Runner.cs:43-58 | In the corrected loop, running Up twice with the same options is idempotent for every ToVersion: the second run calls no Up() and changes no marker. |
| ToVersionRerun.CorrectedAgreesWithoutStop | RavenMigrations/Runner.cs:43-58 | When no migration has version ToVersion, the corrected loop and the loop as written give the same outcome. |

## Left out

- Reflection-based discovery is not modelled (lines 16-17, 71-77): the calling assembly, `GetLoadableTypes`, `IsAssignableFrom` and `GetMigrationAttribute`. The candidates are a given sequence of migration types. Each has a name, a marker id and an optional attribute.
- The defaulting of a null `options` (lines 13-14) is not modelled: the options are always given. `MigrationOptions` is not part of this model. `ToVersion` is modelled as an optional version, with no value meaning "run to completion".
- `GetMigrationIdFromName` and the store's identity separator (lines 28-29) are not part of this model. The marker id is a field of the migration.
- The resolver and dependency-injection hook (line 76) and the bodies of `Setup`, `Up` and `Down` are user code. They are modelled as events in the trace.
- The logger is modelled only as the information lines the runner writes. `RavenMigrations/ILogger.cs` has no logic.
- RavenDB client mechanics are reduced to one set of marker ids: the document store, session lifetime and document contents.
- Runner.Session.Delete: deleting a marker that was not loaded (`Delete(null)` in a Down run with no marker) is modelled as removing an absent id, which changes nothing. What the client does in that case, and any exception it raises, is outside the model.
- Exceptions and transaction rollback are not modelled: every step of a run completes.
- Concurrent runs against the same store are not modelled.
- Profiles.UpperAscii: case-insensitive comparison folds ASCII letters only, not full Unicode case.
- Profiles.Intersect: LINQ `Intersect` also removes duplicates from its result. The model keeps them, because the runner only asks whether the intersection is empty.
- Versions are unbounded integers rather than the source's integer width. The runner only compares them, so nothing overflows.
- RunnerProperties.UpInvokesUnapplied: requires distinct marker ids. With a repeated id, the second occurrence is skipped once the first has stored the marker. It also covers only runs that migrate no ToVersion migration. For a run that stops, RunnerProperties.StopsAtToVersion gives the Up() and Down() calls.

## Findings

| source | as written | input that shows it | evidently intended | confidence | as-written member | corrected member |
|---|---|---|---|---|---|---|
| RavenMigrations/Runner.cs:44-58 | In an Up run, a migration whose marker exists is skipped with `continue`, which also skips the `ToVersion` check after `SaveChanges`. | Versions 1, 2 and 3, ToVersion 2, run Up twice on an empty store. The first run applies 1 and 2 and stops; the second skips 1 and 2, does not stop, and applies 3. | A run to version 2 never goes past version 2, so repeating it changes nothing. | medium, not executed | ToVersionRerun.RerunPassesToVersion | ToVersionRerun.CorrectedUpRunIsIdempotent |

The corrected loop is `ToVersionRerun.ExecuteStoppingAtToVersion`. It
applies the `ToVersion` check to every migration reached, skipped or not.
`ToVersionRerun.CorrectedStopsAtToVersion` proves it never looks past the
first ToVersion migration. `ToVersionRerun.CorrectedAgreesWithoutStop`
proves it agrees with the loop as written whenever no ToVersion migration is
reached. `Runner.Run` and the properties in `RunnerProperties` describe the
loop as written, since that is what the runner does.
