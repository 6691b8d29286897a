/** The execution loop of the migration runner. A document store holds one
    marker document per applied migration; a run walks the migrations that
    discovery returns and, for each, opens a session, loads the marker,
    applies (Up) or reverts (Down) the migration, stages the marker change
    and commits it. Calls into migration code (Setup, Up, Down) and log
    lines are recorded as a sequence of events. */
module Runner {
  import opened Migrations
  import opened Discovery

  /** What a run does that can be observed outside the store. */
  datatype Event =
    | Setup(migration: MigrationWithAttribute)        // the instance was resolved and Setup called
    | Information(line: LogLine)                      // an informational log line
    | InvokedUp(migration: MigrationWithAttribute)    // Up() was called
    | InvokedDown(migration: MigrationWithAttribute)  // Down() was called
    | Committed                                       // the session's changes were saved

  /** The two informational lines the runner writes for a migration, kept
      structured; Text gives the line as the logger receives it. */
  datatype LogLine = Started(name: string, direction: Direction) | Completed(name: string, direction: Direction)
  {
    function Text(): string
    {
      name + Tail()
    }

    /** What follows the migration's name in the line. */
    function Tail(): string
    {
      var verb := if direction == Down then ": Down migration " else ": Up migration ";
      match this
      case Started(_, _) => verb + "started"
      case Completed(_, _) => verb + "completed"
    }
  }

  /** The text of a log line tells which line it is: the migration's name,
      the direction, and whether the migration started or completed. */
  lemma TextIdentifiesLine(l1: LogLine, l2: LogLine)
    ensures l1.Text() == l2.Text() <==> l1 == l2
  {
    if l1.Text() == l2.Text() {
      var t1, t2 := l1.Tail(), l2.Tail();
      if |t1| <= |t2| {
        EndsWith(l1.name, t1, l2.name, t2);
      } else {
        EndsWith(l2.name, t2, l1.name, t1);
      }
      if |t1| <= |t2| {
        TailEndsOnlyItself(l1, l2);
      } else {
        TailEndsOnlyItself(l2, l1);
      }
      assert l1.name == (l1.name + t1)[..|l1.name|];
      assert l2.name == (l2.name + t2)[..|l2.name|];
    }
  }

  /** No line's tail ends with another line's tail: they differ in the
      last word or, for one word, at the start of the shorter tail. */
  lemma TailEndsOnlyItself(l1: LogLine, l2: LogLine)
    requires |l1.Tail()| <= |l2.Tail()| && l2.Tail()[|l2.Tail()| - |l1.Tail()|..] == l1.Tail()
    ensures l1.Tail() == l2.Tail()
    ensures l1.Started? == l2.Started? && l1.direction == l2.direction
  {
    var s, t := l1.Tail(), l2.Tail();
    assert s[|s| - 7] == t[|t| - 7];
    assert s[0] == t[|t| - |s|];
    assert s[2] == t[|t| - |s| + 2];
  }

  lemma EndsWith(a: string, s: string, b: string, t: string)
    requires a + s == b + t && |s| <= |t|
    ensures t[|t| - |s|..] == s
  {
    forall i | 0 <= i < |s| ensures t[|t| - |s|..][i] == s[i] {
      assert (a + s)[|a| + i] == s[i];
      assert (b + t)[|b| + |t| - |s| + i] == t[|t| - |s| + i];
    }
  }

  /** The events of one migration the run does not skip, after its Setup. */
  function Migrate(m: MigrationWithAttribute, direction: Direction): seq<Event>
  {
    [Information(Started(m.name, direction)),
     if direction == Down then InvokedDown(m) else InvokedUp(m),
     Information(Completed(m.name, direction)),
     Committed]
  }

  /** The marker ids of a sequence of migrations. */
  function Ids(ms: seq<MigrationWithAttribute>): (r: set<string>)
    ensures forall i :: 0 <= i < |ms| ==> ms[i].id in r
    ensures forall id :: id in r ==> exists i :: 0 <= i < |ms| && ms[i].id == id
  {
    if ms == [] then {} else {ms[0].id} + Ids(ms[1..])
  }

  /** The state a run leaves behind: the marker ids in the store, the events
      in order, and whether the run stopped at its ToVersion. */
  datatype Outcome = Outcome(markers: set<string>, events: seq<Event>, stopped: bool)

  function Prepend(events: seq<Event>, o: Outcome): Outcome
  {
    Outcome(o.markers, events + o.events, o.stopped)
  }

  /** The outcome of running the ordered migrations `ms` against a store
      holding `markers`. An Up run skips a migration whose marker exists,
      without committing and without looking at ToVersion; every other
      migration is migrated, its marker added (Up) or removed (Down), the
      change committed, and the run stops if its version is ToVersion. */
  function Execute(markers: set<string>, options: MigrationOptions, ms: seq<MigrationWithAttribute>): Outcome
    decreases |ms|
  {
    if ms == [] then Outcome(markers, [], false)
    else
      var m := ms[0];
      if options.direction == Up && m.id in markers then
        Prepend([Setup(m)], Execute(markers, options, ms[1..]))
      else
        var after := if options.direction == Down then markers - {m.id} else markers + {m.id};
        var events := [Setup(m)] + Migrate(m, options.direction);
        if options.toVersion == Some(Version(m)) then Outcome(after, events, true)
        else Prepend(events, Execute(after, options, ms[1..]))
  }

  /** The outcome of a whole run: discovery, then execution. */
  function RunOutcome(markers: set<string>, options: MigrationOptions, types: seq<MigrationType>): Outcome
  {
    Execute(markers, options, FindAllMigrationsWithOptions(types, options))
  }

  /** A change staged in a session. */
  datatype Change = StoreMarker(id: string) | DeleteMarker(id: string)

  function ApplyChanges(markers: set<string>, changes: seq<Change>): (r: set<string>)
    decreases |changes|
  {
    if changes == [] then markers
    else
      var next := match changes[0]
        case StoreMarker(id) => markers + {id}
        case DeleteMarker(id) => markers - {id};
      ApplyChanges(next, changes[1..])
  }

  /** The document store, reduced to the ids of its marker documents. */
  class DocumentStore {
    var markers: set<string>

    constructor (markers: set<string>)
      ensures this.markers == markers
    {
      this.markers := markers;
    }
  }

  /** A unit of work against the store: changes are staged and reach the
      store only when SaveChanges is called. */
  class Session {
    const store: DocumentStore
    var pending: seq<Change>

    constructor (store: DocumentStore)
      ensures this.store == store && pending == []
    {
      this.store := store;
      pending := [];
    }

    /** Whether the marker document `id` exists. */
    method Load(id: string) returns (found: bool)
      ensures found <==> id in store.markers
    {
      found := id in store.markers;
    }

    method Delete(id: string)
      modifies this
      ensures pending == old(pending) + [DeleteMarker(id)]
    {
      pending := pending + [DeleteMarker(id)];
    }

    method Store(id: string)
      modifies this
      ensures pending == old(pending) + [StoreMarker(id)]
    {
      pending := pending + [StoreMarker(id)];
    }

    method SaveChanges()
      modifies this, store
      ensures store.markers == ApplyChanges(old(store.markers), old(pending))
      ensures pending == []
    {
      store.markers := ApplyChanges(store.markers, pending);
      pending := [];
    }
  }

  /** One run of the migrations among `types` against `store`. */
  method Run(store: DocumentStore, options: MigrationOptions, types: seq<MigrationType>) returns (events: seq<Event>)
    modifies store
    ensures store.markers == RunOutcome(old(store.markers), options, types).markers
    ensures events == RunOutcome(old(store.markers), options, types).events
  {
    var migrations := FindAllMigrationsWithOptions(types, options);
    events := RunMigrations(store, options, migrations);
  }

  /** The loop of Run over the migrations discovery returned, in order. */
  method RunMigrations(store: DocumentStore, options: MigrationOptions, migrations: seq<MigrationWithAttribute>) returns (events: seq<Event>)
    modifies store
    ensures store.markers == Execute(old(store.markers), options, migrations).markers
    ensures events == Execute(old(store.markers), options, migrations).events
  {
    ghost var initial := store.markers;
    events := [];
    for i := 0 to |migrations|
      invariant Progress(initial, options, migrations, i, store.markers, events)
    {
      var migration := migrations[i];
      ghost var before := store.markers;
      ghost var soFar := events;
      events := events + [Setup(migration)];
      var session := new Session(store);
      var applied := session.Load(migration.id);
      match options.direction {
        case Down =>
          events := events + [Information(Started(migration.name, Down)), InvokedDown(migration)];
          session.Delete(migration.id);
          events := events + [Information(Completed(migration.name, Down))];
        case Up =>
          if applied {
            SkipStep(initial, options, migrations, i, before, soFar);
            continue;
          }
          events := events + [Information(Started(migration.name, Up)), InvokedUp(migration)];
          session.Store(migration.id);
          events := events + [Information(Completed(migration.name, Up))];
      }
      assert events == soFar + [Setup(migration)] + Migrate(migration, options.direction)[..3];
      session.SaveChanges();
      events := events + [Committed];
      MigrateStep(initial, options, migrations, i, before, soFar, store.markers, events);
      if options.toVersion == Some(Version(migration)) {
        break;
      }
    }
    if !Execute(initial, options, migrations).stopped {
      FinishedStep(initial, options, migrations, store.markers, events);
    }
  }

  /** The loop of RunMigrations has handled `ms[..i]`: what remains to be done
      is Execute over `ms[i..]` from the current store. */
  ghost predicate Progress(initial: set<string>, options: MigrationOptions, ms: seq<MigrationWithAttribute>, i: nat,
                           markers: set<string>, events: seq<Event>)
  {
    i <= |ms| && Prepend(events, Execute(markers, options, ms[i..])) == Execute(initial, options, ms)
  }

  lemma SkipStep(initial: set<string>, options: MigrationOptions, ms: seq<MigrationWithAttribute>, i: nat,
                  markers: set<string>, events: seq<Event>)
    requires i < |ms| && Progress(initial, options, ms, i, markers, events)
    requires options.direction == Up && ms[i].id in markers
    ensures Progress(initial, options, ms, i + 1, markers, events + [Setup(ms[i])])
  {
    assert ms[i..][0] == ms[i] && ms[i..][1..] == ms[i + 1..];
    PrependTwice(events, [Setup(ms[i])], Execute(markers, options, ms[i + 1..]));
  }

  lemma MigrateStep(initial: set<string>, options: MigrationOptions, ms: seq<MigrationWithAttribute>, i: nat,
                     markers: set<string>, events: seq<Event>, markers': set<string>, events': seq<Event>)
    requires i < |ms| && Progress(initial, options, ms, i, markers, events)
    requires !(options.direction == Up && ms[i].id in markers)
    requires markers' == if options.direction == Down then markers - {ms[i].id} else markers + {ms[i].id}
    requires events' == events + [Setup(ms[i])] + Migrate(ms[i], options.direction)[..3] + [Committed]
    ensures options.toVersion == Some(Version(ms[i])) ==>
              markers' == Execute(initial, options, ms).markers && events' == Execute(initial, options, ms).events
    ensures options.toVersion != Some(Version(ms[i])) ==> Progress(initial, options, ms, i + 1, markers', events')
  {
    assert ms[i..][0] == ms[i] && ms[i..][1..] == ms[i + 1..];
    var step := [Setup(ms[i])] + Migrate(ms[i], options.direction);
    assert events' == events + step;
    PrependTwice(events, step, Execute(markers', options, ms[i + 1..]));
  }

  lemma FinishedStep(initial: set<string>, options: MigrationOptions, ms: seq<MigrationWithAttribute>,
                       markers: set<string>, events: seq<Event>)
    requires Progress(initial, options, ms, |ms|, markers, events)
    ensures markers == Execute(initial, options, ms).markers && events == Execute(initial, options, ms).events
  {
    assert ms[|ms|..] == [];
  }

  lemma PrependTwice(a: seq<Event>, b: seq<Event>, o: Outcome)
    ensures Prepend(a + b, o) == Prepend(a, Prepend(b, o))
  {
    assert (a + b) + o.events == a + (b + o.events);
  }
}
