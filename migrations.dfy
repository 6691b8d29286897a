/** Values shared by every stage of the migration runner: the metadata a
    migration type declares, the options of one run, and the direction. */
module Migrations {

  datatype Option<+T> = None | Some(value: T)

  /** The two directions of a run; any direction other than Down is handled as Up. */
  datatype Direction = Up | Down

  /** The migration attribute attached to a migration type: its version and the
      profiles it belongs to (empty means "every profile"). */
  datatype MigrationAttribute = MigrationAttribute(version: int, profiles: seq<string>)

  /** A candidate migration type found by discovery. `name` is the type's name
      (used in log lines), `id` the marker document id derived from it, and
      `attribute` is None when the type carries no migration attribute. */
  datatype MigrationType = MigrationType(name: string, id: string, attribute: Option<MigrationAttribute>)

  /** A candidate that carries its migration attribute. */
  datatype MigrationWithAttribute = MigrationWithAttribute(name: string, id: string, attribute: MigrationAttribute)

  /** What one run is asked to do. `toVersion` is None when the run is not
      asked to stop early. */
  datatype MigrationOptions = MigrationOptions(direction: Direction, profiles: seq<string>, toVersion: Option<int>)

  function Version(m: MigrationWithAttribute): int
  {
    m.attribute.version
  }
}
