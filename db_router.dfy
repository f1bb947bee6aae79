/** The database router for the legacy-migration app: its models are read
    from the legacy database, never written, and migrated only there;
    every other app is written to and migrated on the default database.
    A result of `None` leaves the decision to the next router or to the
    framework's default. */
module DbRouter {
  import opened Common

  const DEFAULT_DB: string := "default"
  const LEGACY_DB: string := "legacy"
  const LEGACY_APP_LABELS: set<string> := {"legacy_migration"}

  /** The databases between whose objects relations are allowed. */
  const ROUTED_DBS: set<string> := {DEFAULT_DB, LEGACY_DB}

  /** `db_for_read`, given the model's app label. */
  function DbForRead(appLabel: string): (r: Option<string>)
    ensures r.Some? <==> appLabel in LEGACY_APP_LABELS
    ensures r.Some? ==> r.value == LEGACY_DB
  {
    if appLabel in LEGACY_APP_LABELS then Some(LEGACY_DB) else None
  }

  /** `db_for_write`, given the model's app label. */
  function DbForWrite(appLabel: string): (r: Option<string>)
    ensures r.None? <==> appLabel in LEGACY_APP_LABELS
    ensures r.Some? ==> r.value == DEFAULT_DB
  {
    if appLabel in LEGACY_APP_LABELS then None else Some(DEFAULT_DB)
  }

  /** `allow_relation`, given the databases the two objects were loaded from
      (`None` for an object not yet saved). */
  function AllowRelation(db1: Option<string>, db2: Option<string>): (r: Option<bool>)
    ensures r.Some? ==> r.value
    ensures r.Some? <==> db1.Some? && db1.value in ROUTED_DBS && db2.Some? && db2.value in ROUTED_DBS
  {
    if db1.Some? && db1.value in ROUTED_DBS && db2.Some? && db2.value in ROUTED_DBS then Some(true) else None
  }

  /** `allow_migrate`. */
  function AllowMigrate(db: string, appLabel: string): bool
  {
    if appLabel in LEGACY_APP_LABELS then db == LEGACY_DB else db == DEFAULT_DB
  }

  /** The router never sends a write to the legacy database, and never
      sends a legacy model's read anywhere else. */
  lemma LegacyNeverWritten(appLabel: string)
    ensures DbForWrite(appLabel) != Some(LEGACY_DB)
    ensures DbForRead(appLabel).Some? ==> DbForWrite(appLabel).None?
    ensures DbForRead(appLabel).None? ==> DbForWrite(appLabel) == Some(DEFAULT_DB)
  {
  }

  /** Every app is migrated on exactly one database: the legacy app on the
      legacy database, every other app on the default one. */
  lemma MigrateOnExactlyOne(appLabel: string)
    ensures forall db :: AllowMigrate(db, appLabel) <==>
      db == (if appLabel in LEGACY_APP_LABELS then LEGACY_DB else DEFAULT_DB)
    ensures AllowMigrate(DEFAULT_DB, appLabel) != AllowMigrate(LEGACY_DB, appLabel)
  {
  }

  /** Where a model is read from explicitly, it is also migrated: a routed
      read and the migration go to the same database. */
  lemma ReadsWhereMigrated(appLabel: string)
    ensures DbForRead(appLabel).Some? ==> AllowMigrate(DbForRead(appLabel).value, appLabel)
    ensures DbForWrite(appLabel).Some? ==> AllowMigrate(DbForWrite(appLabel).value, appLabel)
  {
  }

  /** The relation decision does not depend on the order of the objects. */
  lemma RelationSymmetric(db1: Option<string>, db2: Option<string>)
    ensures AllowRelation(db1, db2) == AllowRelation(db2, db1)
  {
  }
}
