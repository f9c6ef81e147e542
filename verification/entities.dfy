/** The persisted records the provisioning pipeline reads and writes: the
    stored Steam credentials and the workshop mod record. Their Java classes
    are plain data holders with getters and setters; here they are values,
    and a setter call is a record update. */
module Entities {
  import opened Lang

  /** SteamAuth: login name, password and an optional one-time Steam Guard
      code; any of them may be null. */
  datatype SteamAuth = SteamAuth(
    username: Option<string>,
    password: Option<string>,
    steamGuardToken: Option<string>)

  /** WorkshopMod as stored in the mod database. The id is a boxed Long and can
      be null. */
  datatype WorkshopMod = WorkshopMod(
    id: Option<Long>,
    name: Option<string>,
    installed: bool,
    lastUpdated: Option<string>,
    fileSize: Option<Long>)

  /** `new WorkshopMod(id)` followed by `setName(name)`: every other field keeps
      its Java default. */
  function NewWorkshopMod(id: Option<Long>, name: Option<string>): (m: WorkshopMod)
    ensures m.id == id && m.name == name && !m.installed
    ensures m.lastUpdated.None? && m.fileSize.None?
  {
    WorkshopMod(id, name, false, None, None)
  }

  /** The mod database (JsonDbService<WorkshopMod>): records by id. */
  type ModDb = map<Option<Long>, WorkshopMod>

  /** Every record is stored under its own id, as JsonDbService.save does. */
  predicate KeyedById(db: ModDb) {
    forall k :: k in db ==> db[k].id == k
  }

  /** A second save under the same id replaces the first. */
  lemma SaveTwice(db: ModDb, id: Option<Long>, first: WorkshopMod, second: WorkshopMod)
    ensures db[id := first][id := second] == db[id := second]
  {
  }

  lemma LogTwice(log: seq<WorkshopMod>, first: WorkshopMod, second: WorkshopMod)
    ensures log + [first] + [second] == log + [first, second]
  {
  }

  lemma AppendOne<T>(a: seq<T>, b: seq<T>, x: T)
    ensures a + b + [x] == a + (b + [x])
  {
  }
}
