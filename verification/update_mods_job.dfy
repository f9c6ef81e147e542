/** UpdateModsCronJob: the nightly job that updates every installed mod, but
    only when usable Steam credentials are stored. Its one effect is a call of
    WorkshopInstallerService.updateAllMods, so the job is modelled as the list
    of calls it makes. */
module UpdateModsJob {
  import opened Lang
  import opened Entities

  /** The stored credentials (JsonDbService<SteamAuth>): records by account id. */
  type AuthDb<K> = map<K, SteamAuth>

  /** The credential gate: the record under the default account must exist and
      have a username and a password (null checks only). */
  predicate CanUpdate<K>(authDb: AuthDb<K>, defaultAccountId: K) {
    defaultAccountId in authDb
    && authDb[defaultAccountId].username.Some?
    && authDb[defaultAccountId].password.Some?
  }

  /** refreshMods: the updateAllMods calls one run of the job makes. */
  function RefreshMods<K>(authDb: AuthDb<K>, defaultAccountId: K): (calls: seq<SteamAuth>)
    ensures |calls| <= 1
    ensures calls != [] <==> CanUpdate(authDb, defaultAccountId)
    ensures forall c :: c in calls ==> defaultAccountId in authDb && c == authDb[defaultAccountId]
  {
    var auth := if defaultAccountId in authDb then Some(authDb[defaultAccountId]) else None;
    if auth.Some? && auth.value.username.Some? && auth.value.password.Some? then [auth.value] else []
  }

  /** Only the default account's record is looked at: stores that agree on it
      lead to the same calls, whatever other accounts they hold. */
  lemma OnlyDefaultAccountMatters<K>(a: AuthDb<K>, b: AuthDb<K>, defaultAccountId: K)
    requires defaultAccountId in a <==> defaultAccountId in b
    requires defaultAccountId in a ==> a[defaultAccountId] == b[defaultAccountId]
    ensures RefreshMods(a, defaultAccountId) == RefreshMods(b, defaultAccountId)
  {
  }

  /** Presence is all that is checked: empty strings pass, and the Steam Guard
      token plays no part. */
  lemma EmptyCredentialsPass<K>(authDb: AuthDb<K>, defaultAccountId: K, token: Option<string>)
    requires authDb == map[defaultAccountId := SteamAuth(Some(""), Some(""), token)]
    ensures RefreshMods(authDb, defaultAccountId) == [SteamAuth(Some(""), Some(""), token)]
  {
  }

  /** A missing password or username keeps the job from running even when the
      other credential and a guard token are present. */
  lemma MissingCredentialBlocks<K>(auth: SteamAuth, defaultAccountId: K)
    requires auth.username.None? || auth.password.None?
    ensures RefreshMods(map[defaultAccountId := auth], defaultAccountId) == []
  {
  }
}
