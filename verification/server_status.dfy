/** ServerStatus.from: the status snapshot shown for a running server, built
    from the answer of a Source-engine server query (or its absence). */
module ServerStatusModel {
  import opened Lang

  /** The three things `from` reads of the query library's SourceServer. */
  datatype SourceServer = SourceServer(
    numOfPlayers: Int,
    mapName: Option<string>,
    gameDescription: Option<string>)

  datatype ServerStatus = ServerStatus(
    isServerUp: bool,
    playersOnline: Int,
    mapName: Option<string>,
    gameDescription: Option<string>)

  /** `from(sourceServer)`: None is a null query answer. */
  function From(source: Option<SourceServer>): (status: ServerStatus)
    ensures status.isServerUp <==> source.Some?
    ensures source.None? ==> status.playersOnline == 0 && status.mapName.None? && status.gameDescription.None?
    ensures source.Some? ==> status.playersOnline == source.value.numOfPlayers
    ensures source.Some? ==> status.mapName == source.value.mapName && status.gameDescription == source.value.gameDescription
  {
    if source.None? then ServerStatus(false, 0, None, None)
    else ServerStatus(true, source.value.numOfPlayers, source.value.mapName, source.value.gameDescription)
  }

  /** Reads back the query answer a status was made from. */
  function Answer(status: ServerStatus): Option<SourceServer>
  {
    if status.isServerUp then Some(SourceServer(status.playersOnline, status.mapName, status.gameDescription))
    else None
  }

  /** The snapshot loses nothing `from` reads: the answer is recovered from it,
      so different answers give different snapshots. */
  lemma StatusKeepsAnswer(source: Option<SourceServer>)
    ensures Answer(From(source)) == source
  {
  }

  /** A server that is down is reported like an empty one that is up, except
      for the up flag. */
  lemma DownDiffersOnlyInFlag()
    ensures From(None) == From(Some(SourceServer(0, None, None))).(isServerUp := false)
  {
  }
}
