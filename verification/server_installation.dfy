/** ServerInstallationService: looks up the installation record of a server
    type in the installation repository. ServerType and the record class are
    not part of this model: the service is generic over the type of server
    types, and a record is kept down to its type and installation status. */
module ServerInstallations {
  /** InstallationStatus: the service only ever compares with FINISHED; the
      other constants are kept by name. */
  datatype InstallationStatus = FINISHED | NotFinished(name: string)

  datatype ServerInstallation<T> = ServerInstallation(serverType: T, installationStatus: InstallationStatus)

  /** ServerInstallationRepository: records by server type. */
  type Repository<T> = map<T, ServerInstallation<T>>

  /** A value or the NotFoundException raised for a missing server type. */
  datatype Result<T, V> = Ok(value: V) | NotFound(missing: T)

  /** getServerInstallation: findById, or NotFound naming the type. */
  function GetServerInstallation<T>(repo: Repository<T>, serverType: T): (r: Result<T, ServerInstallation<T>>)
    ensures r.Ok? <==> serverType in repo
    ensures r.Ok? ==> r.value == repo[serverType]
    ensures r.NotFound? ==> r.missing == serverType
  {
    if serverType in repo then Ok(repo[serverType]) else NotFound(serverType)
  }

  /** isServerInstalled: true iff the stored status is FINISHED; a missing
      type raises the lookup's NotFound. */
  function IsServerInstalled<T>(repo: Repository<T>, serverType: T): (r: Result<T, bool>)
    ensures r.Ok? <==> serverType in repo
    ensures r.Ok? ==> (r.value <==> repo[serverType].installationStatus == FINISHED)
    ensures r.NotFound? ==> r == NotFound(serverType)
  {
    match GetServerInstallation(repo, serverType)
    case NotFound(t) => NotFound(t)
    case Ok(installation) => Ok(installation.installationStatus == FINISHED)
  }

  /** getAvailableServerInstallations over the list ServerType.getAll()
      returns: the stream maps the types in order, so the first missing type
      raises NotFound and no list is returned. */
  function GetAvailableServerInstallations<T>(repo: Repository<T>, types: seq<T>): (r: Result<T, seq<ServerInstallation<T>>>)
    ensures r.Ok? <==> forall i :: 0 <= i < |types| ==> types[i] in repo
    ensures r.Ok? ==> |r.value| == |types| && forall i :: 0 <= i < |types| ==> r.value[i] == repo[types[i]]
    ensures r.NotFound? ==> exists i :: 0 <= i < |types| && types[i] == r.missing && r.missing !in repo
                                        && forall j :: 0 <= j < i ==> types[j] in repo
  {
    if types == [] then Ok([])
    else
      match GetServerInstallation(repo, types[0])
      case NotFound(t) => NotFound(t)
      case Ok(first) =>
        var rest := GetAvailableServerInstallations(repo, types[1..]);
        assert forall i :: 0 < i < |types| ==> types[i] == types[1..][i - 1];
        match rest
        case NotFound(t) =>
          var k :| 0 <= k < |types[1..]| && types[1..][k] == t && t !in repo
                   && forall j :: 0 <= j < k ==> types[1..][j] in repo;
          assert types[k + 1] == t;
          NotFound(t)
        case Ok(others) => Ok([first] + others)
  }

  /** The list answers for every type the same thing single lookups do: each
      element is installed exactly when isServerInstalled says so. */
  lemma AvailableAgreesWithLookups<T>(repo: Repository<T>, types: seq<T>, i: nat)
    requires GetAvailableServerInstallations(repo, types).Ok? && i < |types|
    ensures var all := GetAvailableServerInstallations(repo, types).value;
            GetServerInstallation(repo, types[i]) == Ok(all[i])
            && IsServerInstalled(repo, types[i]) == Ok(all[i].installationStatus == FINISHED)
  {
  }

  /** One missing type anywhere in the list spoils the whole answer. */
  lemma AnyMissingTypeFails<T>(repo: Repository<T>, types: seq<T>, i: nat)
    requires i < |types| && types[i] !in repo
    ensures GetAvailableServerInstallations(repo, types).NotFound?
  {
  }
}
