/** ServerDto: the server settings a client submits, and the bean-validation
    constraints declared on its fields, as one validator over the whole
    object. */
module ServerDtoValidation {
  import opened Lang

  /** Server.ServerType, the game a server runs. */
  datatype ServerType = ARMA3 | ARMA4 | DAYZ | REFORGER

  /** Element types of the nested lists and object; no constraint looks
      inside them. */
  type ServerWorkshopModDto
  type CreatorDlcDto
  type ServerInstanceInfoDto

  /** Reference fields may be null (None); `int` and `boolean` fields may not. */
  datatype ServerDto = ServerDto(
    id: Option<Long>,
    name: Option<string>,
    description: Option<string>,
    port: Int,
    queryPort: Int,
    maxPlayers: Int,
    serverType: Option<ServerType>,
    password: Option<string>,
    adminPassword: Option<string>,
    clientFilePatching: bool,
    serverFilePatching: bool,
    persistent: bool,
    battlEye: bool,
    von: bool,
    verifySignatures: bool,
    additionalOptions: Option<string>,
    activeMods: Option<seq<ServerWorkshopModDto>>,
    activeDLCs: Option<seq<CreatorDlcDto>>,
    instanceInfo: Option<ServerInstanceInfoDto>)

  /** The constraint violations a validator reports, one per violated field. */
  datatype Violation = NameEmpty | PortTooLow | QueryPortTooLow | MaxPlayersTooLow | TypeMissing

  /** Validating a ServerDto: @NotEmpty name, @Min(1) port, queryPort and
      maxPlayers, @NotNull type. */
  function Violations(dto: ServerDto): set<Violation>
  {
    (if dto.name.None? || |dto.name.value| == 0 then {NameEmpty} else {})
    + (if dto.port < 1 then {PortTooLow} else {})
    + (if dto.queryPort < 1 then {QueryPortTooLow} else {})
    + (if dto.maxPlayers < 1 then {MaxPlayersTooLow} else {})
    + (if dto.serverType.None? then {TypeMissing} else {})
  }

  /** The constraints as one statement about the fields. */
  predicate Valid(dto: ServerDto) {
    dto.name.Some? && dto.name.value != []
    && dto.port >= 1 && dto.queryPort >= 1 && dto.maxPlayers >= 1
    && dto.serverType.Some?
  }

  /** The validator reports nothing exactly on valid DTOs, and each violation
      it reports is the failure of its own field's constraint. */
  lemma ViolationsMatchConstraints(dto: ServerDto)
    ensures Violations(dto) == {} <==> Valid(dto)
    ensures NameEmpty in Violations(dto) <==> dto.name.None? || dto.name.value == []
    ensures PortTooLow in Violations(dto) <==> dto.port < 1
    ensures QueryPortTooLow in Violations(dto) <==> dto.queryPort < 1
    ensures MaxPlayersTooLow in Violations(dto) <==> dto.maxPlayers < 1
    ensures TypeMissing in Violations(dto) <==> dto.serverType.None?
  {
    if !Valid(dto) {
      if dto.name.None? || dto.name.value == [] {
        assert NameEmpty in Violations(dto);
      } else if dto.port < 1 {
        assert PortTooLow in Violations(dto);
      } else if dto.queryPort < 1 {
        assert QueryPortTooLow in Violations(dto);
      } else if dto.maxPlayers < 1 {
        assert MaxPlayersTooLow in Violations(dto);
      } else {
        assert TypeMissing in Violations(dto);
      }
    }
  }

  /** Only name, port, queryPort, maxPlayers and type are constrained: DTOs
      agreeing on those are reported alike, whatever the id, description,
      passwords, flags, mod and DLC lists or instance info. */
  lemma OtherFieldsUnconstrained(a: ServerDto, b: ServerDto)
    requires a.name == b.name && a.port == b.port && a.queryPort == b.queryPort
    requires a.maxPlayers == b.maxPlayers && a.serverType == b.serverType
    ensures Violations(a) == Violations(b)
  {
  }

  /** @NotEmpty is not @NotBlank: a name of spaces passes, and so does the
      largest port an int holds, as there is no upper bound. */
  lemma BlankNameAndHugePortPass(dto: ServerDto)
    requires dto.name == Some("   ") && dto.port == MAX_INT
    requires dto.queryPort >= 1 && dto.maxPlayers >= 1 && dto.serverType.Some?
    ensures Valid(dto) && IsBlank(dto.name.value)
  {
    assert IsWhitespace(' ');
  }
}
