/** WorkshopApiMetadataProvider: asks the Steam Web API for the details of one
    workshop item and hands the `publishedfiledetails` node of the answer to a
    property provider. The HTTP post and the JSON parser are library code; they
    are the oracles `post` and `parse` of a provider, and the parsed tree is a
    plain JSON value on which Jackson's `findValue` is written out. */
module WorkshopMetadata {
  import opened Lang

  /** A parsed JSON tree (Jackson's JsonNode). An object keeps its fields in
      document order; a JSON `null` is a node (NullNode), not an absent value. */
  datatype Json =
    | JObject(fields: seq<Field>)
    | JArray(items: seq<Json>)
    | JString(text: string)
    | JNumber(number: int)
    | JBool(flag: bool)
    | JNull

  datatype Field = Field(name: string, value: Json)

  /** One entry of a LinkedMultiValueMap or of HttpHeaders, in insertion order. */
  datatype Entry = Entry(name: string, value: string)

  /** The HTTP entity handed to RestTemplate.postForEntity. */
  datatype Request = Request(body: seq<Entry>, headers: seq<Entry>)

  /** What postForEntity did: it threw, or it answered with a body that may be null. */
  datatype PostOutcome = PostThrew | Response(body: Option<string>)

  /** The provider's state: the configured API key and the two library calls. A
      `parse` result of None is a JsonProcessingException. */
  datatype MetadataProvider = MetadataProvider(
    steamApiKey: string,
    post: Request -> PostOutcome,
    parse: string -> Option<Json>)

  /** JsonPropertyProvider wrapping the details node. */
  datatype PropertyProvider = JsonPropertyProvider(node: Json)

  const DETAILS_FIELD: string := "publishedfiledetails"
  const CONTENT_TYPE: string := "Content-Type"
  const FORM_URLENCODED: string := "application/x-www-form-urlencoded"

  // ---------------------------------------------------------------- findValue

  /** JsonNode.findValue: an object looks at its fields in order, taking a
      field with the name before searching inside that field's value and
      before moving on; an array searches its elements in order; any other
      node has nothing to find. None is Java's null. */
  function FindValue(node: Json, name: string): Option<Json>
    decreases node
  {
    match node
    case JObject(fields) => FindInFields(fields, name)
    case JArray(items) => FindInItems(items, name)
    case _ => None
  }

  function FindInFields(fields: seq<Field>, name: string): Option<Json>
    decreases fields
  {
    if fields == [] then None
    else if fields[0].name == name then Some(fields[0].value)
    else
      var inner := FindValue(fields[0].value, name);
      if inner.Some? then inner else FindInFields(fields[1..], name)
  }

  function FindInItems(items: seq<Json>, name: string): Option<Json>
    decreases items
  {
    if items == [] then None
    else
      var inner := FindValue(items[0], name);
      if inner.Some? then inner else FindInItems(items[1..], name)
  }

  /** Some object at any depth of the tree has a field with this name. */
  predicate Occurs(node: Json, name: string)
    decreases node
  {
    match node
    case JObject(fields) => exists i :: 0 <= i < |fields| && OccursAt(fields[i], name)
    case JArray(items) => exists i :: 0 <= i < |items| && Occurs(items[i], name)
    case _ => false
  }

  predicate OccursAt(field: Field, name: string)
    decreases field
  {
    field.name == name || Occurs(field.value, name)
  }

  /** v is the value of some field with this name, at any depth. */
  predicate HasValue(node: Json, name: string, v: Json)
    decreases node
  {
    match node
    case JObject(fields) => exists i :: 0 <= i < |fields| && HasValueAt(fields[i], name, v)
    case JArray(items) => exists i :: 0 <= i < |items| && HasValue(items[i], name, v)
    case _ => false
  }

  predicate HasValueAt(field: Field, name: string, v: Json)
    decreases field
  {
    (field.name == name && field.value == v) || HasValue(field.value, name, v)
  }

  /** findValue answers non-null exactly when the name occurs somewhere in the
      tree, and what it answers is the value of such a field. */
  lemma {:induction false} FindValueSpec(node: Json, name: string)
    ensures FindValue(node, name).Some? <==> Occurs(node, name)
    ensures FindValue(node, name).Some? ==> HasValue(node, name, FindValue(node, name).value)
    decreases node
  {
    match node
    case JObject(fields) => FindInFieldsSpec(fields, name);
    case JArray(items) => FindInItemsSpec(items, name);
    case _ =>
  }

  lemma {:induction false} FindInFieldsSpec(fields: seq<Field>, name: string)
    ensures FindInFields(fields, name).Some? <==> exists i :: 0 <= i < |fields| && OccursAt(fields[i], name)
    ensures FindInFields(fields, name).Some? ==>
              exists i :: 0 <= i < |fields| && HasValueAt(fields[i], name, FindInFields(fields, name).value)
    decreases fields
  {
    if fields != [] {
      var r := FindInFields(fields, name);
      FindValueSpec(fields[0].value, name);
      FindInFieldsSpec(fields[1..], name);
      if r.Some? {
        if fields[0].name == name || FindValue(fields[0].value, name).Some? {
          assert HasValueAt(fields[0], name, r.value);
        } else {
          var i :| 0 <= i < |fields[1..]| && HasValueAt(fields[1..][i], name, r.value);
          assert HasValueAt(fields[i + 1], name, r.value);
        }
      } else {
        forall i | 0 <= i < |fields|
          ensures !OccursAt(fields[i], name)
        {
          if i > 0 {
            assert fields[i] == fields[1..][i - 1];
          }
        }
      }
    }
  }

  lemma {:induction false} FindInItemsSpec(items: seq<Json>, name: string)
    ensures FindInItems(items, name).Some? <==> exists i :: 0 <= i < |items| && Occurs(items[i], name)
    ensures FindInItems(items, name).Some? ==>
              exists i :: 0 <= i < |items| && HasValue(items[i], name, FindInItems(items, name).value)
    decreases items
  {
    if items != [] {
      var r := FindInItems(items, name);
      FindValueSpec(items[0], name);
      FindInItemsSpec(items[1..], name);
      if r.Some? {
        if FindValue(items[0], name).Some? {
          assert HasValue(items[0], name, r.value);
        } else {
          var i :| 0 <= i < |items[1..]| && HasValue(items[1..][i], name, r.value);
          assert HasValue(items[i + 1], name, r.value);
        }
      } else {
        forall i | 0 <= i < |items|
          ensures !Occurs(items[i], name)
        {
          if i > 0 {
            assert items[i] == items[1..][i - 1];
          }
        }
      }
    }
  }

  /** Document order decides: in an object, the value of the first field that
      has the name is found when no earlier field's value contains the name. */
  lemma {:induction false} FirstFieldWins(fields: seq<Field>, name: string, i: nat)
    requires i < |fields| && fields[i].name == name
    requires forall j :: 0 <= j < i ==> !OccursAt(fields[j], name)
    ensures FindValue(JObject(fields), name) == Some(fields[i].value)
    decreases i
  {
    if i > 0 {
      FindValueSpec(fields[0].value, name);
      assert !OccursAt(fields[0], name);
      FirstFieldWins(fields[1..], name, i - 1);
    }
  }

  // ----------------------------------------------------------------- request

  /** MultiValueMap.getFirst / HttpHeaders.getFirst: the first value stored
      under the name. */
  function First(entries: seq<Entry>, name: string): (r: Option<string>)
    ensures r.Some? <==> exists i :: 0 <= i < |entries| && entries[i].name == name
    ensures r.Some? ==> exists i :: 0 <= i < |entries| && entries[i] == Entry(name, r.value)
  {
    if entries == [] then None
    else if entries[0].name == name then Some(entries[0].value)
    else
      var r := First(entries[1..], name);
      assert forall i :: 0 < i < |entries| ==> entries[i] == entries[1..][i - 1];
      r
  }

  /** prepareRequestBody: three form fields added in order. */
  function PrepareRequestBody(steamApiKey: string, modId: Long): seq<Entry>
  {
    [Entry("key", steamApiKey), Entry("itemcount", "1"), Entry("publishedfileids[0]", LongToString(modId))]
  }

  /** The body asks for exactly one item, the requested one, with the provider's
      key: the item id reads back as the mod id, and the names come in this
      order. */
  lemma RequestBodyNamesMod(steamApiKey: string, modId: Long)
    ensures var body := PrepareRequestBody(steamApiKey, modId);
            |body| == 3 && body[0].name == "key" && body[1].name == "itemcount" && body[2].name == "publishedfileids[0]"
    ensures var body := PrepareRequestBody(steamApiKey, modId);
            First(body, "key") == Some(steamApiKey) && First(body, "itemcount") == Some("1")
    ensures var body := PrepareRequestBody(steamApiKey, modId);
            First(body, "publishedfileids[0]").Some? &&
            ParseLong(First(body, "publishedfileids[0]").value) == Some(modId)
  {
    LongRoundTrip(modId);
  }

  /** Two different mods are never asked for with the same body. */
  lemma RequestBodyInjective(steamApiKey: string, a: Long, b: Long)
    requires PrepareRequestBody(steamApiKey, a) == PrepareRequestBody(steamApiKey, b)
    ensures a == b
  {
    LongRoundTrip(a);
    LongRoundTrip(b);
    assert PrepareRequestBody(steamApiKey, a)[2].value == LongToString(a);
  }

  /** prepareRequestHeaders: only the content type is set. */
  function PrepareRequestHeaders(): seq<Entry>
  {
    [Entry(CONTENT_TYPE, FORM_URLENCODED)]
  }

  /** prepareRequest: the prepared body with the prepared headers. */
  function PrepareRequest(steamApiKey: string, modId: Long): Request
  {
    Request(PrepareRequestBody(steamApiKey, modId), PrepareRequestHeaders())
  }

  /** The request is sent form-urlencoded, carries no other header, and asks
      for the requested mod with the provider's key. */
  lemma RequestIsFormEncoded(steamApiKey: string, modId: Long)
    ensures var request := PrepareRequest(steamApiKey, modId);
            && First(request.headers, CONTENT_TYPE) == Some(FORM_URLENCODED)
            && (forall e :: e in request.headers ==> e.name == CONTENT_TYPE)
            && First(request.body, "key") == Some(steamApiKey)
            && First(request.body, "publishedfileids[0]").Some?
            && ParseLong(First(request.body, "publishedfileids[0]").value) == Some(modId)
  {
    RequestBodyNamesMod(steamApiKey, modId);
  }

  // ----------------------------------------------------------------- fetching

  /** getModInfoFromSteamApi: post, parse the body, find the details node; any
      exception on the way (a failed post, a null body handed to readTree, a
      body that does not parse) is caught and gives null. */
  function GetModInfoFromSteamApi(provider: MetadataProvider, modId: Long): Option<Json>
  {
    match provider.post(PrepareRequest(provider.steamApiKey, modId))
    case PostThrew => None
    case Response(None) => None
    case Response(Some(text)) =>
      match provider.parse(text)
      case None => None
      case Some(tree) => FindValue(tree, DETAILS_FIELD)
  }

  /** The tree the provider's answer parses to, when there is one. */
  function ParsedResponse(provider: MetadataProvider, modId: Long): Option<Json>
  {
    var outcome := provider.post(PrepareRequest(provider.steamApiKey, modId));
    if outcome.Response? && outcome.body.Some? then provider.parse(outcome.body.value) else None
  }

  /** The fetch answers exactly when the post answered with a body that parses
      to a tree holding a `publishedfiledetails` field, and the answer is the
      value of such a field; in every other case it is null, nothing thrown. */
  lemma ModInfoIsDetails(provider: MetadataProvider, modId: Long)
    ensures var info := GetModInfoFromSteamApi(provider, modId);
            var tree := ParsedResponse(provider, modId);
            info.Some? <==> tree.Some? && Occurs(tree.value, DETAILS_FIELD)
    ensures var info := GetModInfoFromSteamApi(provider, modId);
            var tree := ParsedResponse(provider, modId);
            info.Some? ==> HasValue(tree.value, DETAILS_FIELD, info.value)
  {
    var tree := ParsedResponse(provider, modId);
    if tree.Some? {
      FindValueSpec(tree.value, DETAILS_FIELD);
    }
  }

  /** A failed post always gives null. */
  lemma FailedPostGivesNull(provider: MetadataProvider, modId: Long)
    requires provider.post(PrepareRequest(provider.steamApiKey, modId)) == PostThrew
    ensures GetModInfoFromSteamApi(provider, modId) == None
  {
  }

  /** createPropertyProvider: null exactly when the fetch gave null, otherwise a
      provider over that very node. */
  function CreatePropertyProvider(provider: MetadataProvider, modId: Long): (r: Option<PropertyProvider>)
    ensures r.None? <==> GetModInfoFromSteamApi(provider, modId).None?
    ensures r.Some? ==> r.value.node == GetModInfoFromSteamApi(provider, modId).value
  {
    var info := GetModInfoFromSteamApi(provider, modId);
    if info.None? then None else Some(JsonPropertyProvider(info.value))
  }

  /** The Web API's answer for an item whose details list is empty still has
      the field, so this layer hands on a provider over the empty array. */
  lemma EmptyDetailsStillGiveProvider(provider: MetadataProvider, modId: Long, text: string)
    requires provider.post(PrepareRequest(provider.steamApiKey, modId)) == Response(Some(text))
    requires provider.parse(text) ==
               Some(JObject([Field("response", JObject([Field("result", JNumber(1)),
                                                          Field(DETAILS_FIELD, JArray([]))]))]))
    ensures CreatePropertyProvider(provider, modId) == Some(JsonPropertyProvider(JArray([])))
  {
    var inner := [Field("result", JNumber(1)), Field(DETAILS_FIELD, JArray([]))];
    assert "result" != DETAILS_FIELD;
    assert !OccursAt(inner[0], DETAILS_FIELD);
    FirstFieldWins(inner, DETAILS_FIELD, 1);
    var outer := [Field("response", JObject(inner))];
    assert "response" != DETAILS_FIELD;
    assert FindInFields(outer, DETAILS_FIELD) == FindValue(JObject(inner), DETAILS_FIELD);
  }
}
