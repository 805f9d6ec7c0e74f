/** The converter's inputs: a request collection, already parsed, and the
    configuration record. */
module Collection {
  import opened Wrappers
  import opened Json
  import opened Swagger

  datatype Header = Header(key: string, value: string)

  /** A query pair; `value` is `None` when the pair has no `value` field. */
  datatype QueryParam = QueryParam(key: string, value: Option<JsonValue>)

  /** A missing `query` list behaves like an empty one and is modelled so. */
  datatype Url = Url(path: seq<string>, query: seq<QueryParam>)

  /** A request body; `raw` is `None` when the body has no raw payload. */
  datatype RequestBody = RequestBody(raw: Option<string>)

  /** `verb` is the request's `method` field (`method` is a keyword here). */
  datatype Request = Request(verb: string, url: Url, header: seq<Header>, body: Option<RequestBody>)

  /** A captured example response. `code` is its HTTP status code, a whole
      number here (see README for how JavaScript writes other numbers). */
  datatype Response = Response(code: int, status: string)

  datatype Item = Item(name: string, request: Request, response: seq<Response>)

  /** A top-level node: a group (a node with an `item` list) or an item. */
  datatype Node = Group(name: Option<string>, items: seq<Item>) | Single(item: Item)

  datatype CollectionInfo = CollectionInfo(name: Option<string>, description: Option<string>)

  datatype Collection = Collection(info: CollectionInfo, nodes: seq<Node>)

  datatype ConfigInfo = ConfigInfo(name: Option<string>, description: Option<string>, version: Option<string>)

  datatype Config = Config(
    info: Option<ConfigInfo>,
    host: Option<string>,
    basepath: Option<string>,
    schemes: Option<seq<string>>,
    consumes: Option<seq<string>>,
    produces: Option<seq<string>>,
    omitHeaders: seq<string>,
    requireAll: seq<string>,
    responses: ResponsesObject)

  /** JavaScript truthiness of an optional string: present and non-empty. */
  predicate Truthy(s: Option<string>) {
    s.Some? && s.value != ""
  }
}
