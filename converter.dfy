/** The exported converter: the top-level fields of the Swagger 2.0
    document, with their defaults, and the paths object. */
module Converter {
  import opened Wrappers
  import opened Json
  import opened Swagger
  import opened Collection
  import opened Paths

  /** JavaScript's `a || b` for an optional string. */
  function OrElse(a: Option<string>, b: string): (r: string)
    ensures Truthy(a) ==> r == a.value
    ensures !Truthy(a) ==> r == b
  {
    if Truthy(a) then a.value else b
  }

  /** `config.info && config.info.<field>`. */
  function ConfigName(config: Config): Option<string> {
    if config.info.Some? then config.info.value.name else None
  }

  function ConfigDescription(config: Config): Option<string> {
    if config.info.Some? then config.info.value.description else None
  }

  function ConfigVersion(config: Config): Option<string> {
    if config.info.Some? then config.info.value.version else None
  }

  /** The document around a paths object: `swagger` is "2.0"; the title,
      description and version fall back from the configuration to the
      collection (or the environment) to fixed defaults; host and `basepath`
      appear only when configured with a non-empty string (the converter
      writes the field as `basepath`, where Swagger 2.0 names it `basePath`); schemes default
      to https; consumes and produces are copied as given. */
  function DocumentFor(collection: Collection, config: Config, envVersion: Option<string>, paths: Swagger.Paths): (d: Document)
    ensures d.swagger == "2.0"
    ensures d.info.title ==
      if Truthy(ConfigName(config)) then ConfigName(config).value
      else if Truthy(collection.info.name) then collection.info.name.value
      else ""
    ensures d.info.description ==
      if Truthy(ConfigDescription(config)) then ConfigDescription(config).value
      else if Truthy(collection.info.description) then collection.info.description.value
      else "No description"
    ensures d.info.version == if Truthy(ConfigVersion(config)) then ConfigVersion(config) else envVersion
    ensures d.host.Some? <==> Truthy(config.host)
    ensures d.host.Some? ==> d.host == config.host
    ensures d.basepath.Some? <==> Truthy(config.basepath)
    ensures d.basepath.Some? ==> d.basepath == config.basepath
    ensures d.schemes == config.schemes.GetOr(["https"])
    ensures d.consumes == config.consumes && d.produces == config.produces
    ensures d.paths == paths
  {
    var title := OrElse(ConfigName(config), OrElse(collection.info.name, ""));
    var description := OrElse(ConfigDescription(config), OrElse(collection.info.description, "No description"));
    var version := if Truthy(ConfigVersion(config)) then ConfigVersion(config) else envVersion;
    var host := if Truthy(config.host) then config.host else None;
    var basepath := if Truthy(config.basepath) then config.basepath else None;
    var schemes := if config.schemes.Some? then config.schemes.value else ["https"];
    Document("2.0", Info(title, description, version), host, basepath, schemes,
             config.consumes, config.produces, paths)
  }

  /** The exported function. `envVersion` stands for the package version the
      environment supplies and `parse` for `JSON5.parse`. The header fields
      are filled in first; building the paths object may then abort the
      whole conversion. */
  method Convert(collection: Collection, config: Config, envVersion: Option<string>,
                 parse: string -> Option<JsonValue>)
    returns (r: Result<Document, ConversionError>)
    ensures r.Ok? <==> PathsOf(collection, config, parse).Ok?
    ensures r.Err? ==> r.error == PathsOf(collection, config, parse).error
    ensures r.Ok? ==> r.value == DocumentFor(collection, config, envVersion, PathsOf(collection, config, parse).value)
  {
    var paths := GetPaths(collection, config, parse);
    if paths.Err? {
      return Err(paths.error);
    }
    r := Ok(DocumentFor(collection, config, envVersion, paths.value));
  }

  /** The conversion succeeds exactly when every item's parameters can be
      extracted. */
  lemma PathsOfOk(collection: Collection, config: Config, parse: string -> Option<JsonValue>)
    ensures PathsOf(collection, config, parse).Ok? <==>
      forall t :: t in Flatten(collection.nodes) ==>
        Parameters.GetParameters(t.item.request.header, t.item.request.body, t.item.request.url, config, parse).Ok?
  {
    var items := Flatten(collection.nodes);
    var steps := Steps(items, config, parse);
    MergeOk(steps, |steps|);
    forall i | 0 <= i < |items| ensures steps[i].op == OperationFor(items[i], config, parse) {
      StepsAt(items, config, parse, i);
    }
  }

  /** In the document, an item's operation sits under its template and its
      lower-cased method, unless a later item has the same template and
      method; it carries the item's tag, its name as summary, its parameters and its
      responses. */
  lemma PathsOfOperation(collection: Collection, config: Config, parse: string -> Option<JsonValue>, i: nat)
    requires PathsOf(collection, config, parse).Ok?
    requires i < |Flatten(collection.nodes)|
    requires var items := Flatten(collection.nodes);
      forall j :: i < j < |items| ==> TemplateOf(items[j]) != TemplateOf(items[i]) || MethodKey(items[j]) != MethodKey(items[i])
    ensures var items := Flatten(collection.nodes);
      var op := LookupOperation(PathsOf(collection, config, parse).value, TemplateOf(items[i]), MethodKey(items[i]));
      && op.Some?
      && op.value.tags == [TagName(items[i].tag)]
      && op.value.summary == items[i].item.name
      && op.value.responses == Responses.ResponsesFor(items[i].item.response, config.responses)
      && var ps := Parameters.GetParameters(items[i].item.request.header, items[i].item.request.body,
                                            items[i].item.request.url, config, parse);
         ps.Ok? && op.value.parameters == ps.value
  {
    var items := Flatten(collection.nodes);
    var steps := Steps(items, config, parse);
    forall j | i <= j < |items| ensures steps[j] == StepOf(items[j], config, parse) {
      StepsAt(items, config, parse, j);
    }
    MergeLastWins(steps, |steps|, i);
  }
}
