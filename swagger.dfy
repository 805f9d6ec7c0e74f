/** The pieces of an OpenAPI (Swagger) 2.0 document the converter produces:
    schemas, parameter objects, operation objects, the paths object and the
    top-level document. */
module Swagger {
  import opened Wrappers

  /** A schema fragment; an object's properties keep their order. */
  datatype Schema =
    | SObject(properties: seq<(string, Schema)>)
    | SArray(items: Schema)
    | SPrimitive(typeName: string)
  {
    /** The schema's `type` field. */
    function TypeName(): string {
      match this
      case SObject(_) => "object"
      case SArray(_) => "array"
      case SPrimitive(t) => t
    }
  }

  /** The `in` field of a parameter object. */
  datatype Location = InHeader | InBody | InPath | InQuery

  /** A body parameter carries `schema`; the others carry `type`. */
  datatype ParamType = TypeField(name: string) | SchemaField(schema: Schema)

  /** `required` is either `true` or absent; `false` here means absent. */
  datatype Parameter = Parameter(location: Location, name: string, required: bool, kind: ParamType)

  datatype ResponseObject = ResponseObject(description: string)

  /** A responses object, keyed by status code. */
  type ResponsesObject = map<string, ResponseObject>

  datatype Operation = Operation(
    tags: seq<string>,
    summary: string,
    parameters: seq<Parameter>,
    responses: ResponsesObject)

  /** A path item: operations keyed by lower-case method, in insertion order. */
  type PathItem = seq<(string, Operation)>

  /** The paths object: path items keyed by path template, in insertion order. */
  type Paths = seq<(string, PathItem)>

  /** `version` is absent when neither the configuration nor the environment
      supplies one. */
  datatype Info = Info(title: string, description: string, version: Option<string>)

  datatype Document = Document(
    swagger: string,
    info: Info,
    host: Option<string>,
    basepath: Option<string>,
    schemes: seq<string>,
    consumes: Option<seq<string>>,
    produces: Option<seq<string>>,
    paths: Paths)

  /** The two ways a conversion is aborted: a request body that does not
      parse to an object, array or primitive (`Error` at
      src/to_swagger_2.0.js:125), and a path segment whose `{{` has no `}}`
      (the `TypeError` of indexing `null` at :164). */
  datatype ConversionError = MalformedBody | UnclosedPlaceholder(segment: string)
}
