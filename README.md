# postman-to-swagger converter, modelled in Dafny

This project models `src/to_swagger_2.0.js`, the converter that turns a
request collection (groups of captured HTTP request examples with their
example responses) and a configuration record into a Swagger 2.0 document.
It covers the following parts:

- the exported function, which fills in the document's top-level fields
  with their defaults and builds the paths object;
- `getPaths`, which flattens the collection into items tagged with their
  group's name, turns each item's URL path into a path template and merges
  the operations into path items keyed by lower-cased method;
- `getParameters` and its four extractors `processReqHeader`,
  `processReqBody`, `processReqPath` and `processReqQuery`;
- `bodyItemToSwagger`, which infers a schema from a parsed body;
- `getResponses`.

The model has one module per concern:

- `Json` holds the parsed JSON5 value and the reflective `typeof` and `Object.keys`.
- `Swagger` holds the output document.
- `Collection` holds the input collection and the configuration.
- `SchemaInference` models `bodyItemToSwagger`.
- `Parameters` models the extractors and `getParameters`.
- `Placeholder` models the `{{name}}` test and the regular expression `/{{(.*)}}/`.
- `Responses` models `getResponses`.
- `Paths` models `getPaths`.
- `Converter` models the exported function.
- `Entries`, `Text` and `Decimal` are the JavaScript object and string
  behaviour these parts rely on, and a plain decimal rendering of integers
  that stands for number-to-string on the whole numbers used as names.

JavaScript objects whose property order shows in the output are
ordered lists of (name, value) entries. These are schema properties, the
paths object and path items. `Entries.Put` is property assignment for
names that are not array indices: an existing name keeps its place, a new
one goes last. JavaScript lists array-index names such as "0" or "200"
first, in ascending numeric order, whatever the order of assignment. The
converter never assigns such a name out of that order: path templates start
with `/`, method names are HTTP method tokens such as `get`, and schema
properties are assigned into a fresh object in the order `Object.entries`
reports them, which already puts index names first in ascending order. The
responses object, whose names are status codes, is a `map`. A thrown exception is the `Err` arm of a `Result`, carrying a
`ConversionError`.

The JavaScript code decides these points:

- A `null` nested inside a body takes the `"object"` branch of
  `bodyItemToSwagger`, because `typeof null` is `"object"`. It becomes an
  object schema with no properties; it is not an unsupported type. A
  top-level `null` body is rejected like a parse failure, because
  `Object.keys(null)` throws inside the same `try`.
- The body error raised at line 125 interpolates the body object, not its
  raw text, so `ConversionError.MalformedBody` carries nothing.
- The path extractor can fail. A segment holding `{{` with no `}}` after it
  on the same line makes `match` return `null`, and indexing it throws.
  This is `ConversionError.UnclosedPlaceholder(segment)`.

## Model

| member | source | states |
|---|---|---|
| Converter.Convert | src/to_swagger_2.0.js:4-44 | The conversion succeeds exactly when building the paths object does, and then fails with that error. On success the document is the header built from config and collection around that paths object. |
| Converter.DocumentFor | src/to_swagger_2.0.js:8-38 | `swagger` is "2.0". The title falls back from config name to collection name to "". The description falls back to collection description, then "No description". The version is the config version if truthy, else the environment's. host and basepath are present iff configured non-empty and then equal the config. schemes defaults to ["https"]. consumes and produces are copied. |
| Converter.OrElse | src/to_swagger_2.0.js:13-16 | `a \|\| b` for an optional string: `a` when it is a non-empty string, `b` otherwise. |
| Converter.PathsOfOk | src/to_swagger_2.0.js:52-73 | The paths object can be built exactly when every flattened item's parameters can be extracted. |
| Converter.PathsOfOperation | src/to_swagger_2.0.js:56-72 | If no later item has the same template and method, an item's operation is found under its template and lower-cased method. It carries the item's tag, its name as summary, its responses and, as `parameters`, exactly the list `getParameters` extracted from the item's request. |
| Paths.GetPaths | src/to_swagger_2.0.js:46-76 | The `forEach` loop, writing into the paths object in place, yields exactly the merge of all items' steps, error included. |
| Paths.Visit | src/to_swagger_2.0.js:52-73 | One callback run: the item's operation is assigned under its template and lower-cased method, or the item's parameter error aborts. |
| Paths.Apply | src/to_swagger_2.0.js:56-72 | A step succeeds iff its operation was built, and fails with that operation's error. |
| Paths.Flatten | src/to_swagger_2.0.js:49-51 | The flattened items are exactly the items of the top-level nodes: every item of every node is there, and nothing else. |
| Paths.FlattenNode | src/to_swagger_2.0.js:49-51 | A top-level item stays as one untagged item. A group yields one item per child. |
| Paths.FlattenGroup | src/to_swagger_2.0.js:50 | A group's children keep their order and each carries the group's name as tag. |
| Paths.FlattenAppend | src/to_swagger_2.0.js:49-51 | Flattening distributes over concatenation of node lists (`flat(1)`). |
| Paths.FlattenSplit | src/to_swagger_2.0.js:49-52 | In walk order, node k's items come contiguously after those of all earlier nodes and before all later ones. |
| Paths.TagName | src/to_swagger_2.0.js:60 | The tag is the group name when it is a non-empty string, otherwise "default", and never empty. |
| Paths.PathTemplate | src/to_swagger_2.0.js:53-55 | A path template always starts with `/`. |
| Paths.PathTemplateBySegment | src/to_swagger_2.0.js:53-55 | The two global replacements never cross a `/`. The template is "/" followed by the rewritten segments joined with "/". |
| Paths.SwaggerSegmentPlain | src/to_swagger_2.0.js:53-55 | A segment without braces appears in the template unchanged. |
| Paths.SwaggerSegmentPlaceholder | src/to_swagger_2.0.js:53-55 | A placeholder segment `{{name}}` becomes the OpenAPI path parameter `{name}`. |
| Paths.OperationFor | src/to_swagger_2.0.js:59-72 | An item's operation exists iff its parameters can be extracted. It has tags `[tag]`, the item's name as summary, the extracted parameter list as `parameters` and the item's responses. |
| Paths.AddOperationLookup | src/to_swagger_2.0.js:56-59 | Assigning `result[path][method]` changes the lookup under that template and method only. Every other lookup is unchanged. |
| Paths.AddOperationKeys | src/to_swagger_2.0.js:56 | `result[path] = result[path] \|\| {}` adds the template, and no other, to the paths object's templates. |
| Paths.MergeOk | src/to_swagger_2.0.js:52-73 | The walk over the first n items succeeds iff every one of those items' operations was built. |
| Paths.MergeFirstError | src/to_swagger_2.0.js:52-73 | A failing walk reports the error of the first failing item. |
| Paths.MergeDistinct | src/to_swagger_2.0.js:56 | The paths object never holds the same template twice. |
| Paths.AddOperationMethodsDistinct | src/to_swagger_2.0.js:56-59 | Assigning `result[path][method]` keeps every path item free of repeated method names. |
| Paths.MergeMethodsDistinct | src/to_swagger_2.0.js:56-59 | In every path item of the paths object, each method name appears once, so the operation found under a method is the only one. |
| Paths.MergeKeys | src/to_swagger_2.0.js:53-56 | A template is in the paths object iff some item has that template (both directions). |
| Paths.MergeMethodsOnly | src/to_swagger_2.0.js:56-59 | An operation found under a template and method was put there by some item with that template and lower-cased method. |
| Paths.MergeMethods | src/to_swagger_2.0.js:56-59 | Under a template, an operation for a method exists iff some item has that template and lower-cased method. |
| Paths.MergeLastWins | src/to_swagger_2.0.js:59 | For a shared template and method, the operation present is the one of the last such item in walk order. |
| Parameters.GetParameters | src/to_swagger_2.0.js:79-87 | Succeeds iff both the body and path extractors succeed. Otherwise it fails with the body error first, else the path error. |
| Parameters.GetParametersByLocation | src/to_swagger_2.0.js:79-87 | The list is the header, body, path and query parameters grouped in that order. Each group is exactly its extractor's output, so the length is the sum of the four. |
| Parameters.ExtractorLocations | src/to_swagger_2.0.js:90-169 | Each extractor's parameters all carry that extractor's location. |
| Parameters.ProcessReqHeader | src/to_swagger_2.0.js:90-107 | Every output is a string header parameter for some input header whose key is not in `omit.headers`. Every non-omitted header appears. `required` holds iff "headers" is in `require_all`. |
| Parameters.ProcessReqHeaderAppend | src/to_swagger_2.0.js:92-104 | The header filter works header by header, so input order is preserved. |
| Parameters.ProcessReqHeaderNoneOmitted | src/to_swagger_2.0.js:92-104 | With nothing omitted, the output follows the headers one to one. |
| Parameters.ProcessReqQuery | src/to_swagger_2.0.js:136-150 | One query parameter per pair, in order. It is named by the key and typed by `typeof value`. `required` holds iff "query" is in `require_all`. An empty query gives none. |
| Parameters.Placeholders | src/to_swagger_2.0.js:160-161 | The segments kept by the `{{` test are segments of the path that contain `{{`. |
| Parameters.PlaceholdersKept | src/to_swagger_2.0.js:160-161 | Every segment that contains `{{` is kept. |
| Parameters.PlaceholdersAppend | src/to_swagger_2.0.js:160-161 | The test works segment by segment, so the kept segments keep their path order. |
| Parameters.PathParams | src/to_swagger_2.0.js:158-169 | Succeeds iff every segment with `{{` has a match. It then gives one parameter per such segment, in order, named by the regular expression's capture, typed "string", `required` as configured. It otherwise fails naming the first unmatched segment. |
| Parameters.ProcessReqPath | src/to_swagger_2.0.js:153-158 | A path of at most one segment gives no parameters. |
| Parameters.FirstSegmentIgnored | src/to_swagger_2.0.js:157-158 | The first segment never affects the path parameters, whatever it holds. |
| Parameters.BodyParamName | src/to_swagger_2.0.js:119-129 | The name is the only key when `Object.keys` yields exactly one, and "body" otherwise. |
| Parameters.BodyParamNameCases | src/to_swagger_2.0.js:119-129 | A one-entry object is named by its key. A one-element array or one-character string is named "0". Every other body is named "body". |
| Parameters.ProcessReqBody | src/to_swagger_2.0.js:110-133 | No body or an empty raw payload gives nothing. Otherwise it fails iff the parse fails or yields `null`, and succeeds with exactly one body parameter. That parameter's name follows the key rule, its schema is inferred from the parsed value and `required` is as configured. |
| Placeholder.MatchBracesBetween | src/to_swagger_2.0.js:164 | On any segment, line terminators included, a capture is the text between some `{{` and a later `}}`. |
| Placeholder.MatchBracesGreedy | src/to_swagger_2.0.js:164 | On a single-line segment, the capture is the text between the first `{{` and the last `}}` after it. |
| Placeholder.MatchBracesNone | src/to_swagger_2.0.js:164 | On a single-line segment, `match` returns `null` iff no `}}` follows any `{{`. |
| SchemaInference.Infer | src/to_swagger_2.0.js:175-213 | The schema's type is "array" for arrays and `typeof value` otherwise. |
| SchemaInference.InferObject | src/to_swagger_2.0.js:189-198 | For an object, the properties' names are exactly its own keys in order, each with the recursively inferred schema of its value. |
| SchemaInference.InferMembersPrefix | src/to_swagger_2.0.js:194-197 | After the first n entries are assigned, the properties are exactly those n entries in order, each inferred. |
| SchemaInference.InferNull | src/to_swagger_2.0.js:189-198 | `null` is an object schema with no properties. |
| SchemaInference.InferArray | src/to_swagger_2.0.js:180-187 | An array gives an array schema with primitive items. The item type is "number" iff the first element is a number, else "string" (an empty array included). Only the first element matters. |
| SchemaInference.InferPrimitive | src/to_swagger_2.0.js:200-206 | Numbers, strings and booleans get their own type name. |
| SchemaInference.BodyItemToSwagger | src/to_swagger_2.0.js:175-213 | The recursive procedure with its property-assigning loop computes exactly the inferred schema. |
| Responses.ResponsesFor | src/to_swagger_2.0.js:216-217 | An empty response list returns the configured fallback unchanged. |
| Responses.BuildResponses | src/to_swagger_2.0.js:219-222 | Every captured code has an entry, and the last response's code maps to the last response's status. |
| Responses.BuildResponsesKeys | src/to_swagger_2.0.js:219-222 | The property names are exactly the decimal strings of the captured codes. |
| Responses.BuildResponsesLastWins | src/to_swagger_2.0.js:220-222 | A code's description is the status of the last response with that code. |
| Responses.GetResponses | src/to_swagger_2.0.js:216-224 | The loop filling `result[code]` yields exactly the fallback for no responses, else the per-code objects. |
| Json.TypeOf | src/to_swagger_2.0.js:144 | `typeof` yields "undefined" iff the value is absent, and "object" iff it is null, an array or an object. Otherwise it yields the primitive's name. |
| Json.ObjectKeys | src/to_swagger_2.0.js:119 | `Object.keys` throws iff the value is `null`. |
| Json.IndexKeys | src/to_swagger_2.0.js:119 | An array-like value of length n has the keys "0" … "n-1". |
| Decimal.IntToStringInjective | src/to_swagger_2.0.js:221 | Distinct status codes become distinct property names. |
| Entries.PutLookup | src/to_swagger_2.0.js:59 | After `obj[k] = v`, reading `k` gives `v`. Every other name reads as before. |
| Entries.PutKeys | src/to_swagger_2.0.js:56 | Assignment appends the name iff it is new, and otherwise leaves the names unchanged. |
| Entries.PutNew | src/to_swagger_2.0.js:196 | Assigning a new name appends exactly one entry. |
| Entries.PutDistinct | src/to_swagger_2.0.js:56 | Property names stay distinct under assignment. |
| Text.CollapseJoin | src/to_swagger_2.0.js:53-55 | Replacing `cc` by `c` in a `/`-joined path equals joining the replaced segments. |
| Text.CollapseAppend | src/to_swagger_2.0.js:54-55 | The global replacement works piecewise when the cut does not fall between two `c`. |
| Text.CollapseWithout | src/to_swagger_2.0.js:54-55 | A string without `c` is left unchanged. |
| Text.AsciiLower | src/to_swagger_2.0.js:59 | Lower-casing keeps the length and maps each character by itself. |
| Text.AsciiLowerIdempotent | src/to_swagger_2.0.js:59 | Lower-casing twice equals lower-casing once, and leaves no upper-case ASCII letter. |

## Left out

- `JSON5.parse` (line 118) is a parameter, `parse: string -> Option<JsonValue>`. `None` stands for a parse error. JSON5 syntax itself is not modelled.
- The console output in the `catch` block (lines 122-123) and the text of every error message are not modelled. Errors are the constructors of `ConversionError`.
- `process.env.npm_package_version` (line 18) is the parameter `envVersion`.
- The tag is written onto each input item with `Object.defineProperties` (line 50). The model carries the tag beside the item as `Paths.Tagged`. The mutation of the caller's items is not modelled.
- `getParameters` assigns to an undeclared, hence global, `result` (line 80). The model uses a local value. Sharing that variable between calls has no visible effect in this synchronous code.
- The commented-out `mostPopularHost` (line 21) and the module export plumbing are not modelled.
- Json.JsonValue: the model takes `parse` to return objects whose names are distinct and listed in `Object.entries` order, as `JSON5.parse` does (a repeated name in the text keeps its last value). The datatype does not enforce this; an object value with a repeated name, which no parse yields, would be treated as having several keys, so the body parameter would be named "body".
- Numbers are only tagged (`Json.JsonValue.JNumber`). No code looks at a number's value.
- Text.AsciiLower: lower-cases only the ASCII letters A–Z. `toLowerCase` also maps non-ASCII letters, but HTTP method names are ASCII.
- Json.ObjectKeys: counts a string's keys by Unicode code points. JavaScript counts UTF-16 code units, so for a body that is one astral-plane character the model names the parameter "0" where JavaScript names it "body".
- Responses.BuildResponses: status codes are unbounded integers written in plain decimal. That matches JavaScript's number-to-string only for whole-number codes of magnitude below 10^21. JavaScript writes 10^21 as "1e+21", writes a fractional code such as 200.5 as "200.5", which the model cannot express, and rounds codes above 2^53. HTTP status codes have three digits.
- Responses.BuildResponses: a `map`, so it states keys and values but no order. JavaScript lists integer-like keys such as "200" in ascending numeric order.
- The configured fallback responses object is taken as a map of description-only response objects.
- The collection's shape is typed. Nested groups, non-string fields and missing fields (which crash the JavaScript code) are not modelled. An absent `url.query` is the empty sequence, which the JavaScript code also turns into no parameters.
- `bodyItemToSwagger`'s `default` branch, which throws for unsupported types (line 209), cannot be reached from a parsed JSON value. The inferencer is total.
- A parameter object is a record, so the order in which its fields were assigned is not modelled. `required: false` stands for an absent `required`.
- SchemaInference.InferObject: treats `__proto__` like any other key. For a parsed body with an own `__proto__` property, the JavaScript assignment `result.properties[key] = …` at line 196 sets the prototype instead of adding a property. JavaScript's schema then omits that key, while the model lists it. `Entries.Put` is ordinary property assignment only for names other than `__proto__`.
- The base path is written under the name `basepath`, as the converter does at line 25. Swagger 2.0 names this field `basePath`, so a Swagger 2.0 reader ignores the base path the converter emits. Field names are not part of the model.
- Placeholder.MatchBracesGreedy, Placeholder.MatchBracesNone: stated for segments without line terminators. `Placeholder.MatchBraces` itself models the regular expression's behaviour across line terminators too.
