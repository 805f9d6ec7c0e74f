/** The four parameter extractors `processReqHeader`, `processReqBody`,
    `processReqPath` and `processReqQuery`, and `getParameters`, which
    concatenates their outputs. */
module Parameters {
  import opened Wrappers
  import opened Json
  import opened Swagger
  import opened Collection
  import opened Placeholder
  import Decimal
  import SchemaInference

  // ----- headers -----

  function HeaderParam(key: string, config: Config): Parameter {
    Parameter(InHeader, key, "headers" in config.requireAll, TypeField("string"))
  }

  /** `processReqHeader`: every header whose key is not listed in
      `omit.headers` (exact match) becomes a string header parameter. */
  function ProcessReqHeader(header: seq<Header>, config: Config): (r: seq<Parameter>)
    ensures |r| <= |header|
    ensures forall p :: p in r ==> p == HeaderParam(p.name, config) && p.name !in config.omitHeaders
    ensures forall p :: p in r ==> exists i :: 0 <= i < |header| && header[i].key == p.name
    ensures forall i :: 0 <= i < |header| && header[i].key !in config.omitHeaders ==>
      HeaderParam(header[i].key, config) in r
  {
    if header == [] then []
    else
      var rest := ProcessReqHeader(header[1..], config);
      assert forall p :: p in rest ==> exists i :: 1 <= i < |header| && header[i].key == p.name by {
        forall p | p in rest ensures exists i :: 1 <= i < |header| && header[i].key == p.name {
          var i :| 0 <= i < |header[1..]| && header[1..][i].key == p.name;
          assert header[i + 1].key == p.name;
        }
      }
      assert forall i :: 1 <= i < |header| ==> header[i] == header[1..][i - 1];
      if header[0].key in config.omitHeaders then rest
      else [HeaderParam(header[0].key, config)] + rest
  }

  /** Omission is decided header by header, so order is kept. */
  lemma {:induction false} ProcessReqHeaderAppend(a: seq<Header>, b: seq<Header>, config: Config)
    ensures ProcessReqHeader(a + b, config) == ProcessReqHeader(a, config) + ProcessReqHeader(b, config)
  {
    if a != [] {
      assert (a + b)[1..] == a[1..] + b;
      ProcessReqHeaderAppend(a[1..], b, config);
    } else {
      assert a + b == b;
    }
  }

  /** When nothing is omitted, the parameters follow the headers one to one. */
  lemma {:induction false} ProcessReqHeaderNoneOmitted(header: seq<Header>, config: Config)
    requires forall i :: 0 <= i < |header| ==> header[i].key !in config.omitHeaders
    ensures |ProcessReqHeader(header, config)| == |header|
    ensures forall i :: 0 <= i < |header| ==>
      ProcessReqHeader(header, config)[i] == HeaderParam(header[i].key, config)
  {
    if header != [] {
      ProcessReqHeaderNoneOmitted(header[1..], config);
    }
  }

  // ----- query -----

  function QueryParameter(q: QueryParam, config: Config): Parameter {
    Parameter(InQuery, q.key, "query" in config.requireAll, TypeField(TypeOf(q.value)))
  }

  /** `processReqQuery`: one query parameter per query pair, in order, typed
      by `typeof` of the pair's value; none for an empty query. */
  function ProcessReqQuery(query: seq<QueryParam>, config: Config): (r: seq<Parameter>)
    ensures |r| == |query|
    ensures forall i :: 0 <= i < |query| ==>
      r[i].location == InQuery && r[i].name == query[i].key
      && r[i].kind == TypeField(TypeOf(query[i].value))
      && r[i].required == ("query" in config.requireAll)
  {
    if |query| == 0 then []
    else seq(|query|, i requires 0 <= i < |query| => QueryParameter(query[i], config))
  }

  // ----- path -----

  /** The segments that contain `{{`, in order. */
  function Placeholders(segs: seq<string>): (r: seq<string>)
    ensures forall s :: s in r ==> s in segs && HasOpen(s)
  {
    if segs == [] then []
    else if HasOpen(segs[0]) then [segs[0]] + Placeholders(segs[1..])
    else Placeholders(segs[1..])
  }

  /** Every segment that contains `{{` is kept. */
  lemma {:induction false} PlaceholdersKept(segs: seq<string>)
    ensures forall s :: s in segs && HasOpen(s) ==> s in Placeholders(segs)
  {
    if segs != [] {
      PlaceholdersKept(segs[1..]);
      assert forall s :: s in segs ==> s == segs[0] || s in segs[1..];
    }
  }

  /** The `{{` test works segment by segment, so the kept segments stay in
      path order. */
  lemma {:induction false} PlaceholdersAppend(a: seq<string>, b: seq<string>)
    ensures Placeholders(a + b) == Placeholders(a) + Placeholders(b)
  {
    if a != [] {
      assert (a + b)[1..] == a[1..] + b;
      PlaceholdersAppend(a[1..], b);
    } else {
      assert a + b == b;
    }
  }

  /** Segment `i` is the first one whose `{{` has no matching `}}`. */
  predicate FirstUnclosed(segs: seq<string>, i: int) {
    && 0 <= i < |segs| && HasOpen(segs[i]) && MatchBraces(segs[i]).None?
    && forall k :: 0 <= k < i ==> !HasOpen(segs[k]) || MatchBraces(segs[k]).Some?
  }

  lemma FirstUnclosedShift(segs: seq<string>, i: int)
    requires segs != [] && FirstUnclosed(segs[1..], i)
    requires !HasOpen(segs[0]) || MatchBraces(segs[0]).Some?
    ensures FirstUnclosed(segs, i + 1)
  {
    forall k | 1 <= k < i + 1 ensures !HasOpen(segs[k]) || MatchBraces(segs[k]).Some? {
      assert segs[k] == segs[1..][k - 1];
    }
  }

  /** The `map`/`filter` of `processReqPath` over the segments after the
      first: a segment with `{{` yields a parameter named by the regular
      expression's capture; the first one without a match aborts. */
  function PathParams(segs: seq<string>, required: bool): (r: Result<seq<Parameter>, ConversionError>)
    ensures r.Ok? <==> forall s :: s in segs && HasOpen(s) ==> MatchBraces(s).Some?
    ensures r.Ok? ==> |r.value| == |Placeholders(segs)|
    ensures r.Ok? ==> forall k :: 0 <= k < |r.value| ==>
      MatchBraces(Placeholders(segs)[k]).Some?
      && r.value[k] == Parameter(InPath, MatchBraces(Placeholders(segs)[k]).value, required, TypeField("string"))
    ensures r.Err? ==> exists i :: FirstUnclosed(segs, i) && r.error == UnclosedPlaceholder(segs[i])
  {
    if segs == [] then Ok([])
    else
      var rest := PathParams(segs[1..], required);
      MemberOfTail(segs);
      if !HasOpen(segs[0]) then
        if rest.Err? then FirstUnclosedLift(segs, rest.error); rest else rest
      else match MatchBraces(segs[0])
        case None =>
          assert FirstUnclosed(segs, 0);
          Err(UnclosedPlaceholder(segs[0]))
        case Some(name) =>
          if rest.Err? then FirstUnclosedLift(segs, rest.error); Err(rest.error)
          else Ok([Parameter(InPath, name, required, TypeField("string"))] + rest.value)
  }

  /** A segment of a non-empty path is its first one or one of the rest. */
  lemma MemberOfTail(segs: seq<string>)
    requires segs != []
    ensures forall s :: s in segs <==> s == segs[0] || s in segs[1..]
  {
  }

  /** The first unmatched segment after a first segment that is fine is the
      first unmatched segment overall. */
  lemma FirstUnclosedLift(segs: seq<string>, e: ConversionError)
    requires segs != [] && (!HasOpen(segs[0]) || MatchBraces(segs[0]).Some?)
    requires exists i :: FirstUnclosed(segs[1..], i) && e == UnclosedPlaceholder(segs[1..][i])
    ensures exists i :: FirstUnclosed(segs, i) && e == UnclosedPlaceholder(segs[i])
  {
    var i :| FirstUnclosed(segs[1..], i) && e == UnclosedPlaceholder(segs[1..][i]);
    FirstUnclosedShift(segs, i);
  }

  /** `processReqPath`: the first segment is a fixed prefix and is skipped. */
  function ProcessReqPath(path: seq<string>, config: Config): (r: Result<seq<Parameter>, ConversionError>)
    ensures |path| <= 1 ==> r == Ok([])
  {
    if |path| <= 1 then Ok([]) else PathParams(path[1..], "path" in config.requireAll)
  }

  /** The first segment never yields a parameter, whatever it holds. */
  lemma FirstSegmentIgnored(a: string, b: string, rest: seq<string>, config: Config)
    ensures ProcessReqPath([a] + rest, config) == ProcessReqPath([b] + rest, config)
  {
    assert ([a] + rest)[1..] == rest == ([b] + rest)[1..];
  }

  // ----- body -----

  /** `(parsedBodyKeys.length === 1) ? parsedBodyKeys[0] : "body"`. */
  function BodyParamName(v: JsonValue): (r: string)
    requires !v.JNull?
    ensures |ObjectKeys(v).value| == 1 ==> r == ObjectKeys(v).value[0]
    ensures |ObjectKeys(v).value| != 1 ==> r == "body"
  {
    var keys := ObjectKeys(v).value;
    if |keys| == 1 then keys[0] else "body"
  }

  /** The name of the body parameter for each kind of parsed body: a
      one-entry object gives its key, a one-element array or one-character
      string gives "0", anything else gives "body". */
  lemma BodyParamNameCases(v: JsonValue)
    requires !v.JNull?
    ensures v.JObject? ==> BodyParamName(v) == if |v.members| == 1 then v.members[0].0 else "body"
    ensures v.JArray? ==> BodyParamName(v) == if |v.elems| == 1 then "0" else "body"
    ensures v.JString? ==> BodyParamName(v) == if |v.s| == 1 then "0" else "body"
    ensures v.JNumber? || v.JBool? ==> BodyParamName(v) == "body"
  {
    assert Decimal.NatToString(0) == "0";
  }

  /** `processReqBody`: no parameter without a raw payload; otherwise the
      payload must parse, to something other than `null`, and gives one body
      parameter whose schema is inferred from the parsed value. `parse`
      stands for `JSON5.parse`, `None` for a parse error. */
  function ProcessReqBody(body: Option<RequestBody>, config: Config, parse: string -> Option<JsonValue>)
    : (r: Result<seq<Parameter>, ConversionError>)
    ensures body.None? || !Truthy(body.value.raw) ==> r == Ok([])
    ensures body.Some? && Truthy(body.value.raw) ==>
      (r.Err? <==> parse(body.value.raw.value) in {None, Some(JNull)})
    ensures r.Err? ==> r.error == MalformedBody
    ensures body.Some? && Truthy(body.value.raw) && r.Ok? ==>
      var v := parse(body.value.raw.value).value;
      && !v.JNull?
      && r.value == [Parameter(InBody, BodyParamName(v), "body" in config.requireAll,
                               SchemaField(SchemaInference.Infer(v)))]
  {
    if body.None? || !Truthy(body.value.raw) then Ok([])
    else match parse(body.value.raw.value)
      case None => Err(MalformedBody)
      case Some(JNull) => Err(MalformedBody)
      case Some(v) =>
        Ok([Parameter(InBody, BodyParamName(v), "body" in config.requireAll,
                      SchemaField(SchemaInference.Infer(v)))])
  }

  // ----- all four -----

  /** `getParameters`: header, body, path and query parameters, in that
      order; the first extractor to fail aborts. */
  function GetParameters(header: seq<Header>, body: Option<RequestBody>, url: Url, config: Config,
                         parse: string -> Option<JsonValue>): (r: Result<seq<Parameter>, ConversionError>)
    ensures r.Ok? <==> ProcessReqBody(body, config, parse).Ok? && ProcessReqPath(url.path, config).Ok?
    ensures ProcessReqBody(body, config, parse).Err? ==> r == Err(ProcessReqBody(body, config, parse).error)
    ensures ProcessReqBody(body, config, parse).Ok? && ProcessReqPath(url.path, config).Err? ==>
      r == Err(ProcessReqPath(url.path, config).error)
  {
    var h := ProcessReqHeader(header, config);
    var b :- ProcessReqBody(body, config, parse);
    var p :- ProcessReqPath(url.path, config);
    var q := ProcessReqQuery(url.query, config);
    Ok(h + b + p + q)
  }

  /** The parameters of one location, in order. */
  function OfLocation(ps: seq<Parameter>, loc: Location): (r: seq<Parameter>)
    ensures forall p :: p in r ==> p in ps && p.location == loc
  {
    if ps == [] then []
    else if ps[0].location == loc then [ps[0]] + OfLocation(ps[1..], loc)
    else OfLocation(ps[1..], loc)
  }

  lemma {:induction false} OfLocationAppend(a: seq<Parameter>, b: seq<Parameter>, loc: Location)
    ensures OfLocation(a + b, loc) == OfLocation(a, loc) + OfLocation(b, loc)
  {
    if a != [] {
      assert (a + b)[1..] == a[1..] + b;
      OfLocationAppend(a[1..], b, loc);
    } else {
      assert a + b == b;
    }
  }

  lemma {:induction false} OfLocationOnly(ps: seq<Parameter>, loc: Location, other: Location)
    requires forall p :: p in ps ==> p.location == loc
    ensures OfLocation(ps, loc) == ps
    ensures other != loc ==> OfLocation(ps, other) == []
  {
    if ps != [] {
      assert forall p :: p in ps[1..] ==> p in ps;
      OfLocationOnly(ps[1..], loc, other);
    }
  }

  /** The parameters of each extractor all have that extractor's location. */
  lemma ExtractorLocations(header: seq<Header>, body: Option<RequestBody>, url: Url, config: Config,
                           parse: string -> Option<JsonValue>)
    ensures forall x :: x in ProcessReqHeader(header, config) ==> x.location == InHeader
    ensures ProcessReqBody(body, config, parse).Ok? ==>
      forall x :: x in ProcessReqBody(body, config, parse).value ==> x.location == InBody
    ensures ProcessReqPath(url.path, config).Ok? ==>
      forall x :: x in ProcessReqPath(url.path, config).value ==> x.location == InPath
    ensures forall x :: x in ProcessReqQuery(url.query, config) ==> x.location == InQuery
  {
    var q := ProcessReqQuery(url.query, config);
    forall x | x in q ensures x.location == InQuery {
      var k :| 0 <= k < |q| && q[k] == x;
    }
    var p := ProcessReqPath(url.path, config);
    if p.Ok? && |url.path| > 1 {
      forall x | x in p.value ensures x.location == InPath {
        var k :| 0 <= k < |p.value| && p.value[k] == x;
      }
    }
  }

  /** The combined list is the header, body, path and query parameters
      grouped in that order, each group exactly what its extractor produced,
      so its length is the sum of the four. */
  lemma GetParametersByLocation(header: seq<Header>, body: Option<RequestBody>, url: Url, config: Config,
                                parse: string -> Option<JsonValue>)
    requires GetParameters(header, body, url, config, parse).Ok?
    ensures var ps := GetParameters(header, body, url, config, parse).value;
      && ps == OfLocation(ps, InHeader) + OfLocation(ps, InBody) + OfLocation(ps, InPath) + OfLocation(ps, InQuery)
      && OfLocation(ps, InHeader) == ProcessReqHeader(header, config)
      && OfLocation(ps, InBody) == ProcessReqBody(body, config, parse).value
      && OfLocation(ps, InPath) == ProcessReqPath(url.path, config).value
      && OfLocation(ps, InQuery) == ProcessReqQuery(url.query, config)
      && |ps| == |ProcessReqHeader(header, config)| + |ProcessReqBody(body, config, parse).value|
                 + |ProcessReqPath(url.path, config).value| + |ProcessReqQuery(url.query, config)|
  {
    var h := ProcessReqHeader(header, config);
    var b := ProcessReqBody(body, config, parse).value;
    var p := ProcessReqPath(url.path, config).value;
    var q := ProcessReqQuery(url.query, config);
    ExtractorLocations(header, body, url, config, parse);
    GroupOf(h, b, p, q, InHeader);
    GroupOf(h, b, p, q, InBody);
    GroupOf(h, b, p, q, InPath);
    GroupOf(h, b, p, q, InQuery);
  }

  lemma GroupOf(h: seq<Parameter>, b: seq<Parameter>, p: seq<Parameter>, q: seq<Parameter>, loc: Location)
    requires forall x :: x in h ==> x.location == InHeader
    requires forall x :: x in b ==> x.location == InBody
    requires forall x :: x in p ==> x.location == InPath
    requires forall x :: x in q ==> x.location == InQuery
    ensures OfLocation(h + b + p + q, loc) ==
      match loc case InHeader => h case InBody => b case InPath => p case InQuery => q
  {
    OfLocationAppend(h + b + p, q, loc);
    OfLocationAppend(h + b, p, loc);
    OfLocationAppend(h, b, loc);
    OfLocationOnly(h, InHeader, loc);
    OfLocationOnly(b, InBody, loc);
    OfLocationOnly(p, InPath, loc);
    OfLocationOnly(q, InQuery, loc);
  }
}
