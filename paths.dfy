/** `getPaths`: flattening the collection into tagged items, turning each
    item's path into a path template, and merging the operations of all
    items into the paths object. */
module Paths {
  import opened Wrappers
  import opened Json
  import opened Entries
  import opened Text
  import opened Swagger
  import opened Collection
  import opened Parameters
  import opened Responses

  /** An item with the name of the group it was found in. The tag travels
      beside the item instead of being written onto it. */
  datatype Tagged = Tagged(item: Item, tag: Option<string>)

  // ----- flattening -----

  /** A group's items, each tagged with the group's name, or a top-level
      item without a tag. */
  function FlattenNode(n: Node): (r: seq<Tagged>)
    ensures n.Single? ==> r == [Tagged(n.item, None)]
    ensures n.Group? ==> |r| == |n.items|
  {
    match n
    case Single(item) => [Tagged(item, None)]
    case Group(name, items) => seq(|items|, i requires 0 <= i < |items| => Tagged(items[i], name))
  }

  /** A group's items keep their order and all carry the group's name. */
  lemma FlattenGroup(name: Option<string>, items: seq<Item>)
    ensures forall i :: 0 <= i < |items| ==> FlattenNode(Group(name, items))[i] == Tagged(items[i], name)
  {
  }

  /** `collection.item.map(...).flat(1)`. */
  function Flatten(nodes: seq<Node>): (r: seq<Tagged>)
    ensures forall t :: t in r ==> exists n :: n in nodes && t in FlattenNode(n)
    ensures forall n, t :: n in nodes && t in FlattenNode(n) ==> t in r
  {
    if nodes == [] then [] else FlattenNode(nodes[0]) + Flatten(nodes[1..])
  }

  lemma {:induction false} FlattenAppend(a: seq<Node>, b: seq<Node>)
    ensures Flatten(a + b) == Flatten(a) + Flatten(b)
  {
    if a == [] {
      assert a + b == b;
    } else {
      assert (a + b)[1..] == a[1..] + b;
      FlattenAppend(a[1..], b);
    }
  }

  /** The walk order: the items of node `k` come, contiguously and in their
      own order, after those of every earlier node. */
  lemma FlattenSplit(nodes: seq<Node>, k: nat)
    requires k < |nodes|
    ensures Flatten(nodes) == Flatten(nodes[..k]) + FlattenNode(nodes[k]) + Flatten(nodes[k + 1..])
  {
    var rest := [nodes[k]] + nodes[k + 1..];
    SplitAt(nodes, k);
    FlattenAppend(nodes[..k], rest);
    FlattenSingle(nodes[k], nodes[k + 1..]);
    ConcatAssoc(Flatten(nodes[..k]), FlattenNode(nodes[k]), Flatten(nodes[k + 1..]));
  }

  lemma SplitAt<T>(s: seq<T>, k: nat)
    requires k < |s|
    ensures s == s[..k] + ([s[k]] + s[k + 1..])
  {
  }

  lemma ConcatAssoc<T>(a: seq<T>, b: seq<T>, c: seq<T>)
    ensures a + (b + c) == a + b + c
  {
  }

  lemma FlattenSingle(n: Node, rest: seq<Node>)
    ensures Flatten([n] + rest) == FlattenNode(n) + Flatten(rest)
  {
    assert ([n] + rest)[1..] == rest;
  }

  /** `[item.tags || 'default']`: a missing or empty group name gives
      "default". */
  function TagName(tag: Option<string>): (r: string)
    ensures r != ""
    ensures Truthy(tag) ==> r == tag.value
    ensures !Truthy(tag) ==> r == "default"
  {
    if Truthy(tag) then tag.value else "default"
  }

  // ----- path templates -----

  /** `` `/${path.join('/')}` `` with every `{{` replaced by `{` and then
      every `}}` by `}`. */
  function PathTemplate(segs: seq<string>): (r: string)
    ensures |r| > 0 && r[0] == '/'
  {
    var j := Join(segs, '/');
    CollapseCons('/', j, '{');
    CollapseCons('/', Collapse(j, '{'), '}');
    Collapse(Collapse("/" + j, '{'), '}')
  }

  /** The two replacements applied to one segment. */
  function SwaggerSegment(seg: string): string {
    Collapse(Collapse(seg, '{'), '}')
  }

  /** The replacements never reach across a `/`, so the template is the
      rewritten segments joined. */
  lemma PathTemplateBySegment(segs: seq<string>)
    ensures PathTemplate(segs) == "/" + Join(seq(|segs|, i requires 0 <= i < |segs| => SwaggerSegment(segs[i])), '/')
  {
    var j := Join(segs, '/');
    CollapseAppend("/", j, '{');
    CollapseWithout("/", '{');
    CollapseJoin(segs, '/', '{');
    var once := CollapseEach(segs, '{');
    CollapseAppend("/", Join(once, '/'), '}');
    CollapseWithout("/", '}');
    CollapseJoin(once, '/', '}');
    assert CollapseEach(once, '}') == seq(|segs|, i requires 0 <= i < |segs| => SwaggerSegment(segs[i]));
  }

  predicate BraceFree(s: string) {
    '{' !in s && '}' !in s
  }

  /** A segment without braces is kept as it is. */
  lemma SwaggerSegmentPlain(seg: string)
    requires BraceFree(seg)
    ensures SwaggerSegment(seg) == seg
  {
    CollapseWithout(seg, '{');
    CollapseWithout(seg, '}');
  }

  /** A placeholder `{{name}}` becomes the Swagger path parameter `{name}`. */
  lemma SwaggerSegmentPlaceholder(name: string)
    requires BraceFree(name)
    ensures SwaggerSegment("{{" + name + "}}") == "{" + name + "}"
  {
    var s := "{{" + name + "}}";
    assert s == "{{" + (name + "}}");
    CollapseAppend("{{", name + "}}", '{');
    CollapseWithout(name + "}}", '{');
    assert Collapse("{{", '{') == "{" + Collapse([], '{');
    var t := "{" + name + "}}";
    assert Collapse(s, '{') == t;
    assert t == ("{" + name) + "}}";
    CollapseAppend("{" + name, "}}", '}');
    CollapseWithout("{" + name, '}');
    assert Collapse("}}", '}') == "}" + Collapse([], '}');
  }

  // ----- the paths object -----

  function TemplateOf(t: Tagged): string {
    PathTemplate(t.item.request.url.path)
  }

  /** `item.request.method.toLowerCase()`. */
  function MethodKey(t: Tagged): string {
    AsciiLower(t.item.request.verb)
  }

  /** The operation object of one item; it fails when its parameters do. */
  function OperationFor(t: Tagged, config: Config, parse: string -> Option<JsonValue>)
    : (r: Result<Operation, ConversionError>)
    ensures r.Ok? <==> GetParameters(t.item.request.header, t.item.request.body, t.item.request.url, config, parse).Ok?
    ensures r.Ok? ==> r.value.tags == [TagName(t.tag)] && r.value.summary == t.item.name
    ensures r.Ok? ==> r.value.responses == ResponsesFor(t.item.response, config.responses)
    ensures r.Ok? ==>
      r.value.parameters == GetParameters(t.item.request.header, t.item.request.body, t.item.request.url, config, parse).value
  {
    var req := t.item.request;
    var parameters :- GetParameters(req.header, req.body, req.url, config, parse);
    Ok(Operation([TagName(t.tag)], t.item.name, parameters, ResponsesFor(t.item.response, config.responses)))
  }

  /** `result[path] = result[path] || {}; result[path][method] = op`. */
  function AddOperation(paths: Paths, template: string, verb: string, op: Operation): Paths {
    Put(paths, template, Put(Lookup(paths, template).GetOr([]), verb, op))
  }

  /** `paths[template][method]`, if both properties exist. */
  function LookupOperation(paths: Paths, template: string, verb: string): Option<Operation> {
    match Lookup(paths, template)
    case None => None
    case Some(pathItem) => Lookup(pathItem, verb)
  }

  /** Adding an operation changes only the operation under its own template
      and method. */
  lemma AddOperationLookup(paths: Paths, template: string, verb: string, op: Operation, t: string, m: string)
    ensures LookupOperation(AddOperation(paths, template, verb, op), t, m)
      == if t == template && m == verb then Some(op) else LookupOperation(paths, t, m)
  {
    var pathItem := Lookup(paths, template).GetOr([]);
    PutLookup(paths, template, Put(pathItem, verb, op), t);
    PutLookup(pathItem, verb, op, m);
  }

  /** Adding an operation adds its template, and no other, to the paths
      object's templates. */
  lemma AddOperationKeys(paths: Paths, template: string, verb: string, op: Operation, t: string)
    ensures t in Keys(AddOperation(paths, template, verb, op)) <==> t in Keys(paths) || t == template
  {
    PutKeys(paths, template, Put(Lookup(paths, template).GetOr([]), verb, op));
  }

  /** What one item contributes to the walk: its template, its method key
      and its operation (or the error that aborts the walk). */
  datatype Step = Step(template: string, verb: string, op: Result<Operation, ConversionError>)

  function StepOf(t: Tagged, config: Config, parse: string -> Option<JsonValue>): Step {
    Step(TemplateOf(t), MethodKey(t), OperationFor(t, config, parse))
  }

  function Steps(ts: seq<Tagged>, config: Config, parse: string -> Option<JsonValue>): (r: seq<Step>)
    ensures |r| == |ts|
  {
    if ts == [] then [] else [StepOf(ts[0], config, parse)] + Steps(ts[1..], config, parse)
  }

  /** Step `i` of the walk is the step of item `i`. */
  lemma {:induction false} StepsAt(ts: seq<Tagged>, config: Config, parse: string -> Option<JsonValue>, i: nat)
    requires i < |ts|
    ensures Steps(ts, config, parse)[i] == StepOf(ts[i], config, parse)
  {
    if i > 0 {
      StepsAt(ts[1..], config, parse, i - 1);
    }
  }

  /** One call of the `forEach` callback: the step's operation is assigned
      under its template and method, or its error aborts the walk. */
  function Apply(paths: Paths, step: Step): (r: Result<Paths, ConversionError>)
    ensures r.Ok? <==> step.op.Ok?
    ensures r.Err? ==> r.error == step.op.error
  {
    var op :- step.op;
    Ok(AddOperation(paths, step.template, step.verb, op))
  }

  /** The paths object after the `forEach` has handled the first `n` steps;
      the first step whose operation failed aborts the whole walk. */
  function Merge(steps: seq<Step>, n: nat): (r: Result<Paths, ConversionError>)
    requires n <= |steps|
  {
    if n == 0 then Ok([])
    else
      var paths :- Merge(steps, n - 1);
      Apply(paths, steps[n - 1])
  }

  /** A successful walk of `n` steps is a successful walk of `n - 1` steps
      followed by a successful last step. */
  lemma MergeLast(steps: seq<Step>, n: nat)
    requires 0 < n <= |steps| && Merge(steps, n).Ok?
    ensures Merge(steps, n - 1).Ok? && steps[n - 1].op.Ok?
    ensures Merge(steps, n).value
      == AddOperation(Merge(steps, n - 1).value, steps[n - 1].template, steps[n - 1].verb, steps[n - 1].op.value)
  {
  }

  /** One more successful step adds its operation. */
  lemma MergeNext(steps: seq<Step>, n: nat, paths: Paths, op: Operation)
    requires n < |steps| && Merge(steps, n) == Ok(paths) && steps[n].op == Ok(op)
    ensures Merge(steps, n + 1) == Ok(AddOperation(paths, steps[n].template, steps[n].verb, op))
  {
  }

  /** The walk succeeds exactly when every item's operation does. */
  lemma {:induction false} MergeOk(steps: seq<Step>, n: nat)
    requires n <= |steps|
    ensures Merge(steps, n).Ok? <==> forall i :: 0 <= i < n ==> steps[i].op.Ok?
  {
    if n > 0 {
      MergeOk(steps, n - 1);
    }
  }

  /** A failing walk reports the error of the first failing item. */
  lemma {:induction false} MergeFirstError(steps: seq<Step>, n: nat, k: nat)
    requires n <= |steps| && k < n && steps[k].op.Err?
    requires forall j :: 0 <= j < k ==> steps[j].op.Ok?
    ensures Merge(steps, n) == Err(steps[k].op.error)
  {
    if k == n - 1 {
      MergeOk(steps, n - 1);
    } else {
      MergeFirstError(steps, n - 1, k);
    }
  }

  /** The path templates of the result are distinct. */
  lemma {:induction false} MergeDistinct(steps: seq<Step>, n: nat)
    requires n <= |steps| && Merge(steps, n).Ok?
    ensures Distinct(Keys(Merge(steps, n).value))
  {
    if n > 0 {
      var last := steps[n - 1];
      MergeLast(steps, n);
      MergeDistinct(steps, n - 1);
      var paths := Merge(steps, n - 1).value;
      PutDistinct(paths, last.template, Put(Lookup(paths, last.template).GetOr([]), last.verb, last.op.value));
    }
  }

  /** Every path item lists each method at most once. */
  ghost predicate MethodsDistinct(paths: Paths) {
    forall t :: Lookup(paths, t).Some? ==> Distinct(Keys(Lookup(paths, t).value))
  }

  /** Adding an operation keeps every path item's methods distinct. */
  lemma AddOperationMethodsDistinct(paths: Paths, template: string, verb: string, op: Operation)
    requires MethodsDistinct(paths)
    ensures MethodsDistinct(AddOperation(paths, template, verb, op))
  {
    var before := Lookup(paths, template).GetOr([]);
    forall t | Lookup(AddOperation(paths, template, verb, op), t).Some?
      ensures Distinct(Keys(Lookup(AddOperation(paths, template, verb, op), t).value))
    {
      PutLookup(paths, template, Put(before, verb, op), t);
      if t == template {
        PutDistinct(before, verb, op);
      }
    }
  }

  /** Within every path item of the result, the method names are distinct. */
  lemma {:induction false} MergeMethodsDistinct(steps: seq<Step>, n: nat)
    requires n <= |steps| && Merge(steps, n).Ok?
    ensures MethodsDistinct(Merge(steps, n).value)
  {
    if n > 0 {
      var last := steps[n - 1];
      MergeLast(steps, n);
      MergeMethodsDistinct(steps, n - 1);
      AddOperationMethodsDistinct(Merge(steps, n - 1).value, last.template, last.verb, last.op.value);
    }
  }

  /** Every item's template is a property of the paths object. */
  lemma {:induction false} MergeKeysPresent(steps: seq<Step>, n: nat, i: nat)
    requires n <= |steps| && Merge(steps, n).Ok? && i < n
    ensures steps[i].template in Keys(Merge(steps, n).value)
  {
    var last := steps[n - 1];
    MergeLast(steps, n);
    AddOperationKeys(Merge(steps, n - 1).value, last.template, last.verb, last.op.value, steps[i].template);
    if i < n - 1 {
      MergeKeysPresent(steps, n - 1, i);
    }
  }

  /** Only the items' templates are properties of the paths object. */
  lemma {:induction false} MergeKeysOnly(steps: seq<Step>, n: nat, t: string)
    requires n <= |steps| && Merge(steps, n).Ok?
    requires t in Keys(Merge(steps, n).value)
    ensures exists i :: 0 <= i < n && steps[i].template == t
  {
    var last := steps[n - 1];
    MergeLast(steps, n);
    AddOperationKeys(Merge(steps, n - 1).value, last.template, last.verb, last.op.value, t);
    if t == last.template {
      assert steps[n - 1].template == t;
    } else {
      MergeKeysOnly(steps, n - 1, t);
      var i :| 0 <= i < n - 1 && steps[i].template == t;
      assert steps[i].template == t;
    }
  }

  /** The path templates of the result are exactly the templates of the
      items. */
  lemma MergeKeys(steps: seq<Step>, n: nat, t: string)
    requires n <= |steps| && Merge(steps, n).Ok?
    ensures t in Keys(Merge(steps, n).value) <==> exists i :: 0 <= i < n && steps[i].template == t
  {
    if t in Keys(Merge(steps, n).value) {
      MergeKeysOnly(steps, n, t);
    }
    if exists i :: 0 <= i < n && steps[i].template == t {
      var i :| 0 <= i < n && steps[i].template == t;
      MergeKeysPresent(steps, n, i);
    }
  }

  /** Looking up an operation after `n` steps: the last step's operation if
      it has that template and method, otherwise what was there before. */
  lemma MergeLookup(steps: seq<Step>, n: nat, t: string, m: string)
    requires 0 < n <= |steps| && Merge(steps, n).Ok?
    ensures Merge(steps, n - 1).Ok? && steps[n - 1].op.Ok?
    ensures LookupOperation(Merge(steps, n).value, t, m)
      == if t == steps[n - 1].template && m == steps[n - 1].verb then Some(steps[n - 1].op.value)
         else LookupOperation(Merge(steps, n - 1).value, t, m)
  {
    var last := steps[n - 1];
    MergeLast(steps, n);
    AddOperationLookup(Merge(steps, n - 1).value, last.template, last.verb, last.op.value, t, m);
  }

  /** Every item's template and method are present after the walk. */
  lemma {:induction false} MergeMethodsPresent(steps: seq<Step>, n: nat, i: nat)
    requires n <= |steps| && Merge(steps, n).Ok? && i < n
    ensures LookupOperation(Merge(steps, n).value, steps[i].template, steps[i].verb).Some?
  {
    var t, m := steps[i].template, steps[i].verb;
    MergeLookup(steps, n, t, m);
    if t != steps[n - 1].template || m != steps[n - 1].verb {
      MergeMethodsPresent(steps, n - 1, i);
    }
  }

  /** Only the items' templates and methods are present after the walk. */
  lemma {:induction false} MergeMethodsOnly(steps: seq<Step>, n: nat, t: string, m: string)
    requires n <= |steps| && Merge(steps, n).Ok?
    requires LookupOperation(Merge(steps, n).value, t, m).Some?
    ensures exists i :: 0 <= i < n && steps[i].template == t && steps[i].verb == m
  {
    var i := MergeMethodsWitness(steps, n, t, m);
  }

  /** The item that put the operation under `t` and `m` in place. */
  lemma {:induction false} MergeMethodsWitness(steps: seq<Step>, n: nat, t: string, m: string) returns (i: nat)
    requires n <= |steps| && Merge(steps, n).Ok?
    requires LookupOperation(Merge(steps, n).value, t, m).Some?
    ensures i < n && steps[i].template == t && steps[i].verb == m
  {
    if t == steps[n - 1].template && m == steps[n - 1].verb {
      i := n - 1;
    } else {
      MergeLookupBefore(steps, n, t, m);
      i := MergeMethodsWitness(steps, n - 1, t, m);
    }
  }

  /** An operation the last step did not put in place was there before. */
  lemma MergeLookupBefore(steps: seq<Step>, n: nat, t: string, m: string)
    requires 0 < n <= |steps| && Merge(steps, n).Ok?
    requires LookupOperation(Merge(steps, n).value, t, m).Some?
    requires t != steps[n - 1].template || m != steps[n - 1].verb
    ensures Merge(steps, n - 1).Ok? && LookupOperation(Merge(steps, n - 1).value, t, m).Some?
  {
    MergeLookup(steps, n, t, m);
  }

  /** Under a template, the methods present are exactly the methods of the
      items with that template. */
  lemma MergeMethods(steps: seq<Step>, n: nat, t: string, m: string)
    requires n <= |steps| && Merge(steps, n).Ok?
    ensures LookupOperation(Merge(steps, n).value, t, m).Some? <==>
      exists i :: 0 <= i < n && steps[i].template == t && steps[i].verb == m
  {
    if LookupOperation(Merge(steps, n).value, t, m).Some? {
      MergeMethodsOnly(steps, n, t, m);
    }
    if exists i :: 0 <= i < n && steps[i].template == t && steps[i].verb == m {
      var i :| 0 <= i < n && steps[i].template == t && steps[i].verb == m;
      MergeMethodsPresent(steps, n, i);
    }
  }

  /** Of the items sharing a template and a method, the last one in walk
      order provides the operation. */
  lemma {:induction false} MergeLastWins(steps: seq<Step>, n: nat, i: nat)
    requires n <= |steps| && Merge(steps, n).Ok?
    requires i < n
    requires forall j :: i < j < n ==> steps[j].template != steps[i].template || steps[j].verb != steps[i].verb
    ensures steps[i].op.Ok?
    ensures LookupOperation(Merge(steps, n).value, steps[i].template, steps[i].verb) == Some(steps[i].op.value)
  {
    MergeLookup(steps, n, steps[i].template, steps[i].verb);
    if i < n - 1 {
      assert steps[n - 1].template != steps[i].template || steps[n - 1].verb != steps[i].verb;
      MergeLastWins(steps, n - 1, i);
    }
  }

  /** The paths object built from a sequence of tagged items. */
  function PathsOfItems(items: seq<Tagged>, config: Config, parse: string -> Option<JsonValue>)
    : Result<Paths, ConversionError>
  {
    Merge(Steps(items, config, parse), |items|)
  }

  /** The paths object of a whole collection. */
  function PathsOf(collection: Collection, config: Config, parse: string -> Option<JsonValue>)
    : Result<Paths, ConversionError>
  {
    PathsOfItems(Flatten(collection.nodes), config, parse)
  }

  /** The `forEach` callback for one item: the object literal with its
      tag, its name as summary, its parameters and its responses, assigned
      under its template and method. */
  method Visit(result: Paths, t: Tagged, config: Config, parse: string -> Option<JsonValue>)
    returns (r: Result<Paths, ConversionError>)
    ensures r == Apply(result, StepOf(t, config, parse))
  {
    var req := t.item.request;
    var path := PathTemplate(req.url.path);
    var pathItem := Lookup(result, path).GetOr([]);
    var parameters := GetParameters(req.header, req.body, req.url, config, parse);
    if parameters.Err? {
      return Err(parameters.error);
    }
    var responses := GetResponses(t.item.response, config.responses);
    var op := Operation([TagName(t.tag)], t.item.name, parameters.value, responses);
    r := Ok(Put(result, path, Put(pathItem, AsciiLower(req.verb), op)));
  }

  /** What the callback does to the walk: a success extends it by one step,
      a failure ends it with that step's error. */
  lemma MergeVisit(steps: seq<Step>, i: nat, result: Paths, next: Result<Paths, ConversionError>)
    requires i < |steps| && Merge(steps, i) == Ok(result)
    requires next == Apply(result, steps[i])
    ensures next.Ok? ==> Merge(steps, i + 1) == next
    ensures next.Err? ==> Merge(steps, |steps|) == next
  {
    if next.Err? {
      MergeOk(steps, i);
      MergeFirstError(steps, |steps|, i);
    }
  }

  /** One turn of the walk over the items: the callback on item `i`, and
      where that leaves the walk. */
  method VisitAt(items: seq<Tagged>, i: nat, result: Paths, config: Config, parse: string -> Option<JsonValue>)
    returns (next: Result<Paths, ConversionError>)
    requires i < |items| && Merge(Steps(items, config, parse), i) == Ok(result)
    ensures next.Ok? ==> Merge(Steps(items, config, parse), i + 1) == next
    ensures next.Err? ==> next == PathsOfItems(items, config, parse)
  {
    next := Visit(result, items[i], config, parse);
    StepsAt(items, config, parse, i);
    MergeVisit(Steps(items, config, parse), i, result, next);
  }

  /** `getPaths`: the `forEach` over the flattened items, writing into the
      paths object in place. */
  method GetPaths(collection: Collection, config: Config, parse: string -> Option<JsonValue>)
    returns (r: Result<Paths, ConversionError>)
    ensures r == PathsOf(collection, config, parse)
  {
    var items := Flatten(collection.nodes);
    var result: Paths := [];
    var i := 0;
    while i < |items|
      invariant 0 <= i <= |items|
      invariant Merge(Steps(items, config, parse), i) == Ok(result)
    {
      var next := VisitAt(items, i, result, config, parse);
      if next.Err? {
        return next;
      }
      result := next.value;
      i := i + 1;
    }
    r := Ok(result);
  }
}
