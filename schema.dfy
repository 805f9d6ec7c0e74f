/** The value-to-schema inferencer `bodyItemToSwagger`. */
module SchemaInference {
  import opened Wrappers
  import opened Json
  import opened Entries
  import opened Swagger

  /** The schema the inferencer gives a parsed value. The dispatch is on
      `Array.isArray(value) ? "array" : typeof value`: an array's item type
      looks at the first element only, and `null` takes the object branch,
      where the `if (value)` guard leaves its properties empty. */
  function Infer(v: JsonValue): (r: Schema)
    ensures r.TypeName() == if v.JArray? then "array" else TypeOf(Some(v))
    decreases v
  {
    match v
    case JArray(elems) =>
      SArray(SPrimitive(if |elems| > 0 && elems[0].JNumber? then "number" else "string"))
    case JNull => SObject([])
    case JObject(members) => SObject(InferMembers(v, |members|))
    case JNumber => SPrimitive("number")
    case JString(_) => SPrimitive("string")
    case JBool(_) => SPrimitive("boolean")
  }

  /** `result.properties` after the `forEach` has assigned the first `n`
      entries of the object `v`. */
  function InferMembers(v: JsonValue, n: nat): (ps: seq<(string, Schema)>)
    requires v.JObject? && n <= |v.members|
    decreases v, n
  {
    if n == 0 then []
    else
      assert v.members[n - 1] in v.members;
      Put(InferMembers(v, n - 1), v.members[n - 1].0, Infer(v.members[n - 1].1))
  }

  /** An object's schema lists the object's own keys, in order, each with
      the schema of its value. */
  lemma {:induction false} InferMembersPrefix(v: JsonValue, n: nat)
    requires v.JObject? && n <= |v.members|
    requires forall i, j :: 0 <= i < j < |v.members| ==> v.members[i].0 != v.members[j].0
    ensures |InferMembers(v, n)| == n
    ensures forall i :: 0 <= i < n ==>
      InferMembers(v, n)[i] == (v.members[i].0, Infer(v.members[i].1))
  {
    if n > 0 {
      InferMembersPrefix(v, n - 1);
      var ps := InferMembers(v, n - 1);
      var entry := (v.members[n - 1].0, Infer(v.members[n - 1].1));
      forall i | 0 <= i < n - 1 ensures Keys(ps)[i] != entry.0 {
        assert Keys(ps)[i] == v.members[i].0;
      }
      PutNew(ps, entry.0, entry.1);
      var r := InferMembers(v, n);
      assert r == ps + [entry];
      forall i | 0 <= i < n ensures r[i] == (v.members[i].0, Infer(v.members[i].1)) {
        if i < n - 1 {
          assert r[i] == ps[i];
        }
      }
    }
  }

  /** The object rule of the inferencer for a parsed object, whose own keys
      are distinct. */
  lemma InferObject(members: seq<(string, JsonValue)>)
    requires Distinct(Keys(members))
    ensures Infer(JObject(members)).SObject?
    ensures Keys(Infer(JObject(members)).properties) == Keys(members)
    ensures forall i :: 0 <= i < |members| ==>
      Infer(JObject(members)).properties[i].1 == Infer(members[i].1)
  {
    forall i, j | 0 <= i < j < |members| ensures members[i].0 != members[j].0 {
      assert Keys(members)[i] != Keys(members)[j];
    }
    InferMembersPrefix(JObject(members), |members|);
  }

  /** `null` is an object without properties. */
  lemma InferNull()
    ensures Infer(JNull) == SObject([])
  {
  }

  /** An array's schema never recurses: its items are a primitive type,
      `"number"` exactly when the first element is a number, so only the
      first element matters and an empty array has string items. */
  lemma InferArray(elems: seq<JsonValue>)
    ensures Infer(JArray(elems)).SArray?
    ensures Infer(JArray(elems)).items.SPrimitive?
    ensures Infer(JArray(elems)).items.typeName == "number" <==> |elems| > 0 && elems[0].JNumber?
    ensures Infer(JArray(elems)).items.typeName != "number" ==> Infer(JArray(elems)).items.typeName == "string"
    ensures |elems| > 0 ==> Infer(JArray(elems)) == Infer(JArray(elems[..1]))
  {
  }

  /** Numbers, strings and booleans get their own type name. */
  lemma InferPrimitive(v: JsonValue)
    requires v.JNumber? || v.JString? || v.JBool?
    ensures Infer(v) == SPrimitive(TypeOf(Some(v)))
  {
  }

  /** `bodyItemToSwagger`, with the property assignments of the object case
      done one entry at a time. */
  method BodyItemToSwagger(v: JsonValue) returns (r: Schema)
    ensures r == Infer(v)
    decreases v
  {
    match v {
      case JArray(elems) =>
        var itemType := if |elems| > 0 && elems[0].JNumber? then "number" else "string";
        r := SArray(SPrimitive(itemType));
      case JObject(members) =>
        var properties := [];
        var i := 0;
        while i < |members|
          invariant 0 <= i <= |members|
          invariant properties == InferMembers(v, i)
        {
          assert members[i] in members;
          var s := BodyItemToSwagger(members[i].1);
          properties := Put(properties, members[i].0, s);
          i := i + 1;
        }
        r := SObject(properties);
      case JNull =>
        r := SObject([]);
      case JNumber =>
        r := SPrimitive("number");
      case JString(_) =>
        r := SPrimitive("string");
      case JBool(_) =>
        r := SPrimitive("boolean");
    }
  }
}
