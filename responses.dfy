/** `getResponses`: the responses object of one operation. */
module Responses {
  import opened Swagger
  import opened Collection
  import Decimal

  /** `result[response.code]`: the code becomes a property name, written in
      plain decimal (see `Decimal` for the range where that is JavaScript's). */
  function ResponseKey(code: int): string {
    Decimal.IntToString(code)
  }

  /** The responses object after assigning each captured response in turn. */
  function BuildResponses(rs: seq<Response>): (m: ResponsesObject)
    ensures forall r :: r in rs ==> ResponseKey(r.code) in m
    ensures rs != [] ==> m[ResponseKey(rs[|rs| - 1].code)] == ResponseObject(rs[|rs| - 1].status)
  {
    if rs == [] then map[]
    else
      var last := rs[|rs| - 1];
      BuildResponses(rs[..|rs| - 1])[ResponseKey(last.code) := ResponseObject(last.status)]
  }

  /** The configured fallback when nothing was captured, else one entry per
      captured code. */
  function ResponsesFor(rs: seq<Response>, fallback: ResponsesObject): (m: ResponsesObject)
    ensures |rs| == 0 ==> m == fallback
  {
    if |rs| == 0 then fallback else BuildResponses(rs)
  }

  /** The property names are exactly the captured codes. */
  lemma {:induction false} BuildResponsesKeys(rs: seq<Response>)
    ensures BuildResponses(rs).Keys == set r | r in rs :: ResponseKey(r.code)
  {
    if rs != [] {
      var init := rs[..|rs| - 1];
      BuildResponsesKeys(init);
      assert rs == init + [rs[|rs| - 1]];
      assert forall r :: r in rs <==> r in init || r == rs[|rs| - 1];
    }
  }

  /** A code's description is the status of the last response with that
      code. */
  lemma {:induction false} BuildResponsesLastWins(rs: seq<Response>, i: nat)
    requires i < |rs|
    requires forall j :: i < j < |rs| ==> rs[j].code != rs[i].code
    ensures ResponseKey(rs[i].code) in BuildResponses(rs)
    ensures BuildResponses(rs)[ResponseKey(rs[i].code)] == ResponseObject(rs[i].status)
  {
    var last := rs[|rs| - 1];
    if i < |rs| - 1 {
      var init := rs[..|rs| - 1];
      BuildResponsesLastWins(init, i);
      if ResponseKey(last.code) == ResponseKey(rs[i].code) {
        Decimal.IntToStringInjective(last.code, rs[i].code);
      }
    }
  }

  /** `getResponses`, filling the result one captured response at a time. */
  method GetResponses(rs: seq<Response>, fallback: ResponsesObject) returns (result: ResponsesObject)
    ensures result == ResponsesFor(rs, fallback)
  {
    if |rs| == 0 {
      return fallback;
    }
    result := map[];
    var i := 0;
    while i < |rs|
      invariant 0 <= i <= |rs|
      invariant result == BuildResponses(rs[..i])
    {
      assert rs[..i + 1][..i] == rs[..i];
      result := result[ResponseKey(rs[i].code) := ResponseObject(rs[i].status)];
      i := i + 1;
    }
    assert rs[..i] == rs;
  }
}
