/**
 * The value object every store operation returns (src/Response.java): an
 * immutable pair of a status code and a human-readable message, with a
 * deterministic textual form. The two private fields are set once by the
 * constructor and read by the getters, so a datatype whose destructors are
 * the getters is the whole object.
 */
module Responses {

  datatype Option<T> = None | Some(value: T)

  /** `new Response(status, message)`; `status` and `message` are `getStatus()` and `getMessage()`. */
  datatype Response = Response(status: string, message: string)

  /** The two status codes the store ever produces. */
  const StatusOk: string := "200"
  const StatusNotFound: string := "404"

  /** The fixed pieces of `toString()`. */
  const Opening: string := "Response{status='"
  const Separator: string := "', message='"
  const Closing: string := "'}"

  /** `toString()`: the status and the message between fixed, quoted delimiters. */
  function ToString(r: Response): string
  {
    Opening + r.status + Separator + r.message + Closing
  }

  /** The getters return exactly what the constructor was given, and nothing else is stored. */
  lemma Accessors(status: string, message: string, r: Response)
    ensures Response(status, message).status == status
    ensures Response(status, message).message == message
    ensures r == Response(r.status, r.message)
  {
  }

  /** The index of the first quote character of `s`, or `|s|` when there is none. */
  function FirstQuote(s: string): (i: nat)
    ensures i <= |s|
    ensures i < |s| ==> s[i] == '\''
    ensures forall j :: 0 <= j < i ==> s[j] != '\''
  {
    if s == [] then 0
    else if s[0] == '\'' then 0
    else 1 + FirstQuote(s[1..])
  }

  /**
   * Reads a response back from its textual form: the status runs up to the
   * first quote after the opening, the message is everything between the
   * separator and the closing.
   */
  function Parse(s: string): (r: Option<Response>)
    ensures r.Some? ==> forall j :: 0 <= j < |r.value.status| ==> r.value.status[j] != '\''
  {
    if |s| < |Opening| + |Separator| + |Closing| then None
    else if s[..|Opening|] != Opening || s[|s| - |Closing|..] != Closing then None
    else
      var body := s[|Opening|..|s| - |Closing|];
      var i := FirstQuote(body);
      var rest := body[i..];
      if |rest| < |Separator| || rest[..|Separator|] != Separator then None
      else Some(Response(body[..i], rest[|Separator|..]))
  }

  /** A response whose status holds no quote is recovered from its `toString()`. */
  lemma ParseToString(r: Response)
    requires forall j :: 0 <= j < |r.status| ==> r.status[j] != '\''
    ensures Parse(ToString(r)) == Some(r)
  {
    var s := ToString(r);
    var body := r.status + Separator + r.message;
    assert s == Opening + body + Closing;
    assert s[..|Opening|] == Opening;
    assert s[|s| - |Closing|..] == Closing;
    assert s[|Opening|..|s| - |Closing|] == body;
    var i := FirstQuote(body);
    assert body[|r.status|] == '\'';
    assert i == |r.status|;
    assert body[..i] == r.status;
    var rest := body[i..];
    assert rest == Separator + r.message;
    assert rest[..|Separator|] == Separator;
    assert rest[|Separator|..] == r.message;
  }

  /** So two such responses with the same textual form are the same response. */
  lemma ToStringInjective(r1: Response, r2: Response)
    requires forall j :: 0 <= j < |r1.status| ==> r1.status[j] != '\''
    requires forall j :: 0 <= j < |r2.status| ==> r2.status[j] != '\''
    requires ToString(r1) == ToString(r2)
    ensures r1 == r2
  {
    ParseToString(r1);
    ParseToString(r2);
  }

  /** Without that restriction the textual form is ambiguous: a quote in the status can mimic the separator. */
  lemma ToStringAmbiguous()
    ensures exists r1: Response, r2: Response :: r1 != r2 && ToString(r1) == ToString(r2)
  {
    var r1 := Response("a', message='b", "c");
    var r2 := Response("a", "b', message='c");
    assert r1.status != r2.status by { assert |r1.status| != |r2.status|; }
    assert ToString(r1) == ToString(r2);
  }

  /** Both status codes are quote-free, so every response the store builds round-trips. */
  lemma StoreStatusesRoundTrip(message: string)
    ensures Parse(ToString(Response(StatusOk, message))) == Some(Response(StatusOk, message))
    ensures Parse(ToString(Response(StatusNotFound, message))) == Some(Response(StatusNotFound, message))
  {
    ParseToString(Response(StatusOk, message));
    ParseToString(Response(StatusNotFound, message));
  }
}
