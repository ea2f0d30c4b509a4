/**
 * The calling side of the remote store (src/Client.java): `sendRequest`
 * turns a request tag into at most one remote call and sorts what can go
 * wrong into separate outcomes, and `prepopulate` is a fixed script of such
 * requests run when the client starts.
 *
 * The remote-call runtime is not part of this model. What it does to one
 * call is an input, a `Transport`: the call is delivered, the server cannot
 * be reached, the call fails in transit, or the reply is not a Response.
 */
module Client {
  import opened Responses
  import opened KeyValueStore

  /** The arguments of `sendRequest`: a tag, a key and a value. */
  datatype Request = Request(tag: string, key: string, value: string)

  /**
   * The `switch` of `sendRequest`: "put", "get" and "del" each select one
   * remote call; any other tag selects none. The value is passed only to put.
   */
  function Dispatch(req: Request): (op: Option<Op>)
    ensures op.Some? <==> req.tag == "put" || req.tag == "get" || req.tag == "del"
    ensures op.Some? ==> op.value.key == req.key
    ensures op.Some? ==> (op.value.Put? <==> req.tag == "put")
                         && (op.value.Get? <==> req.tag == "get")
                         && (op.value.Delete? <==> req.tag == "del")
    ensures op.Some? && op.value.Put? ==> op.value.value == req.value
  {
    if req.tag == "put" then Some(Put(req.key, req.value))
    else if req.tag == "get" then Some(Get(req.key))
    else if req.tag == "del" then Some(Delete(req.key))
    else None
  }

  /** The delete tag is "del": the longer spelling selects no call at all. */
  lemma DeleteTagIsDel(key: string, value: string)
    ensures Dispatch(Request("del", key, value)) == Some(Delete(key))
    ensures Dispatch(Request("delete", key, value)) == None
  {
  }

  /** Get and delete ignore the value argument. */
  lemma ValueIgnoredUnlessPut(req: Request, other: string)
    requires req.tag != "put"
    ensures Dispatch(req) == Dispatch(req.(value := other))
  {
  }

  /** What the remote-call runtime does with one call. */
  datatype Transport =
    | Delivered                                        // the call runs and its Response comes back
    | ConnectFailed                                    // ConnectException: the server is never reached
    | RemoteFailed(diagnostic: string, ran: bool)      // another RemoteException; `ran` says whether the store operation had run
    | Malformed                                        // the reply is not a Response (ClassCastException); the operation had run

  /** What `sendRequest` reports when it returns normally. */
  datatype Report =
    | Received(response: Response)      // the Response, printed with its toString
    | InvalidRequestType                // unknown tag: no call was made
    | RemoteError(diagnostic: string)   // the RemoteException's message
    | MalformedResponse                 // the reply could not be cast to a Response

  /** `sendRequest` either returns normally with a report or throws ServerNotActiveException. */
  datatype Sent = Reported(report: Report) | ServerNotActive

  /** The store after one request, and how `sendRequest` ended. */
  datatype Exchange = Exchange(store: map<string, string>, sent: Sent)

  /** Whether the store operation of a dispatched call runs under `link`. */
  predicate Reaches(link: Transport)
  {
    link.Delivered? || link.Malformed? || (link.RemoteFailed? && link.ran)
  }

  /** One `sendRequest` against a server whose store is `store`, as a function of what the network does. */
  function Send(store: map<string, string>, req: Request, link: Transport): Exchange
  {
    match Dispatch(req)
    case None => Exchange(store, Reported(InvalidRequestType))
    case Some(op) =>
      var after := Apply(store, op);
      match link
      case Delivered => Exchange(after.store, Reported(Received(after.response)))
      case ConnectFailed => Exchange(store, ServerNotActive)
      case RemoteFailed(diagnostic, ran) =>
        Exchange(if ran then after.store else store, Reported(RemoteError(diagnostic)))
      case Malformed => Exchange(after.store, Reported(MalformedResponse))
  }

  /**
   * What one `sendRequest` can do. An unknown tag makes no call, whatever the
   * network does, and leaves the store alone. A connect failure becomes
   * ServerNotActive, never a Response, and leaves the store alone. Every
   * other failure is reported and the client carries on. At most one store
   * operation takes effect.
   */
  lemma SendOutcomes(store: map<string, string>, req: Request, link: Transport)
    ensures var r := Send(store, req, link);
            && (Dispatch(req).None? ==> r == Exchange(store, Reported(InvalidRequestType)))
            && (r.sent.ServerNotActive? <==> Dispatch(req).Some? && link.ConnectFailed?)
            && (r.sent.Reported? && r.sent.report.Received? <==> Dispatch(req).Some? && link.Delivered?)
            && (r.sent == Reported(MalformedResponse) <==> Dispatch(req).Some? && link.Malformed?)
            && (Dispatch(req).Some? && link.RemoteFailed? ==> r.sent == Reported(RemoteError(link.diagnostic)))
            && (Dispatch(req).Some? && link.Delivered? ==>
                  Outcome(r.store, r.sent.report.response) == Apply(store, Dispatch(req).value))
            && (Dispatch(req).Some? && Reaches(link) ==> r.store == Apply(store, Dispatch(req).value).store)
            && (Dispatch(req).None? || !Reaches(link) ==> r.store == store)
  {
  }

  /** Over a network that never fails, one request is one store operation or nothing. */
  lemma DeliveredIsOneOperation(store: map<string, string>, req: Request)
    ensures Send(store, req, Delivered).sent.Reported?
    ensures Send(store, req, Delivered).store ==
              match Dispatch(req) case Some(op) => Apply(store, op).store case None => store
  {
  }

  /** Only a delivered call can report a "404": every failure is reported some other way. */
  lemma NotFoundOnlyWhenDelivered(store: map<string, string>, req: Request, link: Transport)
    requires Send(store, req, link).sent.Reported?
    requires Send(store, req, link).sent.report.Received?
    requires Send(store, req, link).sent.report.response.status == StatusNotFound
    ensures link.Delivered?
    ensures req.tag == "get" || req.tag == "del"
    ensures req.key !in store
  {
  }

  /** The line the client prints for a report (the timestamp in front of it is left out). */
  function Line(report: Report): string
  {
    match report
    case Received(response) => ToString(response)
    case InvalidRequestType => "Please enter valid request type"
    case RemoteError(diagnostic) => diagnostic
    case MalformedResponse => "Received malformed response from the server"
  }

  /** A printed response never reads like the invalid-tag line or the malformed-reply line. */
  lemma ResponseLineDistinct(response: Response)
    ensures Line(Received(response)) != Line(InvalidRequestType)
    ensures Line(Received(response)) != Line(MalformedResponse)
  {
    var s := ToString(response);
    assert s == Opening + (response.status + Separator + response.message + Closing);
    assert s[0] == Opening[0] == 'R';
    assert s[2] == Opening[2] == 's';
  }

  /**
   * `sendRequest`: the switch picks at most one remote call; a connect
   * failure is rethrown as ServerNotActive; a remote failure and a malformed
   * reply are reported; a null result means the tag was unknown.
   */
  method SendRequest(req: Request, server: Server, link: Transport) returns (sent: Sent)
    modifies server
    ensures Exchange(server.store, sent) == Send(old(server.store), req, link)
  {
    var res: Option<Response> := None;
    if req.tag == "put" || req.tag == "get" || req.tag == "del" {
      if link.ConnectFailed? {
        return ServerNotActive;
      }
      if Reaches(link) {
        var r;
        if req.tag == "put" {
          r := server.Put(req.key, req.value);
        } else if req.tag == "get" {
          r := server.Get(req.key);
        } else {
          r := server.Delete(req.key);
        }
        res := Some(r);
      }
      if link.RemoteFailed? {
        return Reported(RemoteError(link.diagnostic));
      }
      if link.Malformed? {
        return Reported(MalformedResponse);
      }
    }
    if res.Some? {
      sent := Reported(Received(res.value));
    } else {
      sent := Reported(InvalidRequestType);
    }
  }

  // ---------------------------------------------------------------------
  // prepopulate
  // ---------------------------------------------------------------------

  /** The requests `prepopulate` sends, in order. */
  function Script(): seq<Request>
  {
    [ Request("put", "key1", "value1"),
      Request("put", "key2", "value2"),
      Request("put", "key3", "value3"),
      Request("put", "key4", "value1"),
      Request("get", "key4", ""),
      Request("del", "key4", ""),
      Request("del", "key1", ""),      // a valid delete
      Request("get", "key1", ""),      // a get that misses
      Request("put", "key5", "value5"),
      Request("get", "key5", ""),
      Request("put", "key5", "value6"),  // overwrite, then read the new value
      Request("get", "key5", ""),
      Request("put", "key7", "value7"),
      Request("put", "key8", "value8"),
      Request("del", "key8", ""),
      Request("get", "key8", ""),      // a get that misses
      Request("del", "key7", ""),
      Request("get", "key7", ""),      // a get that misses
      Request("del", "INVALID", "") ]  // a delete that misses
  }

  /** The store after a run of requests, what was reported, and whether ServerNotActive ended it. */
  datatype ScriptRun = ScriptRun(store: map<string, string>, reports: seq<Report>, notActive: bool)

  /**
   * Requests sent one after another, `links[i]` carrying the i-th. The first
   * connect failure on a dispatched request ends the run (the exception
   * propagates); every other outcome is reported and the run goes on.
   */
  function RunScript(store: map<string, string>, reqs: seq<Request>, links: seq<Transport>): ScriptRun
    requires |links| == |reqs|
    decreases |reqs|
  {
    if reqs == [] then ScriptRun(store, [], false)
    else
      var e := Send(store, reqs[0], links[0]);
      if e.sent.ServerNotActive? then ScriptRun(e.store, [], true)
      else
        var rest := RunScript(e.store, reqs[1..], links[1..]);
        ScriptRun(rest.store, [e.sent.report] + rest.reports, rest.notActive)
  }

  /**
   * A run reports one line per request it completed. It is cut short exactly
   * at the first request whose call met a connect failure; without one,
   * every request completes.
   */
  lemma {:induction false} RunScriptStops(store: map<string, string>, reqs: seq<Request>, links: seq<Transport>)
    requires |links| == |reqs|
    ensures var r := RunScript(store, reqs, links);
            && |r.reports| <= |reqs|
            && (!r.notActive ==> |r.reports| == |reqs|)
            && (r.notActive ==> |r.reports| < |reqs| && links[|r.reports|].ConnectFailed?
                                && Dispatch(reqs[|r.reports|]).Some?)
            && forall i :: 0 <= i < |r.reports| ==> !(links[i].ConnectFailed? && Dispatch(reqs[i]).Some?)
    decreases |reqs|
  {
    if reqs != [] {
      SendOutcomes(store, reqs[0], links[0]);
      var e := Send(store, reqs[0], links[0]);
      if !e.sent.ServerNotActive? {
        RunScriptStops(e.store, reqs[1..], links[1..]);
      }
    }
  }

  /** The rest of a run, with `done` already reported in front of it. */
  function Resume(done: seq<Report>, rest: ScriptRun): ScriptRun
  {
    ScriptRun(rest.store, done + rest.reports, rest.notActive)
  }

  /**
   * One more request of a script: if the run so far is `done` and the rest
   * starts at request k, sending request k either ends the run or moves on
   * to request k + 1.
   */
  lemma Advance(start: map<string, string>, reqs: seq<Request>, links: seq<Transport>, k: nat,
                done: seq<Report>, store: map<string, string>, e: Exchange)
    requires |links| == |reqs| && k < |reqs|
    requires RunScript(start, reqs, links) == Resume(done, RunScript(store, reqs[k..], links[k..]))
    requires e == Send(store, reqs[k], links[k])
    ensures e.sent.ServerNotActive? ==> RunScript(start, reqs, links) == ScriptRun(e.store, done, true)
    ensures e.sent.Reported? ==>
              RunScript(start, reqs, links) == Resume(done + [e.sent.report], RunScript(e.store, reqs[k + 1..], links[k + 1..]))
  {
    assert reqs[k..][0] == reqs[k] && links[k..][0] == links[k];
    assert reqs[k..][1..] == reqs[k + 1..] && links[k..][1..] == links[k + 1..];
    assert done + [] == done;
    if e.sent.Reported? {
      var rest := RunScript(e.store, reqs[k + 1..], links[k + 1..]);
      assert done + ([e.sent.report] + rest.reports) == (done + [e.sent.report]) + rest.reports;
    }
  }

  /**
   * `prepopulate`: the script's requests one after another, `links[i]`
   * carrying the i-th; the first connect failure ends it.
   */
  method Prepopulate(server: Server, links: seq<Transport>) returns (reports: seq<Report>, notActive: bool)
    requires |links| == |Script()|
    modifies server
    ensures ScriptRun(server.store, reports, notActive) == RunScript(old(server.store), Script(), links)
  {
    var script := Script();
    reports, notActive := [], false;
    assert script[0..] == script && links[0..] == links;
    var i := 0;
    while i < |script|
      invariant i <= |script|
      invariant RunScript(old(server.store), script, links)
                == Resume(reports, RunScript(server.store, script[i..], links[i..]))
    {
      ghost var before := server.store;
      var sent := SendRequest(script[i], server, links[i]);
      Advance(old(server.store), script, links, i, reports, before, Exchange(server.store, sent));
      if sent.ServerNotActive? {
        notActive := true;
        return;
      }
      reports := reports + [sent.report];
      i := i + 1;
    }
    assert reports + [] == reports;
  }

  // ---------------------------------------------------------------------
  // The start-up scenario over a network that never fails
  // ---------------------------------------------------------------------

  /** A network that delivers each of `n` calls. */
  function AllDelivered(n: nat): (links: seq<Transport>)
    ensures |links| == n && forall i :: 0 <= i < n ==> links[i] == Delivered
  {
    seq(n, _ => Delivered)
  }

  /** A delivered request is its store operation, with the Response reported. */
  lemma DeliveredStep(store: map<string, string>, reqs: seq<Request>, k: nat, op: Op)
    requires k < |reqs| && Dispatch(reqs[k]) == Some(op)
    ensures RunScript(store, reqs[k..], AllDelivered(|reqs| - k))
            == Resume([Received(Apply(store, op).response)],
                      RunScript(Apply(store, op).store, reqs[k + 1..], AllDelivered(|reqs| - k - 1)))
  {
    var links := AllDelivered(|reqs| - k);
    assert reqs[k..][0] == reqs[k];
    assert reqs[k..][1..] == reqs[k + 1..];
    assert links[1..] == AllDelivered(|reqs| - k - 1);
  }

  /** The same step for each kind of request the script sends. */
  lemma DeliveredPut(store: map<string, string>, reqs: seq<Request>, k: nat, key: string, value: string)
    requires k < |reqs| && reqs[k] == Request("put", key, value)
    ensures RunScript(store, reqs[k..], AllDelivered(|reqs| - k))
            == Resume([Received(Response(StatusOk, PutSuccessMessage(key, value)))],
                      RunScript(store[key := value], reqs[k + 1..], AllDelivered(|reqs| - k - 1)))
  {
    DeliveredStep(store, reqs, k, Put(key, value));
  }

  lemma DeliveredGetHit(store: map<string, string>, reqs: seq<Request>, k: nat, key: string)
    requires k < |reqs| && reqs[k] == Request("get", key, "") && key in store
    ensures RunScript(store, reqs[k..], AllDelivered(|reqs| - k))
            == Resume([Received(Response(StatusOk, GetSuccessMessage(key, store[key])))],
                      RunScript(store, reqs[k + 1..], AllDelivered(|reqs| - k - 1)))
  {
    DeliveredStep(store, reqs, k, Get(key));
  }

  lemma DeliveredGetMiss(store: map<string, string>, reqs: seq<Request>, k: nat, key: string)
    requires k < |reqs| && reqs[k] == Request("get", key, "") && key !in store
    ensures RunScript(store, reqs[k..], AllDelivered(|reqs| - k))
            == Resume([Received(Response(StatusNotFound, NotFoundMessage(key)))],
                      RunScript(store, reqs[k + 1..], AllDelivered(|reqs| - k - 1)))
  {
    DeliveredStep(store, reqs, k, Get(key));
  }

  lemma DeliveredDelete(store: map<string, string>, reqs: seq<Request>, k: nat, key: string)
    requires k < |reqs| && reqs[k] == Request("del", key, "")
    ensures RunScript(store, reqs[k..], AllDelivered(|reqs| - k))
            == Resume([Received(if key in store then Response(StatusOk, DeleteSuccessMessage(key))
                                else Response(StatusNotFound, NotFoundMessage(key)))],
                      RunScript(store - {key}, reqs[k + 1..], AllDelivered(|reqs| - k - 1)))
  {
    DeliveredStep(store, reqs, k, Delete(key));
    if key !in store {
      assert store - {key} == store;
    }
  }

  /** Resuming a run twice is resuming it once with both prefixes. */
  lemma ResumeResume(a: seq<Report>, b: seq<Report>, r: ScriptRun)
    ensures Resume(a, Resume(b, r)) == Resume(a + b, r)
  {
    assert a + (b + r.reports) == (a + b) + r.reports;
  }

  // The replies of each group of the script, and the groups themselves, each from an arbitrary store.
  // Each group lemma takes `S` in place of `Script()`, with only the requests it sends as requires,
  // so that no proof obligation has to unfold the nineteen-element literal.

  function InitialPutsReplies(): seq<Report>
  {
    [Received(Response(StatusOk, PutSuccessMessage("key1", "value1"))),
     Received(Response(StatusOk, PutSuccessMessage("key2", "value2"))),
     Received(Response(StatusOk, PutSuccessMessage("key3", "value3")))]
  }

  function PutGetKey4Replies(): seq<Report>
  {
    [Received(Response(StatusOk, PutSuccessMessage("key4", "value1"))),
     Received(Response(StatusOk, GetSuccessMessage("key4", "value1")))]
  }

  function DeleteKey4Replies(): seq<Report>
  {
    [Received(Response(StatusOk, DeleteSuccessMessage("key4")))]
  }

  function DeleteThenMissKey1Replies(): seq<Report>
  {
    [Received(Response(StatusOk, DeleteSuccessMessage("key1"))),
     Received(Response(StatusNotFound, NotFoundMessage("key1")))]
  }

  function PutGetKey5Replies(): seq<Report>
  {
    [Received(Response(StatusOk, PutSuccessMessage("key5", "value5"))),
     Received(Response(StatusOk, GetSuccessMessage("key5", "value5")))]
  }

  function OverwriteKey5Replies(): seq<Report>
  {
    [Received(Response(StatusOk, PutSuccessMessage("key5", "value6"))),
     Received(Response(StatusOk, GetSuccessMessage("key5", "value6")))]
  }

  function PutKey7Key8Replies(): seq<Report>
  {
    [Received(Response(StatusOk, PutSuccessMessage("key7", "value7"))),
     Received(Response(StatusOk, PutSuccessMessage("key8", "value8")))]
  }

  function DeleteThenMissKey8Replies(): seq<Report>
  {
    [Received(Response(StatusOk, DeleteSuccessMessage("key8"))),
     Received(Response(StatusNotFound, NotFoundMessage("key8")))]
  }

  function DeleteThenMissKey7Replies(): seq<Report>
  {
    [Received(Response(StatusOk, DeleteSuccessMessage("key7"))),
     Received(Response(StatusNotFound, NotFoundMessage("key7")))]
  }

  lemma FirstTwoPuts(s: map<string, string>, S: seq<Request>)
    requires |S| == 19
    requires S[0] == Request("put", "key1", "value1")
    requires S[1] == Request("put", "key2", "value2")
    ensures RunScript(s, S[0..], AllDelivered(19))
            == Resume([Received(Response(StatusOk, PutSuccessMessage("key1", "value1"))),
                       Received(Response(StatusOk, PutSuccessMessage("key2", "value2")))],
                      RunScript(s["key1" := "value1"]["key2" := "value2"], S[2..], AllDelivered(17)))
  {
    DeliveredPut(s, S, 0, "key1", "value1");
    DeliveredPut(s["key1" := "value1"], S, 1, "key2", "value2");
  }

  lemma InitialPuts(s: map<string, string>, S: seq<Request>)
    requires |S| == 19
    requires S[0] == Request("put", "key1", "value1")
    requires S[1] == Request("put", "key2", "value2")
    requires S[2] == Request("put", "key3", "value3")
    ensures RunScript(s, S[0..], AllDelivered(19))
            == Resume(InitialPutsReplies(),
                      RunScript(s["key1" := "value1"]["key2" := "value2"]["key3" := "value3"],
                                S[3..], AllDelivered(16)))
  {
    var r1 := Received(Response(StatusOk, PutSuccessMessage("key1", "value1")));
    var r2 := Received(Response(StatusOk, PutSuccessMessage("key2", "value2")));
    var r3 := Received(Response(StatusOk, PutSuccessMessage("key3", "value3")));
    var rest := RunScript(s["key1" := "value1"]["key2" := "value2"]["key3" := "value3"], S[3..], AllDelivered(16));
    FirstTwoPuts(s, S);
    DeliveredPut(s["key1" := "value1"]["key2" := "value2"], S, 2, "key3", "value3");
    ResumeResume([r1, r2], [r3], rest);
    assert [r1, r2] + [r3] == InitialPutsReplies();
  }

  lemma PutGetKey4(s: map<string, string>, S: seq<Request>)
    requires |S| == 19
    requires S[3] == Request("put", "key4", "value1")
    requires S[4] == Request("get", "key4", "")
    ensures RunScript(s, S[3..], AllDelivered(16))
            == Resume(PutGetKey4Replies(),
                      RunScript(s["key4" := "value1"], S[5..], AllDelivered(14)))
  {
    DeliveredPut(s, S, 3, "key4", "value1");
    DeliveredGetHit(s["key4" := "value1"], S, 4, "key4");
  }

  lemma DeleteKey4(s: map<string, string>, S: seq<Request>)
    requires |S| == 19
    requires S[5] == Request("del", "key4", "")
    requires "key4" in s
    ensures RunScript(s, S[5..], AllDelivered(14))
            == Resume(DeleteKey4Replies(), RunScript(s - {"key4"}, S[6..], AllDelivered(13)))
  {
    DeliveredDelete(s, S, 5, "key4");
  }

  lemma DeleteThenMissKey1(s: map<string, string>, S: seq<Request>)
    requires |S| == 19
    requires S[6] == Request("del", "key1", "")
    requires S[7] == Request("get", "key1", "")
    requires "key1" in s
    ensures RunScript(s, S[6..], AllDelivered(13))
            == Resume(DeleteThenMissKey1Replies(), RunScript(s - {"key1"}, S[8..], AllDelivered(11)))
  {
    DeliveredDelete(s, S, 6, "key1");
    DeliveredGetMiss(s - {"key1"}, S, 7, "key1");
  }

  lemma PutGetKey5(s: map<string, string>, S: seq<Request>)
    requires |S| == 19
    requires S[8] == Request("put", "key5", "value5")
    requires S[9] == Request("get", "key5", "")
    ensures RunScript(s, S[8..], AllDelivered(11))
            == Resume(PutGetKey5Replies(), RunScript(s["key5" := "value5"], S[10..], AllDelivered(9)))
  {
    DeliveredPut(s, S, 8, "key5", "value5");
    DeliveredGetHit(s["key5" := "value5"], S, 9, "key5");
  }

  lemma OverwriteKey5(s: map<string, string>, S: seq<Request>)
    requires |S| == 19
    requires S[10] == Request("put", "key5", "value6")
    requires S[11] == Request("get", "key5", "")
    ensures RunScript(s, S[10..], AllDelivered(9))
            == Resume(OverwriteKey5Replies(), RunScript(s["key5" := "value6"], S[12..], AllDelivered(7)))
  {
    DeliveredPut(s, S, 10, "key5", "value6");
    DeliveredGetHit(s["key5" := "value6"], S, 11, "key5");
  }

  lemma PutKey7Key8(s: map<string, string>, S: seq<Request>)
    requires |S| == 19
    requires S[12] == Request("put", "key7", "value7")
    requires S[13] == Request("put", "key8", "value8")
    ensures RunScript(s, S[12..], AllDelivered(7))
            == Resume(PutKey7Key8Replies(),
                      RunScript(s["key7" := "value7"]["key8" := "value8"], S[14..], AllDelivered(5)))
  {
    DeliveredPut(s, S, 12, "key7", "value7");
    DeliveredPut(s["key7" := "value7"], S, 13, "key8", "value8");
  }

  lemma DeleteThenMissKey8(s: map<string, string>, S: seq<Request>)
    requires |S| == 19
    requires S[14] == Request("del", "key8", "")
    requires S[15] == Request("get", "key8", "")
    requires "key8" in s
    ensures RunScript(s, S[14..], AllDelivered(5))
            == Resume(DeleteThenMissKey8Replies(), RunScript(s - {"key8"}, S[16..], AllDelivered(3)))
  {
    DeliveredDelete(s, S, 14, "key8");
    DeliveredGetMiss(s - {"key8"}, S, 15, "key8");
  }

  lemma DeleteThenMissKey7(s: map<string, string>, S: seq<Request>)
    requires |S| == 19
    requires S[16] == Request("del", "key7", "")
    requires S[17] == Request("get", "key7", "")
    requires "key7" in s
    ensures RunScript(s, S[16..], AllDelivered(3))
            == Resume(DeleteThenMissKey7Replies(), RunScript(s - {"key7"}, S[18..], AllDelivered(1)))
  {
    DeliveredDelete(s, S, 16, "key7");
    DeliveredGetMiss(s - {"key7"}, S, 17, "key7");
  }

  /** The reply to deleting "INVALID": a success only when some earlier client stored that key. */
  function DeleteInvalidReply(present: bool): Report
  {
    if present then Received(Response(StatusOk, DeleteSuccessMessage("INVALID")))
    else Received(Response(StatusNotFound, NotFoundMessage("INVALID")))
  }

  lemma DeleteInvalid(s: map<string, string>, S: seq<Request>)
    requires |S| == 19
    requires S[18] == Request("del", "INVALID", "")
    ensures RunScript(s, S[18..], AllDelivered(1))
            == ScriptRun(s - {"INVALID"}, [DeleteInvalidReply("INVALID" in s)], false)
  {
    DeliveredDelete(s, S, 18, "INVALID");
    assert S[19..] == [];
  }

  // The whole script, composed from the groups above two at a time.

  /** Requests 0 to 4. */
  lemma FirstFive(s: map<string, string>, S: seq<Request>)
    requires |S| == 19
    requires S[0] == Request("put", "key1", "value1")
    requires S[1] == Request("put", "key2", "value2")
    requires S[2] == Request("put", "key3", "value3")
    requires S[3] == Request("put", "key4", "value1")
    requires S[4] == Request("get", "key4", "")
    ensures RunScript(s, S[0..], AllDelivered(19))
            == Resume(InitialPutsReplies() + PutGetKey4Replies(), RunScript(s["key1" := "value1"]["key2" := "value2"]["key3" := "value3"]["key4" := "value1"], S[5..], AllDelivered(14)))
  {
    InitialPuts(s, S);
    PutGetKey4(s["key1" := "value1"]["key2" := "value2"]["key3" := "value3"], S);
    ResumeResume(InitialPutsReplies(), PutGetKey4Replies(), RunScript(s["key1" := "value1"]["key2" := "value2"]["key3" := "value3"]["key4" := "value1"], S[5..], AllDelivered(14)));
  }

  /** Requests 5 to 7: delete key4, then delete key1 and miss it. */
  lemma NextThree(s: map<string, string>, S: seq<Request>)
    requires |S| == 19
    requires S[5] == Request("del", "key4", "")
    requires S[6] == Request("del", "key1", "")
    requires S[7] == Request("get", "key1", "")
    requires "key4" in s && "key1" in s
    ensures RunScript(s, S[5..], AllDelivered(14))
            == Resume(DeleteKey4Replies() + DeleteThenMissKey1Replies(), RunScript(s - {"key4"} - {"key1"}, S[8..], AllDelivered(11)))
  {
    assert "key1" in s - {"key4"} by { assert "key1"[3] != "key4"[3]; }
    DeleteKey4(s, S);
    DeleteThenMissKey1(s - {"key4"}, S);
    ResumeResume(DeleteKey4Replies(), DeleteThenMissKey1Replies(), RunScript(s - {"key4"} - {"key1"}, S[8..], AllDelivered(11)));
  }

  /** Requests 0 to 7. */
  lemma FirstHalf(s: map<string, string>, S: seq<Request>)
    requires |S| == 19
    requires S[0] == Request("put", "key1", "value1")
    requires S[1] == Request("put", "key2", "value2")
    requires S[2] == Request("put", "key3", "value3")
    requires S[3] == Request("put", "key4", "value1")
    requires S[4] == Request("get", "key4", "")
    requires S[5] == Request("del", "key4", "")
    requires S[6] == Request("del", "key1", "")
    requires S[7] == Request("get", "key1", "")
    ensures RunScript(s, S[0..], AllDelivered(19))
            == Resume((InitialPutsReplies() + PutGetKey4Replies()) + (DeleteKey4Replies() + DeleteThenMissKey1Replies()), RunScript(s["key1" := "value1"]["key2" := "value2"]["key3" := "value3"]["key4" := "value1"] - {"key4"} - {"key1"}, S[8..], AllDelivered(11)))
  {
    assert "key1" in s["key1" := "value1"]["key2" := "value2"]["key3" := "value3"]["key4" := "value1"] by {
      assert "key1"[3] != "key4"[3];
    }
    FirstFive(s, S);
    NextThree(s["key1" := "value1"]["key2" := "value2"]["key3" := "value3"]["key4" := "value1"], S);
    ResumeResume((InitialPutsReplies() + PutGetKey4Replies()), (DeleteKey4Replies() + DeleteThenMissKey1Replies()), RunScript(s["key1" := "value1"]["key2" := "value2"]["key3" := "value3"]["key4" := "value1"] - {"key4"} - {"key1"}, S[8..], AllDelivered(11)));
  }

  /** Requests 8 to 11: key5 written, read, overwritten and read again. */
  lemma MiddleFour(s: map<string, string>, S: seq<Request>)
    requires |S| == 19
    requires S[8] == Request("put", "key5", "value5")
    requires S[9] == Request("get", "key5", "")
    requires S[10] == Request("put", "key5", "value6")
    requires S[11] == Request("get", "key5", "")
    ensures RunScript(s, S[8..], AllDelivered(11))
            == Resume(PutGetKey5Replies() + OverwriteKey5Replies(), RunScript(s["key5" := "value5"]["key5" := "value6"], S[12..], AllDelivered(7)))
  {
    PutGetKey5(s, S);
    OverwriteKey5(s["key5" := "value5"], S);
    ResumeResume(PutGetKey5Replies(), OverwriteKey5Replies(), RunScript(s["key5" := "value5"]["key5" := "value6"], S[12..], AllDelivered(7)));
  }

  /** Requests 12 to 15. */
  lemma KeysSevenEight(s: map<string, string>, S: seq<Request>)
    requires |S| == 19
    requires S[12] == Request("put", "key7", "value7")
    requires S[13] == Request("put", "key8", "value8")
    requires S[14] == Request("del", "key8", "")
    requires S[15] == Request("get", "key8", "")
    ensures RunScript(s, S[12..], AllDelivered(7))
            == Resume(PutKey7Key8Replies() + DeleteThenMissKey8Replies(), RunScript(s["key7" := "value7"]["key8" := "value8"] - {"key8"}, S[16..], AllDelivered(3)))
  {
    PutKey7Key8(s, S);
    DeleteThenMissKey8(s["key7" := "value7"]["key8" := "value8"], S);
    ResumeResume(PutKey7Key8Replies(), DeleteThenMissKey8Replies(), RunScript(s["key7" := "value7"]["key8" := "value8"] - {"key8"}, S[16..], AllDelivered(3)));
  }

  /** Requests 8 to 15. */
  lemma EightToFifteen(s: map<string, string>, S: seq<Request>)
    requires |S| == 19
    requires S[8] == Request("put", "key5", "value5")
    requires S[9] == Request("get", "key5", "")
    requires S[10] == Request("put", "key5", "value6")
    requires S[11] == Request("get", "key5", "")
    requires S[12] == Request("put", "key7", "value7")
    requires S[13] == Request("put", "key8", "value8")
    requires S[14] == Request("del", "key8", "")
    requires S[15] == Request("get", "key8", "")
    ensures RunScript(s, S[8..], AllDelivered(11))
            == Resume((PutGetKey5Replies() + OverwriteKey5Replies()) + (PutKey7Key8Replies() + DeleteThenMissKey8Replies()), RunScript(s["key5" := "value5"]["key5" := "value6"]["key7" := "value7"]["key8" := "value8"] - {"key8"}, S[16..], AllDelivered(3)))
  {
    MiddleFour(s, S);
    KeysSevenEight(s["key5" := "value5"]["key5" := "value6"], S);
    ResumeResume((PutGetKey5Replies() + OverwriteKey5Replies()), (PutKey7Key8Replies() + DeleteThenMissKey8Replies()), RunScript(s["key5" := "value5"]["key5" := "value6"]["key7" := "value7"]["key8" := "value8"] - {"key8"}, S[16..], AllDelivered(3)));
  }

  /** Requests 16 to 18, which end the script. */
  lemma LastThree(s: map<string, string>, S: seq<Request>)
    requires |S| == 19
    requires S[16] == Request("del", "key7", "")
    requires S[17] == Request("get", "key7", "")
    requires S[18] == Request("del", "INVALID", "")
    requires "key7" in s
    ensures RunScript(s, S[16..], AllDelivered(3))
            == ScriptRun(s - {"key7"} - {"INVALID"},
                         DeleteThenMissKey7Replies() + [DeleteInvalidReply("INVALID" in s)], false)
  {
    DeleteThenMissKey7(s, S);
    assert "INVALID" in s - {"key7"} <==> "INVALID" in s by { assert |"INVALID"| != |"key7"|; }
    DeleteInvalid(s - {"key7"}, S);
  }

  /** Requests 8 to 18. */
  lemma SecondHalf(s: map<string, string>, S: seq<Request>)
    requires |S| == 19
    requires S[8] == Request("put", "key5", "value5")
    requires S[9] == Request("get", "key5", "")
    requires S[10] == Request("put", "key5", "value6")
    requires S[11] == Request("get", "key5", "")
    requires S[12] == Request("put", "key7", "value7")
    requires S[13] == Request("put", "key8", "value8")
    requires S[14] == Request("del", "key8", "")
    requires S[15] == Request("get", "key8", "")
    requires S[16] == Request("del", "key7", "")
    requires S[17] == Request("get", "key7", "")
    requires S[18] == Request("del", "INVALID", "")
    ensures RunScript(s, S[8..], AllDelivered(11))
            == ScriptRun(s["key5" := "value5"]["key5" := "value6"]["key7" := "value7"]["key8" := "value8"] - {"key8"} - {"key7"} - {"INVALID"},
                         ((PutGetKey5Replies() + OverwriteKey5Replies()) + (PutKey7Key8Replies() + DeleteThenMissKey8Replies()))
                         + (DeleteThenMissKey7Replies() + [DeleteInvalidReply("INVALID" in s)]), false)
  {
    var t := s["key5" := "value5"]["key5" := "value6"]["key7" := "value7"]["key8" := "value8"] - {"key8"};
    EightToFifteen(s, S);
    assert "key7" in t by { assert "key7"[3] != "key8"[3]; }
    assert "INVALID" in t <==> "INVALID" in s by {
      assert |"INVALID"| != |"key5"| && |"INVALID"| != |"key7"| && |"INVALID"| != |"key8"|;
    }
    LastThree(t, S);
  }

  /**
   * The requests of the script, one by one: what the group lemmas require of `S`.
   * Split in four so that each proof obligation over the literal `Script()` stays small.
   */
  lemma ScriptRequests1(S: seq<Request>)
    requires S == Script()
    ensures |S| == 19
    ensures S[0] == Request("put", "key1", "value1")
    ensures S[1] == Request("put", "key2", "value2")
    ensures S[2] == Request("put", "key3", "value3")
    ensures S[3] == Request("put", "key4", "value1")
    ensures S[4] == Request("get", "key4", "")
  {
  }

  lemma ScriptRequests2(S: seq<Request>)
    requires S == Script()
    ensures S[5] == Request("del", "key4", "")
    ensures S[6] == Request("del", "key1", "")
    ensures S[7] == Request("get", "key1", "")
    ensures S[8] == Request("put", "key5", "value5")
    ensures S[9] == Request("get", "key5", "")
  {
  }

  lemma ScriptRequests3(S: seq<Request>)
    requires S == Script()
    ensures S[10] == Request("put", "key5", "value6")
    ensures S[11] == Request("get", "key5", "")
    ensures S[12] == Request("put", "key7", "value7")
    ensures S[13] == Request("put", "key8", "value8")
    ensures S[14] == Request("del", "key8", "")
  {
  }

  lemma ScriptRequests4(S: seq<Request>)
    requires S == Script()
    ensures S[15] == Request("get", "key8", "")
    ensures S[16] == Request("del", "key7", "")
    ensures S[17] == Request("get", "key7", "")
    ensures S[18] == Request("del", "INVALID", "")
  {
  }

  /** The whole script over a network that delivers every call, from any store. */
  lemma ScriptDelivered(s: map<string, string>, S: seq<Request>)
    requires |S| == 19
    requires S[0] == Request("put", "key1", "value1")
    requires S[1] == Request("put", "key2", "value2")
    requires S[2] == Request("put", "key3", "value3")
    requires S[3] == Request("put", "key4", "value1")
    requires S[4] == Request("get", "key4", "")
    requires S[5] == Request("del", "key4", "")
    requires S[6] == Request("del", "key1", "")
    requires S[7] == Request("get", "key1", "")
    requires S[8] == Request("put", "key5", "value5")
    requires S[9] == Request("get", "key5", "")
    requires S[10] == Request("put", "key5", "value6")
    requires S[11] == Request("get", "key5", "")
    requires S[12] == Request("put", "key7", "value7")
    requires S[13] == Request("put", "key8", "value8")
    requires S[14] == Request("del", "key8", "")
    requires S[15] == Request("get", "key8", "")
    requires S[16] == Request("del", "key7", "")
    requires S[17] == Request("get", "key7", "")
    requires S[18] == Request("del", "INVALID", "")
    ensures RunScript(s, S, AllDelivered(19))
            == ScriptRun((s["key1" := "value1"]["key2" := "value2"]["key3" := "value3"]["key4" := "value1"] - {"key4"} - {"key1"})
                          ["key5" := "value5"]["key5" := "value6"]["key7" := "value7"]["key8" := "value8"] - {"key8"} - {"key7"} - {"INVALID"},
                         ((InitialPutsReplies() + PutGetKey4Replies()) + (DeleteKey4Replies() + DeleteThenMissKey1Replies()))
                         + (((PutGetKey5Replies() + OverwriteKey5Replies()) + (PutKey7Key8Replies() + DeleteThenMissKey8Replies()))
                            + (DeleteThenMissKey7Replies() + [DeleteInvalidReply("INVALID" in s)])), false)
  {
    assert S[0..] == S;
    var u := s["key1" := "value1"]["key2" := "value2"]["key3" := "value3"]["key4" := "value1"] - {"key4"} - {"key1"};
    FirstHalf(s, S);
    assert "INVALID" in u <==> "INVALID" in s by {
      assert |"INVALID"| != |"key1"| && |"INVALID"| != |"key2"| && |"INVALID"| != |"key3"| && |"INVALID"| != |"key4"|;
    }
    SecondHalf(u, S);
  }

  /** What the script leaves in a store `s`: the keys it deletes are gone, key2, key3 and key5 hold value2, value3 and value6, and nothing else changes. */
  function ScriptStore(s: map<string, string>): map<string, string>
  {
    (s - {"key1", "key4", "key7", "key8", "INVALID"})["key2" := "value2"]["key3" := "value3"]["key5" := "value6"]
  }

  /** The nineteen reports of a delivered run; `invalidPresent` says whether "INVALID" was a key beforehand. */
  function ScriptReplies(invalidPresent: bool): seq<Report>
  {
    [ Received(Response(StatusOk, PutSuccessMessage("key1", "value1"))),
      Received(Response(StatusOk, PutSuccessMessage("key2", "value2"))),
      Received(Response(StatusOk, PutSuccessMessage("key3", "value3"))),
      Received(Response(StatusOk, PutSuccessMessage("key4", "value1"))),
      Received(Response(StatusOk, GetSuccessMessage("key4", "value1"))),
      Received(Response(StatusOk, DeleteSuccessMessage("key4"))),
      Received(Response(StatusOk, DeleteSuccessMessage("key1"))),
      Received(Response(StatusNotFound, NotFoundMessage("key1"))),
      Received(Response(StatusOk, PutSuccessMessage("key5", "value5"))),
      Received(Response(StatusOk, GetSuccessMessage("key5", "value5"))),
      Received(Response(StatusOk, PutSuccessMessage("key5", "value6"))),
      Received(Response(StatusOk, GetSuccessMessage("key5", "value6"))),
      Received(Response(StatusOk, PutSuccessMessage("key7", "value7"))),
      Received(Response(StatusOk, PutSuccessMessage("key8", "value8"))),
      Received(Response(StatusOk, DeleteSuccessMessage("key8"))),
      Received(Response(StatusNotFound, NotFoundMessage("key8"))),
      Received(Response(StatusOk, DeleteSuccessMessage("key7"))),
      Received(Response(StatusNotFound, NotFoundMessage("key7"))),
      DeleteInvalidReply(invalidPresent) ]
  }

  lemma ScriptStoreSteps(s: map<string, string>)
    ensures (s["key1" := "value1"]["key2" := "value2"]["key3" := "value3"]["key4" := "value1"] - {"key4"} - {"key1"})
              ["key5" := "value5"]["key5" := "value6"]["key7" := "value7"]["key8" := "value8"] - {"key8"} - {"key7"} - {"INVALID"}
            == ScriptStore(s)
  {
    var l := (s["key1" := "value1"]["key2" := "value2"]["key3" := "value3"]["key4" := "value1"] - {"key4"} - {"key1"})
              ["key5" := "value5"]["key5" := "value6"]["key7" := "value7"]["key8" := "value8"] - {"key8"} - {"key7"} - {"INVALID"};
    var r := ScriptStore(s);
    assert "key2" != "INVALID" && "key3" != "INVALID" && "key5" != "INVALID" by {
      assert |"key2"| != |"INVALID"|;
    }
    assert "key2"[3] != "key7"[3] && "key2"[3] != "key8"[3] && "key2"[3] != "key1"[3] && "key2"[3] != "key4"[3];
    assert "key3"[3] != "key7"[3] && "key3"[3] != "key8"[3] && "key3"[3] != "key1"[3] && "key3"[3] != "key4"[3];
    assert "key5"[3] != "key7"[3] && "key5"[3] != "key8"[3] && "key5"[3] != "key1"[3] && "key5"[3] != "key4"[3];
    assert l.Keys == r.Keys;
  }

  lemma ScriptRepliesGroups(invalidPresent: bool)
    ensures ((InitialPutsReplies() + PutGetKey4Replies()) + (DeleteKey4Replies() + DeleteThenMissKey1Replies()))
            + (((PutGetKey5Replies() + OverwriteKey5Replies()) + (PutKey7Key8Replies() + DeleteThenMissKey8Replies()))
               + (DeleteThenMissKey7Replies() + [DeleteInvalidReply(invalidPresent)]))
            == ScriptReplies(invalidPresent)
  {
  }

  /**
   * `prepopulate` over a network that delivers every call: from any store,
   * all nineteen calls complete, the replies are the nineteen of
   * `ScriptReplies` in order, and the store ends as `ScriptStore` says. The
   * replies agree with the script's comments: a valid delete, three gets that
   * miss (key1, key8 and key7 after their deletes), key5 read back as value6,
   * and an invalid delete.
   */
  lemma ScriptOutcome(s: map<string, string>, S: seq<Request>)
    requires S == Script()
    ensures RunScript(s, S, AllDelivered(19)) == ScriptRun(ScriptStore(s), ScriptReplies("INVALID" in s), false)
  {
    ScriptRequests1(S);
    ScriptRequests2(S);
    ScriptRequests3(S);
    ScriptRequests4(S);
    ScriptDelivered(s, S);
    ScriptStoreSteps(s);
    ScriptRepliesGroups("INVALID" in s);
  }

  /** From an empty store the script leaves exactly key2, key3 and key5. */
  lemma FreshScriptStore()
    ensures ScriptStore(map[]) == map["key2" := "value2", "key3" := "value3", "key5" := "value6"]
  {
    assert ScriptStore(map[]).Keys == {"key2", "key3", "key5"};
  }

  /**
   * A client started against a new server: `prepopulate` completes, every
   * reply is as the script expects (deleting "INVALID" reports "404"), and
   * the server is left holding key2, key3 and key5 only.
   */
  method PrepopulateFreshServer() returns (store: map<string, string>, reports: seq<Report>, notActive: bool)
    ensures !notActive
    ensures reports == ScriptReplies(false)
    ensures store == map["key2" := "value2", "key3" := "value3", "key5" := "value6"]
  {
    var server := new Server();
    var links := AllDelivered(|Script()|);
    reports, notActive := Prepopulate(server, links);
    store := server.store;
    ScriptOutcome(map[], Script());
    FreshScriptStore();
  }
}
