# Java-RMI key-value store, modelled in Dafny

The repository is a remote key-value store with three parts:

- The server (`src/Server.java`) holds one `HashMap<String, String>`. It offers `put`, `get` and `delete`, and each returns a `Response`, a status code and a message.
- The value object `Response` (`src/Response.java`) has a fixed textual form.
- The client (`src/Client.java`) turns a request tag into one remote call and sorts what can go wrong into separate outcomes. On start-up it runs `prepopulate`, a fixed script of requests.

The model has three modules, one per source file:

- `Responses` (`response.dfy`) is the `Response` datatype and its `toString`. A parser `Parse` is its partner and inverts `toString` whenever the status holds no quote. A lemma exhibits two different responses with the same text when the status does hold one.
- `KeyValueStore` (`store.dfy`) covers the server side:
  - the four message templates;
  - `Apply`, one atomic operation on a map value;
  - `Run`, a sequence of such operations;
  - the class `Server`, whose `store` field the methods `Put` and `Delete` change in place.

  Every Java method is `synchronized` on the one server object, so each call is a single step. Concurrent calls are some interleaving of such steps, which `Run` covers. Each method is tied to `Apply`, and the properties of the store are lemmas about `Apply` and `Run`.
- `Client` (`client.dfy`) covers the client side:
  - `Dispatch`, the `switch` of `sendRequest`;
  - `Send`, one `sendRequest` as a function of what the network does to the call;
  - the method `SendRequest`, which calls the `Server` object;
  - the method `Prepopulate`, which runs the script against a server.

  A chain of lemmas computes the script's exact replies and the store it leaves. The method `PrepopulateFreshServer` runs it against a new server.

What the remote-call runtime does to one call is an input, a `Transport`. It is one of four cases:

- the call is delivered;
- the connection fails (`ConnectException`);
- another `RemoteException` occurs, with its message and whether the store operation had already run;
- the reply is not a `Response` (`ClassCastException`).

## Model

| member | source | states |
|---|---|---|
| Responses.Accessors | src/Response.java:3-19 | `getStatus()` and `getMessage()` return exactly what the constructor was given, and the two fields are the whole object |
| Responses.ParseToString | src/Response.java:22-25 | `toString()` is `Response{status='…', message='…'}`, and the response is recovered from it whenever the status holds no quote |
| Responses.ToStringInjective | src/Response.java:22-25 | two responses whose statuses hold no quote and whose `toString()` agree are equal |
| Responses.ToStringAmbiguous | src/Response.java:22-25 | with a quote in the status, two different responses can have the same `toString()` |
| Responses.StoreStatusesRoundTrip | src/Response.java:22-25 | every "200" or "404" response round-trips through its textual form |
| Responses.ToString | src/Response.java:22-25 | `toString()`: the opening `Response{status='`, the status, the separator `', message='`, the message and the closing `'}`; its partner is `Parse` (no ensures of its own) |
| Responses.Parse | src/Response.java:22-25 | reads a textual form back; any status it returns is quote-free |
| KeyValueStore.PutSuccessMessage | src/Server.java:46-47 | the put message, `PUT Request successful with key = ` + key + ` and value = ` + value (a definition, no ensures) |
| KeyValueStore.GetSuccessMessage | src/Server.java:68 | the get message, `GET Request Successful with key = ` + key + `, value = ` + the stored value (a definition, no ensures) |
| KeyValueStore.DeleteSuccessMessage | src/Server.java:88 | the delete message, `DELETE Request successful with key = ` + key (a definition, no ensures) |
| KeyValueStore.NotFoundMessage | src/Server.java:65-66 | the message of every "404", `Key = ` + key + ` not found`, shared by get and delete (src/Server.java:85) (a definition, no ensures) |
| KeyValueStore.Apply | src/Server.java:42-93 | the status is "200" or "404" ("404" exactly for a get or delete of an absent key, with the not-found message); no other key changes; put stores the value with its message; get never changes the store; delete of an absent key changes nothing |
| KeyValueStore.Run | src/Server.java:42-93 | serialized calls give one response each, and every put's is "200" |
| KeyValueStore.PutThenGet | src/Server.java:42-73 | a get after a put of the same key returns "200" with the value just written |
| KeyValueStore.LastWriteWins | src/Server.java:36-43 | two puts of one key leave the store as the second put alone does |
| KeyValueStore.PutSize | src/Server.java:36-43 | a put adds an entry only for a new key; there is never more than one entry per key |
| KeyValueStore.DeleteSize | src/Server.java:84-88 | a delete of a present key removes exactly one entry |
| KeyValueStore.DeleteThenGet | src/Server.java:62-93 | a get after a delete of the same key reports "404" with the not-found message |
| KeyValueStore.DeleteTwice | src/Server.java:84-88 | the first delete succeeds exactly when the key was present; a second delete of the same key reports "404" and changes nothing |
| KeyValueStore.DeleteUndoesFreshPut | src/Server.java:42-93 | deleting a key a put has just created restores the earlier store |
| KeyValueStore.DeleteGetRace | src/Server.java:62-93 | a delete and a get racing on one key, in either order: the key ends absent; the get sees the old value or "404" |
| KeyValueStore.LastWrite | src/Server.java:42-43 | the value of the last put to a key in a sequence comes from one of its puts, and none means no put wrote that key |
| KeyValueStore.LastWriteIsLast | src/Server.java:42-43 | the put `LastWrite` finds writes the key with the value it returns, and no later put in the sequence writes that key |
| KeyValueStore.SerializedPuts | src/Server.java:42-43 | whatever order the lock serializes a batch of puts in, each key holds the value of the last put to it, never a mix; unwritten keys keep their entries |
| KeyValueStore.DistinctPutsAllRetrievable | src/Server.java:42-43 | puts to distinct keys are all present afterwards with their own values |
| KeyValueStore.Server.constructor | src/Server.java:20-23 | a new server's store is empty |
| KeyValueStore.Server.Put | src/Server.java:42-54 | the store maps the key to the value, present before or not; the reply is "200" with the put message; this is `Apply` of a put |
| KeyValueStore.Server.Get | src/Server.java:62-73 | "404" exactly when the key is absent, with the not-found message; otherwise "200" with the stored value; nothing changes |
| KeyValueStore.Server.Delete | src/Server.java:81-93 | a present key is removed, with "200" and the delete message; an absent key gives "404" and the store is unchanged |
| Client.Dispatch | src/Client.java:31-41 | "put", "get" and "del" each select exactly one call on the request's key; put alone carries the value; any other tag selects none |
| Client.DeleteTagIsDel | src/Client.java:38-40 | the delete tag is "del"; "delete" selects no call |
| Client.ValueIgnoredUnlessPut | src/Client.java:35-40 | get and delete ignore the value argument |
| Client.Send | src/Client.java:27-63 | one `sendRequest` on a store value as a function of the transport: no call for an unknown tag; `ServerNotActive` on a connect failure with the store untouched; otherwise `Apply` of the dispatched operation, reported as a Response, a remote error or a malformed reply (its properties are `SendOutcomes`) |
| Client.Reaches | src/Client.java:47-62 | the transports under which the store operation runs: delivered, a malformed reply, or a remote failure after the server ran it (a definition, no ensures) |
| Client.SendOutcomes | src/Client.java:27-63 | an unknown tag makes no call and reports the invalid-type line; a connect failure becomes ServerNotActive, never a Response, and leaves the store alone; a remote failure reports its message and a bad cast reports "malformed"; only a delivered call reports a Response, and it is that of `Apply` |
| Client.DeliveredIsOneOperation | src/Client.java:31-46 | over a network that never fails, a request is reported and is at most one store operation |
| Client.NotFoundOnlyWhenDelivered | src/Client.java:27-63 | a reported "404" comes from a delivered get or delete of an absent key |
| Client.Line | src/Client.java:42-62 | the line printed for each report, without the timestamp: the Response's `toString`, `Please enter valid request type`, the exception's message, or `Received malformed response from the server` (a definition, no ensures) |
| Client.ResponseLineDistinct | src/Client.java:42-62 | a printed Response never reads like the invalid-type line or the malformed-reply line |
| Client.SendRequest | src/Client.java:27-63 | calling the server object: the new store and the outcome are those of `Send` |
| Client.Script | src/Client.java:151-185 | the nineteen requests `prepopulate` sends, tags, keys and values in source order (a definition, no ensures) |
| Client.RunScript | src/Client.java:149-186 | requests sent one after another with their transports; the first connect failure on a dispatched request ends the run, since the exception propagates out of `prepopulate`; every other outcome is reported and the run goes on (its properties are `RunScriptStops`) |
| Client.RunScriptStops | src/Client.java:149-186 | a run of requests reports one line per completed request; it stops exactly at the first dispatched request whose connection fails; otherwise every request completes |
| Client.Advance | src/Client.java:149-186 | one more request of the script either ends the run with ServerNotActive or extends the reports by one |
| Client.Prepopulate | src/Client.java:149-186 | the script's requests in order against the server object: the new store, the reports and whether it stopped are those of the script run |
| Client.DeliveredStep | src/Client.java:31-46 | over a network that never fails, a dispatched request reports its store operation's Response and the run continues from the new store |
| Client.InitialPuts | src/Client.java:151-153 | the three opening puts reply "200" with their put messages |
| Client.PutGetKey4 | src/Client.java:156-157 | key4 is written and read back as value1 |
| Client.DeleteKey4 | src/Client.java:158 | deleting the present key4 replies "200" |
| Client.DeleteThenMissKey1 | src/Client.java:161-163 | key1 is deleted, and the get that follows reports "404" |
| Client.PutGetKey5 | src/Client.java:166-167 | key5 is written and read back as value5 |
| Client.OverwriteKey5 | src/Client.java:170-171 | the overwrite of key5 is read back as value6 |
| Client.PutKey7Key8 | src/Client.java:173-174 | key7 and key8 are written |
| Client.DeleteThenMissKey8 | src/Client.java:175-177 | key8 is deleted, and the get that follows reports "404" |
| Client.DeleteThenMissKey7 | src/Client.java:180-182 | key7 is deleted, and the get that follows reports "404" |
| Client.DeleteInvalid | src/Client.java:185 | deleting "INVALID" reports "404" unless some earlier client stored that key |
| Client.ScriptStore | src/Client.java:149-186 | the store the script leaves: key1, key4, key7, key8 and "INVALID" removed; key2, key3 and key5 set to value2, value3 and value6 (a definition, no ensures) |
| Client.ScriptReplies | src/Client.java:151-185 | the nineteen replies of a delivered run, in order, the last depending on whether "INVALID" was a key; they agree with the script's comments (a valid delete, three gets that miss, key5 read back as value6, an invalid delete) (a definition, no ensures) |
| Client.ScriptOutcome | src/Client.java:149-186 | over a network that never fails, from any store: all nineteen requests complete with the replies listed in `ScriptReplies`; key1, key4, key7, key8 and "INVALID" end absent; key2, key3 and key5 hold value2, value3 and value6; every other key is unchanged |
| Client.FreshScriptStore | src/Client.java:149-186 | from an empty store the script leaves exactly {key2: value2, key3: value3, key5: value6} |
| Client.PrepopulateFreshServer | src/Client.java:149-186 | a new server and `prepopulate`: the run completes; the gets of key1, key8 and key7 after their deletes and the final `del INVALID` report "404"; key5 reads back as value6; the store is exactly {key2: value2, key3: value3, key5: value6} |

## Left out

- The Java RMI runtime: `UnicastRemoteObject`, the registry lookups and bindings in both `main` methods, marshalling, and `CustomSocketFactory`. What the runtime does to one call is the input `Transport`.
- `RemoteServer.getClientHost()`: the caller's host appears only in log lines, so it is not modelled.
- The host lookup is taken never to fail, so a put updating the store before it (src/Server.java:43-44) is not observable. A `RemoteException` raised after the server ran the operation, such as a failure while returning the reply, is the `RemoteFailed(…, ran := true)` case.
- `getCurrentTime` and every console line, in both the server and the client. `Client.Line` gives the text the client prints for each report, without the timestamp.
- Threads and the lock. Each `synchronized` call is one atomic step, and an interleaving of concurrent calls is a sequence of steps (`Run`). The model has no threads.
- `runUI`, the interactive loop over standard input, and both `main` methods with their argument parsing and `System.exit`.
- `src/ServerInterface.java`: it only declares the three methods.
- `Client.Prepopulate`: the source writes the nineteen calls out one after another (src/Client.java:151-185). The model sends the same nineteen requests, in the same order, from the table `Script()`. Like the source, it stops at the first connection failure.
- Null tags, keys and values: the model's strings are never null.
- `Response.toString()` is not injective when a status contains a quote. The store only ever uses "200" and "404", so every response it builds round-trips (`StoreStatusesRoundTrip`).
