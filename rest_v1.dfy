/** Version 1 of the MMS REST API: the order cursor, order details, order
    completion and stock updates, each one `call` of the REST client. */
module RestV1 {
  import opened PhpStrings
  import opened PhpValues
  import opened EntityStore
  import opened RestCurl

  const TestMode: bool := true
  /** `TEST_BASE_URI`, written as scheme, host and slash. */
  const TestBaseUri: string := TestHost + "/"

  /** A version-1 client for a node's configuration. */
  method NewClient(webUrl: Value, appId: Value, appKey: Value, marketplaceId: Value, primitives: Primitives)
    returns (c: RestClient)
    ensures fresh(c) && c.Valid()
    ensures c.testMode == TestMode && c.testBaseUri == TestBaseUri
    ensures c.webUrl == webUrl && c.appId == appId && c.appKey == appKey && c.marketplaceId == marketplaceId
    ensures c.primitives == primitives
    ensures c.authorisation.None? && c.requestType.None? && c.request.None?
  {
    c := new RestClient(TestMode, TestBaseUri, webUrl, appId, appKey, marketplaceId, primitives);
  }

  const TestHost: string := "https://" + "staging-api-mm-base-mms.marketengine.com"

  /** In test mode every call goes to the staging host, whatever the node's
      `web_url` says. */
  lemma TestUrl(c: RestClient, callType: string)
    requires c.testMode == TestMode && c.testBaseUri == TestBaseUri
    ensures c.GetUrl(callType) == Ok(TestHost + "/" + callType)
  {
    assert TestHost[0] == 'h' && TestHost[|TestHost| - 1] == 'm';
    TrimOneTrailing(TestHost, '/', {'/'});
  }

  // ---------------------------------------------------------------- order cursor

  /** `(string) intval($sinceId) == (string) $sinceId`: the cursor is an integer. */
  predicate SinceIdIsIntegral(sinceId: Value)
  {
    LooseEq(Str(IntToString(Intval(sinceId))), Str(Text(sinceId)))
  }

  function SinceIdCallType(sinceId: Value): string
  {
    "orders/ids?since_id=" + Text(sinceId)
  }

  /** The response keys copied into the result, and the names they get. */
  const IdsMap: seq<(string, string)> := [("new_since_id", "newSinceId"), ("order_ids", "localOrderIds")]

  /** The result when the call failed: the cursor stays and no order is new. */
  function Fallback(sinceId: Value): Value
  {
    Arr([("newSinceId", sinceId), ("localOrderIds", Arr([]))])
  }

  /** The result `getOrderIdsSinceResult` derives from a response. */
  function OrderIdsSince(sinceId: Value, response: Value): Value
  {
    var result := Index(response, "Result");
    if Truthy(Index(response, "success"))
    then Arr([("newSinceId", Index(result, "new_since_id")), ("localOrderIds", Index(result, "order_ids"))])
    else Fallback(sinceId)
  }

  /** The result has exactly the two keys, in order; a successful response
      supplies both values, any other keeps the cursor and lists no order. */
  lemma OrderIdsSinceMeaning(sinceId: Value, response: Value)
    ensures var r := OrderIdsSince(sinceId, response);
      && r.Arr? && |r.entries| == 2 && r.entries[0].0 == "newSinceId" && r.entries[1].0 == "localOrderIds"
      && (Truthy(Index(response, "success")) ==>
            Index(r, "newSinceId") == Index(Index(response, "Result"), "new_since_id")
            && Index(r, "localOrderIds") == Index(Index(response, "Result"), "order_ids"))
      && (!Truthy(Index(response, "success")) ==>
            Index(r, "newSinceId") == sinceId && Index(r, "localOrderIds") == Arr([]))
  {
    var r := OrderIdsSince(sinceId, response);
    LookupFirst(r.entries, 0);
    LookupFirst(r.entries, 1);
  }

  /** A cursor that is not integral is never sent: the undefined response
      reads as NULL, so the fallback is returned. */
  lemma OrderIdsSinceWithoutResponse(sinceId: Value)
    ensures OrderIdsSince(sinceId, Null) == Fallback(sinceId)
  {
  }

  /** Any PHP integer passes the integrality check. */
  lemma IntegerSinceId(n: int)
    ensures SinceIdIsIntegral(Int(n))
  {
    var s := IntToString(n);
    if IsNumericText(s) {
    } else {
      LooseEqStrings(s, s);
    }
  }

  /** A text with letters after its digits fails the check. */
  lemma TrailingLetterSinceId()
    ensures !SinceIdIsIntegral(Str("5x"))
  {
    var s := "5x";
    assert Shape(s).intEnd == 1 by {
      assert SkipSpace(s, 0) == 0;
      assert DigitRun(s, 1) == 1;
    }
    assert s[0..1] == "5";
    assert StrIntval(s) == 5;
    assert IntToString(5) == "5";
    assert !IsNumericText(s) by {
      assert Shape(s).fracEnd == 1;
    }
    LooseEqStrings(s, "5");
  }

  /** The outcome of `getOrderIdsSinceResult` once the call has returned. */
  function SinceOutcome(sinceId: Value, called: Outcome<Value>): Outcome<Value>
  {
    match called
    case Threw(e) => Threw(e)
    case Ok(response) => Ok(OrderIdsSince(sinceId, response))
  }

  /** The `foreach` over the key map: each mapped key gets the entry of the
      response's `Result`, NULL when that is missing. */
  method CopyIds(response: Value) returns (result: Value)
    ensures result.Arr? && |result.entries| == |IdsMap|
    ensures forall j :: 0 <= j < |IdsMap| ==>
              result.entries[j] == (IdsMap[j].1, Index(Index(response, "Result"), IdsMap[j].0))
  {
    result := Arr([]);
    var i := 0;
    while i < |IdsMap|
      invariant 0 <= i <= |IdsMap|
      invariant result.Arr? && |result.entries| == i
      invariant forall j :: 0 <= j < i ==>
                  result.entries[j] == (IdsMap[j].1, Index(Index(response, "Result"), IdsMap[j].0))
    {
      result := Arr(result.entries + [(IdsMap[i].1, Index(Index(response, "Result"), IdsMap[i].0))]);
      i := i + 1;
    }
  }

  /** The copied keys with the success check make up `OrderIdsSince`. */
  method SinceResult(sinceId: Value, response: Value) returns (result: Value)
    ensures result == OrderIdsSince(sinceId, response)
  {
    result := CopyIds(response);
    if !Truthy(Index(response, "success")) || |result.entries| != |IdsMap| {
      result := Fallback(sinceId);
    } else {
      assert result.entries == [result.entries[0], result.entries[1]];
    }
  }

  /** What `getOrderIdsSinceResult($sinceId)` returns from the client's
      state: the fallback for a cursor that is not integral, otherwise the
      result of the call. */
  function SinceCall(client: RestClient, sinceId: Value, timestamp: int, nonce: string,
                     send: Request -> Outcome<Value>): Outcome<Value>
    reads client
  {
    if !SinceIdIsIntegral(sinceId) then Ok(Fallback(sinceId))
    else SinceOutcome(sinceId, client.CallOutcome(GET, SinceIdCallType(sinceId), Arr([]), timestamp, nonce, send))
  }

  /** A cursor result always holds the two keys `newSinceId` and
      `localOrderIds`, so `count` of it is 2 whatever the number of orders. */
  lemma SinceOutcomeShape(sinceId: Value, called: Outcome<Value>)
    ensures var r := SinceOutcome(sinceId, called);
      r.Ok? ==> r.value.Arr? && Count(r.value) == 2
                && r.value.entries[0].0 == "newSinceId" && r.value.entries[1].0 == "localOrderIds"
  {
    if called.Ok? {
      OrderIdsSinceMeaning(sinceId, called.value);
    }
  }

  /** `getOrderIdsSinceResult($sinceId)`. */
  method GetOrderIdsSinceResult(client: RestClient, sinceId: Value, timestamp: int, nonce: string,
                                send: Request -> Outcome<Value>) returns (r: Outcome<Value>)
    requires client.Valid()
    modifies client
    ensures client.Valid()
    ensures !SinceIdIsIntegral(sinceId) ==> r == Ok(Fallback(sinceId)) && unchanged(client)
    ensures r == old(SinceCall(client, sinceId, timestamp, nonce, send))
    ensures r.Ok? ==> r.value.Arr? && Count(r.value) == 2
                      && r.value.entries[0].0 == "newSinceId" && r.value.entries[1].0 == "localOrderIds"
    ensures SinceIdIsIntegral(sinceId) ==>
              r == SinceOutcome(sinceId, old(client.CallOutcome(GET, SinceIdCallType(sinceId), Arr([]),
                                                                timestamp, nonce, send)))
  {
    if !SinceIdIsIntegral(sinceId) {
      var result := SinceResult(sinceId, Null);
      return Ok(result);
    }
    var called := client.Call(GET, SinceIdCallType(sinceId), Arr([]), timestamp, nonce, send);
    if called.Threw? {
      return Threw(called.error);
    }
    var result := SinceResult(sinceId, called.value);
    SinceOutcomeShape(sinceId, called);
    r := Ok(result);
  }

  // ---------------------------------------------------------------- order details

  /** The parameters `getOrderDetailsById` passes on: a non-empty list of
      field names becomes one comma-joined `fields` entry. */
  function DetailsQuery(parameters: Value): (r: Value)
  {
    if parameters.Arr? && |parameters.entries| > 0
    then Arr([("fields", Str(Implode(",", FieldNames(parameters))))])
    else parameters
  }

  function FieldNames(parameters: Value): (r: seq<string>)
    ensures |r| == |Elements(parameters)|
    ensures forall i :: 0 <= i < |r| ==> r[i] == Text(Elements(parameters)[i])
  {
    var xs := Elements(parameters);
    seq(|xs|, i requires 0 <= i < |xs| => Text(xs[i]))
  }

  /** The joined `fields` entry splits back into the field names when no name
      holds a comma. */
  lemma DetailsFieldsSplit(parameters: Value)
    requires parameters.Arr? && |parameters.entries| > 0
    requires forall i :: 0 <= i < |parameters.entries| ==> !Contains(Text(parameters.entries[i].1), ",")
    ensures var q := DetailsQuery(parameters);
      Index(q, "fields").Str? && Explode(",", Index(q, "fields").s) == FieldNames(parameters)
  {
    var names := FieldNames(parameters);
    forall i | 0 <= i < |names| ensures !Contains(names[i], [',']) {
      assert names[i] == Text(parameters.entries[i].1);
    }
    ExplodeImplode(',', names);
  }

  /** A GET only sends parameters under `filter`, so the `fields` restriction
      never reaches the server: the encoded request is the prepared one. */
  lemma DetailsFieldsNotSent(client: RestClient, parameters: Value, req: Request)
    ensures client.Encode(GET, DetailsQuery(parameters), req) == Ok(req)
  {
    SetterNameGet();
    var q := DetailsQuery(parameters);
    if parameters.Arr? && |parameters.entries| > 0 {
      LookupMeaning(q.entries, "filter");
      assert Index(q, "filter") == Null;
    }
    if FilterGiven(q) {
      assert false;
    }
  }

  /** The details a response carries: its `Result` when the call succeeded
      and the entry is set, an empty array otherwise. */
  function OrderDetails(response: Value): (r: Value)
  {
    if Truthy(Index(response, "success")) && Isset(response, "Result") then Index(response, "Result") else Arr([])
  }

  lemma OrderDetailsMeaning(response: Value)
    ensures Truthy(Index(response, "success")) && Isset(response, "Result") ==>
              OrderDetails(response) == Index(response, "Result") && OrderDetails(response) != Null
    ensures !(Truthy(Index(response, "success")) && Isset(response, "Result")) ==>
              OrderDetails(response) == Arr([]) && !Truthy(OrderDetails(response))
  {
  }

  /** `getOrderDetailsById($localOrderId, $parameters)`. */
  method GetOrderDetailsById(client: RestClient, localOrderId: Value, parameters: Value, timestamp: int,
                             nonce: string, send: Request -> Outcome<Value>) returns (r: Outcome<Value>)
    requires client.Valid()
    requires parameters.Arr?
    modifies client
    ensures client.Valid()
    ensures var o := old(client.CallOutcome(GET, "orders/" + Text(localOrderId), DetailsQuery(parameters),
                                            timestamp, nonce, send));
      (o.Threw? ==> r == Threw(o.error)) && (o.Ok? ==> r == Ok(OrderDetails(o.value)))
  {
    var query := parameters;
    if |parameters.entries| > 0 {
      query := Arr([("fields", Str(Implode(",", FieldNames(parameters))))]);
    }
    var response := client.Call(GET, "orders/" + Text(localOrderId), query, timestamp, nonce, send);
    if response.Threw? {
      return Threw(response.error);
    }
    if Truthy(Index(response.value, "success")) && Isset(response.value, "Result") {
      r := Ok(Index(response.value, "Result"));
    } else {
      r := Ok(Arr([]));
    }
  }

  // ---------------------------------------------------------------- completion

  /** One entry of `order_items`: the item's local id, NULL when unlinked. */
  function ItemRef(store: Store, item: Key): Value
    reads store
  {
    Arr([("order_item_id", store.LocalIdValue(item))])
  }

  /** The `order_items` list: one reference per item, in order. */
  function Refs(store: Store, items: seq<Key>): (r: seq<Value>)
    reads store
    ensures |r| == |items|
  {
    seq(|items|, i requires 0 <= i < |items| reads store => ItemRef(store, items[i]))
  }

  /** The body `completeOrder` posts. */
  function CompletionParameters(store: Store, order: Key): Value
    reads store
    requires order in store.records
  {
    Arr([("order_id", store.LocalIdValue(order)),
         ("tracking_reference", Attr(store.records[order], "tracking_code", Null)),
         ("order_items", List(Refs(store, store.Items(order))))])
  }

  /** The posted body names the order's local id and tracking code and, item
      by item in creation order, the local id of every order item (NULL for
      an unlinked one). */
  lemma CompletionParametersMeaning(store: Store, order: Key)
    requires order in store.records
    ensures var p := CompletionParameters(store, order);
      && Index(p, "order_id") == store.LocalIdValue(order)
      && Index(p, "tracking_reference") == Attr(store.records[order], "tracking_code", Null)
      && |Elements(Index(p, "order_items"))| == |store.Items(order)|
      && forall i :: 0 <= i < |store.Items(order)| ==>
           Index(Elements(Index(p, "order_items"))[i], "order_item_id") == store.LocalIdValue(store.Items(order)[i])
  {
    var p := CompletionParameters(store, order);
    var refs := Refs(store, store.Items(order));
    LookupFirst(p.entries, 0);
    LookupFirst(p.entries, 1);
    LookupFirst(p.entries, 2);
    forall i | 0 <= i < |store.Items(order)|
      ensures Index(Elements(Index(p, "order_items"))[i], "order_item_id") == store.LocalIdValue(store.Items(order)[i])
    {
      assert Elements(List(refs))[i] == refs[i];
    }
  }

  /** A POST always carries the JSON of its parameters. */
  lemma PostSendsJson(client: RestClient, parameters: Value, req: Request)
    ensures client.Encode(POST, parameters, req) == Ok(req.(content := Some(client.primitives.jsonEncode(parameters))))
  {
    SetterNamePost();
  }

  /** The `foreach` over the order items. */
  method ItemRefs(store: Store, items: seq<Key>) returns (refs: seq<Value>)
    ensures refs == Refs(store, items)
  {
    refs := [];
    for i := 0 to |items|
      invariant refs == Refs(store, items[..i])
    {
      assert items[..i + 1] == items[..i] + [items[i]];
      refs := refs + [Arr([("order_item_id", store.LocalIdValue(items[i]))])];
    }
    assert items[..|items|] == items;
  }

  /** The outcome of `completeOrder` once the call has returned: the
      response's `success` entry. */
  function CompletionOutcome(called: Outcome<Value>): Outcome<Value>
  {
    match called
    case Threw(e) => Threw(e)
    case Ok(response) => Ok(Index(response, "success"))
  }

  /** `completeOrder($order)`. */
  method CompleteOrder(client: RestClient, store: Store, order: Key, timestamp: int, nonce: string,
                       send: Request -> Outcome<Value>) returns (r: Outcome<Value>)
    requires client.Valid()
    requires order in store.records
    modifies client
    ensures client.Valid()
    ensures r == CompletionOutcome(old(client.CallOutcome(POST, "fulfillments/complete",
                                                          CompletionParameters(store, order), timestamp, nonce, send)))
  {
    var refs := ItemRefs(store, store.Items(order));
    var parameters := Arr([("order_id", store.LocalIdValue(order)),
                           ("tracking_reference", Attr(store.records[order], "tracking_code", Null)),
                           ("order_items", List(refs))]);
    var response := client.Call(POST, "fulfillments/complete", parameters, timestamp, nonce, send);
    r := CompletionOutcome(response);
  }

  // ---------------------------------------------------------------- stock

  function StockCallType(store: Store, stockitem: Key): string
    reads store
  {
    "variations/" + Text(store.LocalIdValue(stockitem)) + "/inventory"
  }

  /** What `updateStock` would return from a response: the requested quantity
      on success, NULL otherwise. */
  function StockResult(parameters: Value, response: Value): Value
  {
    if Truthy(Index(response, "success")) then Index(parameters, "available_quantity") else Null
  }

  /** The stock parameters: the quantity and the node's marketplace. */
  function StockParameters(quantity: Value, marketplaceId: Value): Value
  {
    Set(Arr([("available_quantity", quantity)]), "market_place", marketplaceId)
  }

  lemma StockResultMeaning(quantity: Value, marketplaceId: Value, response: Value)
    ensures var p := StockParameters(quantity, marketplaceId);
      && Index(p, "available_quantity") == quantity && Index(p, "market_place") == marketplaceId
      && (Truthy(Index(response, "success")) ==> StockResult(p, response) == quantity)
      && (!Truthy(Index(response, "success")) ==> StockResult(p, response) == Null)
  {
  }

  /** PATCH has no encoder in the client, so every PATCH call ends in the
      fatal error of the missing `setPatchfields`, before anything is sent. */
  lemma PatchAlwaysFails(client: RestClient, parameters: Value, req: Request, send: Request -> Outcome<Value>)
    ensures client.Exchange(PATCH, parameters, req, send) == Threw(FatalError("Call to undefined method setPatchfields()"))
  {
    SetterNamePatch();
    assert EncoderFor(PATCH) == None;
    assert "Call to undefined method " + SetterName(PATCH) + "()" == "Call to undefined method setPatchfields()";
  }

  /** `setStock($stockitem, $newQuantity)` through `updateStock`: always an
      error, the fatal one once a base URL is configured. */
  method SetStock(client: RestClient, store: Store, stockitem: Key, quantity: Value, timestamp: int,
                  nonce: string, send: Request -> Outcome<Value>) returns (r: Outcome<Value>)
    requires client.Valid()
    modifies client
    ensures client.Valid()
    ensures r == old(client.CallOutcome(PATCH, StockCallType(store, stockitem),
                                        StockParameters(quantity, client.marketplaceId), timestamp, nonce, send))
    ensures r.Threw?
    ensures |client.BaseUrl()| > 0 ==> r == Threw(FatalError("Call to undefined method setPatchfields()"))
  {
    var parameters := Set(Arr([("available_quantity", quantity)]), "market_place", client.marketplaceId);
    var response := client.Call(PATCH, StockCallType(store, stockitem), parameters, timestamp, nonce, send);
    if |client.BaseUrl()| > 0 {
      PatchAlwaysFails(client, parameters, client.Prepared(PATCH, client.GetUrl(StockCallType(store, stockitem)).value,
                                                    client.authorisation.value), send);
    }
    r := match response
      case Threw(e) => Threw(e)
      case Ok(v) => Ok(StockResult(parameters, v));
  }
}
