/** The stock gateway's `writeUpdates`: push a changed `available` quantity
    to MMS, by the stock item's local id first and by its SKU as the
    fallback. The two API calls are inputs: `byId` is what `setStock`
    returns or throws, `bySku` what `setStockBySku` does. */
module StockGateway {
  import opened PhpValues
  import opened EntityStore

  /** An API call the update makes, with the quantity it pushes. */
  datatype PushCall = ById(quantity: Value) | BySku(sku: string, quantity: Value)

  /** The result of `writeUpdates` (or the error escaping it) and the calls
      made, in order. */
  datatype Push = Push(result: Outcome<bool>, calls: seq<PushCall>)

  /** `in_array('available', $attributes)`, with PHP's loose comparison. */
  predicate UpdatesAvailable(attributes: seq<Value>)
  {
    InArray(Str("available"), attributes)
  }

  /** The stock the by-id call leaves in `$newStock`: only a set value that
      compares equal to the requested quantity stands; an exception leaves
      it unset. */
  function ByIdStock(byId: Outcome<Value>, available: Value): Option<Value>
  {
    if byId.Ok? && byId.value != Null && LooseEq(byId.value, available) then Some(byId.value) else None
  }

  /** The by-SKU call and the comparison after it; its exception is caught as
      a failure, a fatal error escapes. */
  function BySkuPush(sku: string, available: Value, bySku: Outcome<Value>, before: seq<PushCall>): Push
  {
    var calls := before + [BySku(sku, available)];
    match bySku
    case Threw(Exception(_)) => Push(Ok(false), calls)
    case Threw(FatalError(m)) => Push(Threw(FatalError(m)), calls)
    case Ok(newStock) => Push(Ok(LooseEq(newStock, available)), calls)
  }

  /** `writeUpdates($stockitem, $attributes)`, with `rest` telling whether the
      gateway holds an API client. `catch (\Exception)` does not catch a
      fatal error, so one from either call escapes. */
  function WriteUpdates(attributes: seq<Value>, rest: bool, localId: Value, sku: string, available: Value,
                        byId: Outcome<Value>, bySku: Outcome<Value>): Push
  {
    if !UpdatesAvailable(attributes) then Push(Ok(true), [])
    else if !rest then Push(Ok(false), [])
    else if !Truthy(localId) then BySkuPush(sku, available, bySku, [])
    else if byId.Threw? && byId.error.FatalError? then Push(Threw(byId.error), [ById(available)])
    else
      match ByIdStock(byId, available)
      case Some(newStock) => Push(Ok(LooseEq(newStock, available)), [ById(available)])
      case None => BySkuPush(sku, available, bySku, [ById(available)])
  }

  /** The update of a stored stock item: its local id, unique id (the SKU)
      and `available` attribute. */
  function WriteStockitem(store: Store, stockitem: Key, attributes: seq<Value>, rest: bool,
                          byId: Outcome<Value>, bySku: Outcome<Value>): Push
    reads store
    requires stockitem in store.records
  {
    WriteUpdates(attributes, rest, store.LocalIdValue(stockitem), stockitem.uniqueId,
                 Attr(store.records[stockitem], "available", Null), byId, bySku)
  }

  /** Whether the by-id attempt falls back to the SKU: it threw an exception,
      returned NULL or returned another quantity. */
  predicate FallsBack(byId: Outcome<Value>, available: Value)
  {
    !(byId.Threw? && byId.error.FatalError?) && ByIdStock(byId, available).None?
  }

  /** The stock the last call made leaves, if any. */
  function FinalStock(localId: Value, available: Value, byId: Outcome<Value>, bySku: Outcome<Value>): Option<Value>
  {
    if Truthy(localId) && byId.Threw? && byId.error.FatalError? then None
    else if Truthy(localId) && ByIdStock(byId, available).Some? then ByIdStock(byId, available)
    else if bySku.Ok? then Some(bySku.value)
    else None
  }

  /** For attribute codes given as strings, the loose `in_array` is plain
      membership: "available" is no number. */
  lemma AvailableAmongCodes(codes: seq<string>)
    ensures UpdatesAvailable(seq(|codes|, i requires 0 <= i < |codes| => Str(codes[i]))) <==> "available" in codes
  {
    var s := "available";
    assert SkipSpace(s, 0) == 0;
    assert DigitRun(s, 0) == 0;
    assert Shape(s).fracEnd == 0;
    InArrayStrings(s, codes);
  }

  /** Without a change to `available` the update succeeds and calls nothing. */
  lemma SkippedWithoutAvailable(attributes: seq<Value>, rest: bool, localId: Value, sku: string, available: Value,
                                byId: Outcome<Value>, bySku: Outcome<Value>)
    requires !UpdatesAvailable(attributes)
    ensures WriteUpdates(attributes, rest, localId, sku, available, byId, bySku) == Push(Ok(true), [])
  {
  }

  /** Without an API client the update fails and calls nothing, whether or
      not a local id exists. */
  lemma FailsWithoutRest(attributes: seq<Value>, localId: Value, sku: string, available: Value,
                         byId: Outcome<Value>, bySku: Outcome<Value>)
    requires UpdatesAvailable(attributes)
    ensures WriteUpdates(attributes, false, localId, sku, available, byId, bySku) == Push(Ok(false), [])
  {
  }

  /** With a client and a local id the update is tried by id first; it falls
      back to the SKU exactly when that attempt threw an exception or did not
      return the quantity. */
  lemma ByIdFirst(attributes: seq<Value>, localId: Value, sku: string, available: Value,
                  byId: Outcome<Value>, bySku: Outcome<Value>)
    requires UpdatesAvailable(attributes) && Truthy(localId)
    ensures var p := WriteUpdates(attributes, true, localId, sku, available, byId, bySku);
      && |p.calls| >= 1 && p.calls[0] == ById(available)
      && (FallsBack(byId, available) <==> |p.calls| == 2)
      && (FallsBack(byId, available) ==> p.calls[1] == BySku(sku, available))
      && (!FallsBack(byId, available) ==> |p.calls| == 1)
  {
  }

  /** With a client but no (truthy) local id only the SKU call is made. */
  lemma BySkuWithoutLocalId(attributes: seq<Value>, localId: Value, sku: string, available: Value,
                            byId: Outcome<Value>, bySku: Outcome<Value>)
    requires UpdatesAvailable(attributes) && !Truthy(localId)
    ensures WriteUpdates(attributes, true, localId, sku, available, byId, bySku).calls == [BySku(sku, available)]
  {
  }

  /** With a client, the update succeeds exactly when the stock the last call
      returned compares equal to the requested quantity; an exception from
      the SKU call makes it fail; only a fatal error escapes. */
  lemma SuccessMeaning(attributes: seq<Value>, localId: Value, sku: string, available: Value,
                       byId: Outcome<Value>, bySku: Outcome<Value>)
    requires UpdatesAvailable(attributes)
    ensures var p := WriteUpdates(attributes, true, localId, sku, available, byId, bySku);
      var final := FinalStock(localId, available, byId, bySku);
      && (p.result == Ok(true) <==> final.Some? && LooseEq(final.value, available))
      && (p.result.Threw? <==>
            (Truthy(localId) && byId.Threw? && byId.error.FatalError?)
            || ((!Truthy(localId) || FallsBack(byId, available)) && bySku.Threw? && bySku.error.FatalError?))
      && (p.result.Threw? ==> p.result.error.FatalError?)
  {
  }

  /** The by-id attempt of the version-1 API always throws; once it is the
      fatal error of the missing PATCH encoder, it escapes the update. */
  lemma FatalByIdEscapes(attributes: seq<Value>, localId: Value, sku: string, available: Value,
                         message: string, bySku: Outcome<Value>)
    requires UpdatesAvailable(attributes) && Truthy(localId)
    ensures WriteUpdates(attributes, true, localId, sku, available, Threw(FatalError(message)), bySku)
            == Push(Threw(FatalError(message)), [ById(available)])
  {
  }
}
