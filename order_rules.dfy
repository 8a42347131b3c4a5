/** The order gateway's pure rules: which MMS order statuses are imported and
    which move stock, the unique and store ids of an order, the bundle SKU
    split, the name split, the street composition, the synthesised customer
    email and the order totals. */
module OrderRules {
  import opened PhpStrings
  import opened PhpValues

  // ---------------------------------------------------------------- statuses

  const Paid := "paid"
  const PartiallyShipped := "partially shipped"
  const Shipped := "shipped"
  const Completed := "completed"
  const Closed := "closed"
  const WaitForDelivery := "wait_seller_delivery"
  const WaitForGoods := "wait_seller_send_goods"

  const ShippableStatuses: seq<string> := [Paid, PartiallyShipped, WaitForDelivery, WaitForGoods]
  const ExcludeStatuses: seq<string> := [Shipped, Completed, Closed]
  const InitialExcludeStatuses: seq<string> := [PartiallyShipped, Shipped, Completed, Closed]

  /** A list of PHP strings. */
  function Strs(words: seq<string>): (r: seq<Value>)
    ensures |r| == |words| && forall i :: 0 <= i < |r| ==> r[i] == Str(words[i])
  {
    seq(|words|, i requires 0 <= i < |words| => Str(words[i]))
  }

  /** `getOrderStatusFromOrderData`: the `status` entry, NULL when unset. */
  function OrderStatus(orderData: Value): Value
  {
    Index(orderData, "status")
  }

  /** `isShippableOrderStatus`: loose membership in the shippable list. */
  predicate IsShippableOrderStatus(status: Value)
  {
    InArray(status, Strs(ShippableStatuses))
  }

  /** `hasOrderStatusClosed`: loose equality with "closed". */
  predicate HasOrderStatusClosed(status: Value)
  {
    LooseEq(status, Str(Closed))
  }

  /** `isOrderToBeRetrieved($orderData, $sinceId)`: excluded statuses are
      skipped; on the first run (a cursor loosely equal to 1) the initial
      exclusions are skipped as well. */
  predicate IsOrderToBeRetrieved(orderData: Value, sinceId: Value)
  {
    if InArray(OrderStatus(orderData), Strs(ExcludeStatuses)) then false
    else if LooseEq(sinceId, Int(1)) && InArray(OrderStatus(orderData), Strs(InitialExcludeStatuses)) then false
    else true
  }

  /** A text starting with a letter is no numeric string. */
  lemma LetterStartIsNotNumeric(s: string)
    requires |s| > 0 && 'a' <= s[0] <= 'z'
    ensures !IsNumericText(s)
  {
    assert SkipSpace(s, 0) == 0;
    assert DigitRun(s, 0) == 0;
  }

  /** Against a word that is no number, loose equality of strings is equality. */
  lemma InArrayWords(needle: string, words: seq<string>)
    requires forall i :: 0 <= i < |words| ==> |words[i]| > 0 && 'a' <= words[i][0] <= 'z'
    ensures InArray(Str(needle), Strs(words)) <==> needle in words
  {
    var hs := Strs(words);
    forall i | 0 <= i < |words| ensures LooseEq(Str(needle), hs[i]) <==> needle == words[i] {
      LetterStartIsNotNumeric(words[i]);
    }
    if needle in words {
      var i :| 0 <= i < |words| && words[i] == needle;
      assert LooseEq(Str(needle), hs[i]);
    }
  }

  /** For a status given as a string: shipped, completed and closed orders are
      never retrieved, "partially shipped" is skipped exactly on the first run,
      and every other status is retrieved. */
  lemma RetrievedStatus(orderData: Value, sinceId: Value, s: string)
    requires OrderStatus(orderData) == Str(s)
    ensures IsOrderToBeRetrieved(orderData, sinceId)
            <==> s !in ExcludeStatuses && !(s == PartiallyShipped && LooseEq(sinceId, Int(1)))
  {
    InArrayWords(s, ExcludeStatuses);
    InArrayWords(s, InitialExcludeStatuses);
  }

  /** An order without a status is retrieved, whatever the cursor. */
  lemma MissingStatusRetrieved(orderData: Value, sinceId: Value)
    requires !Isset(orderData, "status")
    ensures IsOrderToBeRetrieved(orderData, sinceId)
  {
    assert OrderStatus(orderData) == Null;
    assert !InArray(Null, Strs(ExcludeStatuses)) by {
      forall i | 0 <= i < |ExcludeStatuses| ensures !LooseEq(Null, Strs(ExcludeStatuses)[i]) {
      }
    }
    assert !InArray(Null, Strs(InitialExcludeStatuses)) by {
      forall i | 0 <= i < |InitialExcludeStatuses| ensures !LooseEq(Null, Strs(InitialExcludeStatuses)[i]) {
      }
    }
  }

  /** For string statuses: shippable means one of the four shippable names,
      closed means "closed", and no status is both. */
  lemma StatusClasses(s: string)
    ensures IsShippableOrderStatus(Str(s)) <==> s in ShippableStatuses
    ensures HasOrderStatusClosed(Str(s)) <==> s == Closed
    ensures !(IsShippableOrderStatus(Str(s)) && HasOrderStatusClosed(Str(s)))
  {
    InArrayWords(s, ShippableStatuses);
    LetterStartIsNotNumeric(Closed);
  }

  // ---------------------------------------------------------------- ids

  const MmsOrderUniquePrefix := "M"

  /** `getUniqueIdFromOrderData`: "M" and the marketplace order reference. */
  function UniqueIdFromOrderData(orderData: Value): string
  {
    MmsOrderUniquePrefix + Text(Index(orderData, "marketplace_order_reference"))
  }

  /** `isMmsOrder`: the unique id starts with "M" (`strpos(...) === 0`). */
  predicate IsMmsOrder(uniqueId: string)
  {
    IndexOf(uniqueId, MmsOrderUniquePrefix) == 0
  }

  /** Exactly the unique ids starting with "M" are MMS orders, and so is every
      id the gateway derives. */
  lemma MmsOrderIds(uniqueId: string, orderData: Value)
    ensures IsMmsOrder(uniqueId) <==> |uniqueId| > 0 && uniqueId[0] == 'M'
    ensures IsMmsOrder(UniqueIdFromOrderData(orderData))
  {
    if |uniqueId| > 0 && uniqueId[0] == 'M' {
      assert OccursAt(uniqueId, "M", 0);
    }
    var u := UniqueIdFromOrderData(orderData);
    assert OccursAt(u, "M", 0);
  }

  /** Two orders share a unique id exactly when their references print alike. */
  lemma UniqueIdInjective(a: Value, b: Value)
    ensures UniqueIdFromOrderData(a) == UniqueIdFromOrderData(b)
            <==> Text(Index(a, "marketplace_order_reference")) == Text(Index(b, "marketplace_order_reference"))
  {
    var ta := Text(Index(a, "marketplace_order_reference"));
    var tb := Text(Index(b, "marketplace_order_reference"));
    if UniqueIdFromOrderData(a) == UniqueIdFromOrderData(b) {
      assert ta == UniqueIdFromOrderData(a)[1..];
      assert tb == UniqueIdFromOrderData(b)[1..];
    }
  }

  predicate IsScalar(v: Value)
  {
    v.Bool? || v.Int? || v.Num? || v.Str?
  }

  /** `getStoreIdFromMarketPlaceId`: the store prefix and the marketplace id;
      for a non-scalar id, the prefix trimmed of slashes and white space. */
  function StoreIdFromMarketplaceId(storePrefix: string, marketplaceId: Value): string
  {
    if IsScalar(marketplaceId) then storePrefix + Text(marketplaceId)
    else Trim(TrimBy(storePrefix, {'/'}))
  }

  /** Distinct marketplace ids given as strings get distinct store ids, each
      starting with the prefix. */
  lemma StoreIdsDistinct(storePrefix: string, a: string, b: string)
    requires a != b
    ensures StartsWith(StoreIdFromMarketplaceId(storePrefix, Str(a)), storePrefix)
    ensures StoreIdFromMarketplaceId(storePrefix, Str(a)) != StoreIdFromMarketplaceId(storePrefix, Str(b))
  {
    var ia := StoreIdFromMarketplaceId(storePrefix, Str(a));
    var ib := StoreIdFromMarketplaceId(storePrefix, Str(b));
    assert ia[..|storePrefix|] == storePrefix;
    assert ia[|storePrefix|..] == a && ib[|storePrefix|..] == b;
  }

  /** What `getEntityStoreId` is asked about: a store number, an order entity
      or anything else. */
  datatype StoreSubject = StoreNumber(n: int) | OrderEntity(order: Key) | OtherSubject

  /** `getEntityStoreId($orderOrStoreId, $global)`: store 0 for global
      entities, else the number or the order's store; NULL otherwise. */
  function EntityStoreId(subject: StoreSubject, global: bool): Option<string>
  {
    if global then Some("0")
    else match subject
      case StoreNumber(n) => Some(IntToString(n))
      case OrderEntity(order) => Some(order.storeId)
      case OtherSubject => None
  }

  /** Customers and stock items are global (store 0) whatever is asked; an
      order's items live in the order's store; a store given by number keeps
      it; nothing else has a store. */
  lemma EntityStores(subject: StoreSubject, order: Key, n: int)
    ensures EntityStoreId(subject, true) == Some("0")
    ensures EntityStoreId(OrderEntity(order), false) == Some(order.storeId)
    ensures EntityStoreId(StoreNumber(n), false).Some? && DecimalTextValue(EntityStoreId(StoreNumber(n), false).value) == n
    ensures EntityStoreId(OtherSubject, false) == None
  {
    IntToStringIsDecimalText(n);
  }

  // ---------------------------------------------------------------- shipping

  const DirectMail := "direct_mail"
  const TrackedEms := "int_ems_china_3-8_tracked"

  /** `getShippingMethod($orderitemData)`: the one mapped shipping type. */
  function ShippingMethod(orderitem: Value): Value
  {
    if Isset(orderitem, "shipping_type") && Text(Index(orderitem, "shipping_type")) == DirectMail
    then Str(TrackedEms) else Null
  }

  /** An item has a shipping method exactly when its shipping type is direct
      mail, and that method is the tracked EMS one. */
  lemma ShippingMethodMeaning(orderitem: Value)
    ensures ShippingMethod(orderitem) != Null <==> Text(Index(orderitem, "shipping_type")) == DirectMail
    ensures ShippingMethod(orderitem) != Null ==> ShippingMethod(orderitem) == Str(TrackedEms)
  {
  }

  // ---------------------------------------------------------------- bundle SKUs

  const FallbackSku := "<undefined on mms>"

  /** A SKU with the bundle multiplier split off it. */
  datatype BundleSku = BundleSku(sku: string, multiplier: nat)

  /** The bundle split of `createItems`: the SKU is exploded at the
      separator; when there is more than one piece and the last piece passes
      `(string) intval($q) === ltrim($q, '0')` with a positive value, the other
      pieces joined again are the SKU and that value is the multiplier;
      otherwise the SKU stays as it is, with multiplier 1. */
  function SplitBundleSku(separator: string, raw: string): (r: BundleSku)
    requires |separator| > 0
    ensures r.multiplier >= 1
  {
    SplitPieces(separator, Explode(separator, raw), raw)
  }

  /** The split once the SKU is exploded into `pieces`. */
  function SplitPieces(separator: string, pieces: seq<string>, raw: string): (r: BundleSku)
    requires |pieces| >= 1
    ensures r.multiplier >= 1
  {
    var last := pieces[|pieces| - 1];
    var n := StrIntval(last);
    if |pieces| > 1 && IntToString(n) == LTrim(last, {'0'}) && n > 0
    then BundleSku(Implode(separator, pieces[..|pieces| - 1]), n)
    else BundleSku(raw, 1)
  }

  lemma SplitPiecesMeaning(separator: string, pieces: seq<string>, raw: string)
    requires |pieces| >= 1
    ensures var last := pieces[|pieces| - 1];
      SplitPieces(separator, pieces, raw) ==
        if |pieces| > 1 && IsMultiplierText(last)
        then BundleSku(Implode(separator, pieces[..|pieces| - 1]), DigitsValue(last))
        else BundleSku(raw, 1)
  {
    MultiplierCheck(pieces[|pieces| - 1]);
  }

  /** A multiplier as the split accepts it: decimal digits only (no sign, no
      white space, leading zeros allowed), a positive value within PHP's
      integer range. */
  predicate IsMultiplierText(t: string)
  {
    AllDigits(t) && LTrim(t, {'0'}) != "" && DigitsValue(t) <= PhpIntMax
  }

  /** A multiplier text reads as its value and passes the `intval` check. */
  lemma MultiplierAccepted(t: string)
    requires IsMultiplierText(t)
    ensures StrIntval(t) == DigitsValue(t) > 0
    ensures IntToString(StrIntval(t)) == LTrim(t, {'0'})
  {
    var u := LTrim(t, {'0'});
    LTrimZeros(t);
    DigitsIntval(t);
    NatToStringOfDigits(u);
    DigitsValuePositive(u);
  }

  /** Only a multiplier text passes the `intval` check with a positive value. */
  lemma MultiplierOnly(t: string)
    requires IntToString(StrIntval(t)) == LTrim(t, {'0'}) && StrIntval(t) > 0
    ensures IsMultiplierText(t)
  {
    var n := StrIntval(t);
    assert LTrim(t, {'0'}) == NatToString(n);
    LTrimZerosBack(t);
  }

  /** The `intval` round trip accepts exactly the multiplier texts, and reads
      their value. */
  lemma MultiplierCheck(t: string)
    ensures (IntToString(StrIntval(t)) == LTrim(t, {'0'}) && StrIntval(t) > 0) <==> IsMultiplierText(t)
    ensures IsMultiplierText(t) ==> StrIntval(t) == DigitsValue(t)
  {
    if IsMultiplierText(t) {
      MultiplierAccepted(t);
    }
    if IntToString(StrIntval(t)) == LTrim(t, {'0'}) && StrIntval(t) > 0 {
      MultiplierOnly(t);
    }
  }

  lemma NoCharNotContained(c: char, s: string)
    requires forall i :: 0 <= i < |s| ==> s[i] != c
    ensures !Contains(s, [c])
  {
    forall j | 0 <= j < |s| ensures !OccursAt(s, [c], j) {
      assert s[j..j + 1] == [s[j]];
    }
  }

  /** With a one-character separator that is no digit, a base SKU, the
      separator and a multiplier text split back into the base and the
      multiplier, whatever the base holds. */
  lemma BundleSkuRoundTrip(c: char, base: string, t: string)
    requires !IsDigit(c) && IsMultiplierText(t)
    ensures SplitBundleSku([c], base + [c] + t) == BundleSku(base, DigitsValue(t))
  {
    var raw := base + [c] + t;
    ExplodeConcat(c, base, t);
    ExplodeNoChar(c, t);
    var pieces := Explode([c], raw);
    assert pieces == Explode([c], base) + [t];
    assert pieces[..|pieces| - 1] == Explode([c], base);
    ImplodeExplode([c], base);
    SplitPiecesMeaning([c], pieces, raw);
  }

  /** A SKU without the separator character is no bundle. */
  lemma PlainSkuKept(c: char, raw: string)
    requires forall i :: 0 <= i < |raw| ==> raw[i] != c
    ensures SplitBundleSku([c], raw) == BundleSku(raw, 1)
  {
    ExplodeNoChar(c, raw);
  }

  /** A SKU whose last character is no digit is no bundle, whatever the
      separator. */
  lemma NoDigitEndKept(separator: string, raw: string)
    requires |separator| > 0
    requires |raw| > 0 && !IsDigit(raw[|raw| - 1])
    ensures SplitBundleSku(separator, raw) == BundleSku(raw, 1)
  {
    var pieces := Explode(separator, raw);
    var last := pieces[|pieces| - 1];
    ExplodeLastIsSuffix(separator, raw);
    if IsMultiplierText(last) {
      assert false;
    }
    SplitPiecesMeaning(separator, pieces, raw);
  }

  /** The fallback SKU ends in no digit, so no separator makes it a bundle. */
  lemma FallbackSkuKept(separator: string)
    requires |separator| > 0
    ensures SplitBundleSku(separator, FallbackSku) == BundleSku(FallbackSku, 1)
  {
    NoDigitEndKept(separator, FallbackSku);
  }

  // ---------------------------------------------------------------- order items

  /** `$orderitem['item'][$key]`, NULL when unset. */
  function ItemField(orderitem: Value, key: string): Value
  {
    Index(Index(orderitem, "item"), key)
  }

  /** The SKU an item names: its variation SKU, else its master SKU. */
  function NamedSku(orderitem: Value): Option<string>
  {
    if ItemField(orderitem, "sku") != Null then Some(Text(ItemField(orderitem, "sku")))
    else if ItemField(orderitem, "master_sku") != Null then Some(Text(ItemField(orderitem, "master_sku")))
    else None
  }

  /** The loop variables `$sku` and `$bundleQuantity` of `createItems` between
      two items: neither is reset, so an item that names no SKU inherits the
      previous item's (already split) SKU. */
  datatype SkuState = SkuState(sku: Option<string>, multiplier: Option<nat>)

  const NoSku := SkuState(None, None)

  /** The SKU and multiplier one item is created with, given the variables the
      previous item left. Only when no SKU was ever set does the item get the
      fallback SKU, and then `$bundleQuantity` is left as it was. */
  function ItemSku(separator: string, carried: SkuState, orderitem: Value): (r: SkuState)
    requires |separator| > 0
    ensures r.sku.Some?
    ensures (NamedSku(orderitem).Some? || carried.sku.Some?) ==> r.multiplier.Some?
  {
    var sku := if NamedSku(orderitem).Some? then NamedSku(orderitem) else carried.sku;
    match sku
    case Some(raw) =>
      var b := SplitBundleSku(separator, raw);
      SkuState(Some(b.sku), Some(b.multiplier))
    case None => SkuState(Some(FallbackSku), carried.multiplier)
  }

  /** The variables after the given items. */
  function SkusAfter(separator: string, items: seq<Value>): SkuState
    requires |separator| > 0
  {
    if |items| == 0 then NoSku
    else ItemSku(separator, SkusAfter(separator, items[..|items| - 1]), items[|items| - 1])
  }

  /** Every item after the first has a SKU to inherit, so it gets a
      multiplier; an item naming no SKU takes the previous item's split SKU,
      split once more. */
  lemma {:induction false} LaterItemsInherit(separator: string, items: seq<Value>, i: nat)
    requires |separator| > 0 && 1 <= i < |items|
    ensures SkusAfter(separator, items[..i]).sku.Some?
    ensures ItemSku(separator, SkusAfter(separator, items[..i]), items[i]).multiplier.Some?
    ensures NamedSku(items[i]).None? ==>
      var prev := SkusAfter(separator, items[..i]).sku.value;
      ItemSku(separator, SkusAfter(separator, items[..i]), items[i])
        == SkuState(Some(SplitBundleSku(separator, prev).sku), Some(SplitBundleSku(separator, prev).multiplier))
  {
    assert items[..i][..i - 1] == items[..i - 1];
  }

  /** `$uniqueOrderId.'-'.$sku.'-'.$localId`. */
  function OrderitemUniqueId(uniqueOrderId: string, sku: string, localId: Value): string
  {
    uniqueOrderId + "-" + sku + "-" + Text(localId)
  }

  /** `$orderitem['local_order_item_financials'][$code]`. */
  function Financial(orderitem: Value, code: string): Value
  {
    Index(Index(orderitem, "local_order_item_financials"), code)
  }

  /** A row amount spread over the quantity, when that is positive. */
  function PerUnit(total: real, quantity: real): real
  {
    if quantity > 0.0 then total / quantity else total
  }

  /** The amounts `createItems` works out for an item. `itemPrice` is None
      where PHP divides the price by an unset multiplier. */
  datatype Amounts = Amounts(quantity: real, itemPrice: Option<real>, itemDiscount: real, itemTax: real,
                             totalPrice: real, totalDiscount: real, totalTax: real)

  /** A financial amount when it is set. */
  function FinancialAmount(orderitem: Value, code: string): Option<real>
  {
    if Financial(orderitem, code) != Null then Some(Number(Financial(orderitem, code))) else None
  }

  function OrderitemAmounts(orderitem: Value, multiplier: Option<nat>): Amounts
  {
    AmountsOf(Number(Index(orderitem, "quantity")), multiplier, FinancialAmount(orderitem, "tax"),
              FinancialAmount(orderitem, "discount"), FinancialAmount(orderitem, "payment"),
              FinancialAmount(orderitem, "price"))
  }

  /** The amounts from the ordered quantity, the multiplier and the item's
      tax, discount, payment and price (None when unset). */
  function AmountsOf(ordered: real, multiplier: Option<nat>, tax: Option<real>, discount: Option<real>,
                     payment: Option<real>, price: Option<real>): Amounts
  {
    var quantity := ordered * (if multiplier.Some? then multiplier.value as real else 0.0);
    var totalTax := if tax.Some? then tax.value else 0.0;
    var totalDiscount := if discount.Some? then discount.value else 0.0;
    var itemTax := if tax.Some? then PerUnit(totalTax, quantity) else 0.0;
    var itemDiscount := if discount.Some? then PerUnit(totalDiscount, quantity) else 0.0;
    var totalPrice := (if payment.Some? then payment.value else 0.0) + totalDiscount;
    var itemPrice :=
      if price.None? then Some(itemDiscount)
      else if multiplier.Some? && multiplier.value > 0
      then Some(price.value / multiplier.value as real + itemDiscount)
      else None;
    Amounts(quantity, itemPrice, itemDiscount, itemTax, totalPrice, totalDiscount, totalTax)
  }

  function OrZero(x: Option<real>): real { if x.Some? then x.value else 0.0 }

  /** Spread over the ordered quantity of a bundle, a row amount multiplies
      back to itself; over no quantity it stays whole. */
  lemma SpreadBack(total: real, ordered: real, m: nat)
    requires m >= 1
    ensures ordered > 0.0 ==> PerUnit(total, ordered * m as real) * (ordered * m as real) == total
    ensures ordered <= 0.0 ==> PerUnit(total, ordered * m as real) == total
  {
    var q := ordered * m as real;
    if ordered > 0.0 {
      assert q >= ordered by {
        assert q == ordered + ordered * (m - 1) as real;
      }
      assert total / q * q == total;
    } else {
      assert q <= 0.0 by {
        assert q == ordered + ordered * (m - 1) as real;
      }
    }
  }

  /** An item split off a bundle counts the ordered quantity times the
      multiplier; its per-unit tax and discount times that quantity give the
      row amounts (over no quantity they are the row amounts); the unit price
      is the row's price spread over the bundle plus the unit discount; the
      total price is the payment plus the discount. Unset amounts count 0. */
  lemma AmountsMeaning(ordered: real, m: nat, tax: Option<real>, discount: Option<real>,
                       payment: Option<real>, price: Option<real>)
    requires m >= 1
    ensures var a := AmountsOf(ordered, Some(m), tax, discount, payment, price);
      && a.quantity == ordered * m as real
      && a.totalTax == OrZero(tax) && a.totalDiscount == OrZero(discount)
      && (ordered > 0.0 ==> a.itemTax * a.quantity == a.totalTax && a.itemDiscount * a.quantity == a.totalDiscount)
      && (ordered <= 0.0 ==> a.itemTax == a.totalTax && a.itemDiscount == a.totalDiscount)
      && a.totalPrice == OrZero(payment) + a.totalDiscount
      && a.itemPrice == Some(OrZero(price) / m as real + a.itemDiscount)
  {
    SpreadBack(OrZero(tax), ordered, m);
    SpreadBack(OrZero(discount), ordered, m);
  }

  /** Without any multiplier (no SKU was ever set) the quantity is 0, the
      unit amounts are the row amounts, and a set price has no unit price. */
  lemma AmountsWithoutMultiplier(ordered: real, tax: Option<real>, discount: Option<real>,
                                 payment: Option<real>, price: Option<real>)
    ensures var a := AmountsOf(ordered, None, tax, discount, payment, price);
      && a.quantity == 0.0
      && a.itemTax == a.totalTax && a.itemDiscount == a.totalDiscount
      && (a.itemPrice.None? <==> price.Some?)
  {
  }

  /** The attributes `createItems` gives a new order item. */
  function OrderitemData(orderitem: Value, sku: string, multiplier: Option<nat>, product: Value): map<string, Value>
  {
    var a := OrderitemAmounts(orderitem, multiplier);
    map["product" := product,
        "sku" := Str(sku),
        "product_name" := (if Isset(orderitem, "name") then Index(orderitem, "name") else Str("")),
        "is_physical" := Int(1),
        "product_type" := Null,
        "quantity" := Num(a.quantity),
        "item_price" := (if a.itemPrice.Some? then Num(a.itemPrice.value) else Null),
        "item_discount" := Num(a.itemDiscount),
        "item_tax" := Num(a.itemTax),
        "total_price" := Num(a.totalPrice),
        "total_discount" := Num(a.totalDiscount),
        "total_tax" := Num(a.totalTax),
        "weight" := (if ItemField(orderitem, "weight") != Null then ItemField(orderitem, "weight") else Int(0))]
  }

  // ---------------------------------------------------------------- names

  /** `getNameArray($name)`: the last word is the last name, the first of the
      others the first name and the rest, joined by spaces, the middle name. */
  datatype NameParts = NameParts(first: Option<string>, middle: Option<string>, last: string)

  function TrimAll(pieces: seq<string>): (r: seq<string>)
    ensures |r| == |pieces| && forall i :: 0 <= i < |r| ==> r[i] == Trim(pieces[i])
  {
    seq(|pieces|, i requires 0 <= i < |pieces| => Trim(pieces[i]))
  }

  function SplitName(name: string): NameParts
  {
    var pieces := TrimAll(Explode(" ", Trim(name)));
    var rest := pieces[..|pieces| - 1];
    NameParts(if |rest| > 0 then Some(rest[0]) else None,
              if |rest| > 1 then Some(Implode(" ", rest[1..])) else None,
              pieces[|pieces| - 1])
  }

  function OptionalText(s: Option<string>): Value
  {
    if s.Some? then Str(s.value) else Null
  }

  /** The name attributes of a customer or address. */
  function NameAttrs(n: NameParts): map<string, Value>
  {
    map["last_name" := Str(n.last), "first_name" := OptionalText(n.first), "middle_name" := OptionalText(n.middle)]
  }

  /** A word of a name: not empty, and without white space `trim` strips. */
  predicate CleanWord(w: string)
  {
    |w| > 0 && forall i :: 0 <= i < |w| ==> w[i] !in TrimChars
  }

  /** A string that neither starts nor ends with a character `trim` strips. */
  predicate Trimmed(s: string)
  {
    |s| > 0 ==> s[0] !in TrimChars && s[|s| - 1] !in TrimChars
  }

  /** A trimmed string is its own trim. */
  lemma TrimKeeps(s: string)
    requires Trimmed(s)
    ensures Trim(s) == s
  {
  }

  /** What `trim` returns is trimmed. */
  lemma TrimIsTrimmed(s: string)
    ensures Trimmed(Trim(s))
  {
    var l := LTrim(s, TrimChars);
    var t := RTrim(l, TrimChars);
    if |t| > 0 {
      assert t[0] == l[0];
    }
  }

  /** Clean words joined by the one separator character trim to themselves. */
  lemma JoinedWordsTrimmed(c: char, words: seq<string>)
    requires |words| >= 1 && forall i :: 0 <= i < |words| ==> CleanWord(words[i])
    ensures Trim(Implode([c], words)) == Implode([c], words)
  {
    var name := Implode([c], words);
    var last := words[|words| - 1];
    ImplodeEndsInLast([c], words);
    assert name[0] == words[0][0];
    assert name[|name| - 1] == last[|last| - 1] by {
      assert name[|name| - |last|..][|last| - 1] == name[|name| - 1];
    }
    TrimKeeps(name);
  }

  /** Clean words joined by a white-space character explode back into
      themselves, each its own trim. */
  lemma JoinedWordsSplit(c: char, words: seq<string>)
    requires c in TrimChars
    requires |words| >= 1 && forall i :: 0 <= i < |words| ==> CleanWord(words[i])
    ensures TrimAll(Explode([c], Implode([c], words))) == words
  {
    JoinedWordsExplode(c, words);
    CleanWordsTrimmed(c, words);
  }

  lemma JoinedWordsExplode(c: char, words: seq<string>)
    requires c in TrimChars
    requires |words| >= 1 && forall i :: 0 <= i < |words| ==> CleanWord(words[i])
    ensures Explode([c], Implode([c], words)) == words
  {
    forall i | 0 <= i < |words| ensures !Contains(words[i], [c]) {
      CleanWordFacts(c, words[i]);
    }
    ExplodeImplode(c, words);
  }

  lemma CleanWordsTrimmed(c: char, words: seq<string>)
    requires c in TrimChars
    requires forall i :: 0 <= i < |words| ==> CleanWord(words[i])
    ensures TrimAll(words) == words
  {
    forall i | 0 <= i < |words| ensures TrimAll(words)[i] == words[i] {
      CleanWordFacts(c, words[i]);
    }
  }

  /** A clean word holds no white space and is its own trim. */
  lemma CleanWordFacts(c: char, w: string)
    requires c in TrimChars && CleanWord(w)
    ensures !Contains(w, [c]) && Trim(w) == w
  {
    NoCharNotContained(c, w);
    TrimKeeps(w);
  }

  /** Words joined by single spaces split back into the same words: the last
      is the last name, a first name exists exactly when there are two words
      or more, and the words in between make the middle name. */
  lemma NameRoundTrip(words: seq<string>)
    requires |words| >= 1 && forall i :: 0 <= i < |words| ==> CleanWord(words[i])
    ensures var n := SplitName(Implode(" ", words));
      && n.last == words[|words| - 1]
      && (n.first.Some? <==> |words| >= 2) && (|words| >= 2 ==> n.first.value == words[0])
      && (n.middle.Some? <==> |words| >= 3)
      && (|words| >= 3 ==> n.middle.value == Implode(" ", words[1..|words| - 1]))
  {
    JoinedWordsTrimmed(' ', words);
    JoinedWordsSplit(' ', words);
    var rest := words[..|words| - 1];
    if |rest| > 1 {
      assert rest[1..] == words[1..|words| - 1];
    }
  }

  /** `strlen($v)`: the byte length of the string form; an array counts 0. */
  function StrLen(v: Value): nat
  {
    if v.Arr? then 0 else ByteLength(Text(v))
  }

  /** The two street lines of `createAddressEntity`: the first address line
      stands alone when it is longer than the third, else the third does. */
  function StreetLines(address: Value): seq<string>
  {
    StreetLinesOf(Index(address, "address_line_1"), Index(address, "address_line_2"), Index(address, "address_line_3"))
  }

  function StreetLinesOf(l1: Value, l2: Value, l3: Value): seq<string>
  {
    if StrLen(l1) > StrLen(l3) then [Trim(Text(l1)), Trim(Text(l2) + " " + Text(l3))]
    else [Trim(Text(l1) + " " + Text(l2)), Trim(Text(l3))]
  }

  /** The `street` attribute: the two lines joined by a newline and trimmed,
      NULL when that is empty. */
  function Street(address: Value): Value
  {
    var street := Trim(Implode("\n", StreetLines(address)));
    if |street| > 0 then Str(street) else Null
  }

  /** Two trimmed, non-empty lines free of a white-space character are
      joined by one of it, which trimming keeps and exploding splits at. */
  lemma TwoLinesBack(c: char, a: string, b: string)
    requires c in TrimChars && |a| > 0 && |b| > 0 && Trimmed(a) && Trimmed(b)
    requires forall i :: 0 <= i < |a| ==> a[i] != c
    requires forall i :: 0 <= i < |b| ==> b[i] != c
    ensures Trim(Implode([c], [a, b])) == a + [c] + b
    ensures Explode([c], a + [c] + b) == [a, b]
  {
    var j := a + [c] + b;
    assert Implode([c], [a, b]) == j;
    assert j[0] == a[0] && j[|j| - 1] == b[|b| - 1];
    NoCharNotContained(c, a);
    ExplodeConcatFirst(c, a, b);
    ExplodeNoChar(c, b);
  }

  /** Both street lines are trimmed. */
  lemma StreetLinesTrimmed(l1: Value, l2: Value, l3: Value)
    ensures Trimmed(StreetLinesOf(l1, l2, l3)[0]) && Trimmed(StreetLinesOf(l1, l2, l3)[1])
  {
    if StrLen(l1) > StrLen(l3) {
      TrimIsTrimmed(Text(l1));
      TrimIsTrimmed(Text(l2) + " " + Text(l3));
    } else {
      TrimIsTrimmed(Text(l1) + " " + Text(l2));
      TrimIsTrimmed(Text(l3));
    }
  }

  /** With two non-empty lines free of newlines, the street is the two lines
      around one newline, and splits back into them. */
  lemma StreetLinesBack(address: Value)
    requires forall i :: 0 <= i < 2 ==> |StreetLines(address)[i]| > 0
    requires forall i, j :: 0 <= i < 2 && 0 <= j < |StreetLines(address)[i]| ==> StreetLines(address)[i][j] != '\n'
    ensures Street(address) == Str(StreetLines(address)[0] + "\n" + StreetLines(address)[1])
    ensures Explode("\n", Street(address).s) == StreetLines(address)
  {
    var lines := StreetLines(address);
    StreetLinesTrimmed(Index(address, "address_line_1"), Index(address, "address_line_2"), Index(address, "address_line_3"));
    assert lines == [lines[0], lines[1]];
    TwoLinesBack('\n', lines[0], lines[1]);
  }

  /** A trimmed line with an empty second line trims back to itself. */
  lemma OneLineBack(c: char, a: string)
    requires c in TrimChars && Trimmed(a)
    ensures Trim(Implode([c], [a, ""])) == a
  {
    assert Implode([c], [a, ""]) == a + [c];
    if |a| > 0 {
      TrimOneTrailing(a, c, TrimChars);
    }
  }

  /** Without a second line the street is the first line alone. */
  lemma StreetOneLine(address: Value)
    requires StreetLines(address)[1] == ""
    ensures Street(address) == (if |StreetLines(address)[0]| > 0 then Str(StreetLines(address)[0]) else Null)
  {
    var lines := StreetLines(address);
    StreetLinesTrimmed(Index(address, "address_line_1"), Index(address, "address_line_2"), Index(address, "address_line_3"));
    assert lines == [lines[0], ""];
    OneLineBack('\n', lines[0]);
  }

  /** The attributes `createAddressEntity` gives a new address: the name
      split into its parts, the street, and company, region, city, postcode,
      country code and telephone from the address (NULL where unset). */
  function AddressAttrs(address: Value): map<string, Value>
  {
    AddressAttrsOf(SplitName(Text(Index(address, "name"))), Street(address), ContactAttrs(address))
  }

  function AddressAttrsOf(n: NameParts, street: Value, contact: map<string, Value>): map<string, Value>
  {
    (NameAttrs(n) + contact)["street" := street]
  }

  /** Company, region, city, postcode, country code and telephone. */
  function ContactAttrs(address: Value): map<string, Value>
  {
    map["company" := Index(address, "company_name"),
        "region" := Index(address, "province"),
        "city" := Index(address, "city"),
        "postcode" := Index(address, "postal_code"),
        "country_code" := Index(address, "country_code"),
        "telephone" := Index(address, "contact_phone_1")]
  }

  /** Where the name parts and the street go. */
  lemma AddressAttrsParts(n: NameParts, street: Value, address: Value)
    ensures var d := AddressAttrsOf(n, street, ContactAttrs(address));
      && d["street"] == street && d["last_name"] == Str(n.last) && d["first_name"] == OptionalText(n.first)
  {
  }

  /** A name of clean words comes back out of a new address: the last word
      is the last name and the first word, of two or more, the first name. */
  lemma AddressNameBack(address: Value, words: seq<string>)
    requires Index(address, "name") == Str(Implode(" ", words))
    requires |words| >= 1 && forall i :: 0 <= i < |words| ==> CleanWord(words[i])
    ensures var d := AddressAttrs(address);
      && d["last_name"] == Str(words[|words| - 1])
      && d["first_name"] == (if |words| >= 2 then Str(words[0]) else Null)
  {
    AddressWordsBack(words, Street(address), address);
  }

  /** The same for the joined words themselves. */
  lemma AddressWordsBack(words: seq<string>, street: Value, address: Value)
    requires |words| >= 1 && forall i :: 0 <= i < |words| ==> CleanWord(words[i])
    ensures var d := AddressAttrsOf(SplitName(Implode(" ", words)), street, ContactAttrs(address));
      && d["last_name"] == Str(words[|words| - 1])
      && d["first_name"] == (if |words| >= 2 then Str(words[0]) else Null)
  {
    AddressAttrsParts(SplitName(Implode(" ", words)), street, address);
    NameEndsBack(words);
  }

  /** Two non-empty street lines free of newlines come back out of a new
      address: its street splits back into them. */
  lemma AddressStreetBack(address: Value)
    requires forall i :: 0 <= i < 2 ==> |StreetLines(address)[i]| > 0
    requires forall i, j :: 0 <= i < 2 && 0 <= j < |StreetLines(address)[i]| ==> StreetLines(address)[i][j] != '\n'
    ensures var d := AddressAttrs(address);
      d["street"].Str? && Explode("\n", d["street"].s) == StreetLines(address)
  {
    AddressAttrsParts(SplitName(Text(Index(address, "name"))), Street(address), address);
    StreetLinesBack(address);
  }

  /** The attributes `createCustomerEntity` gives a new customer. */
  function CustomerAttrs(name: Value): map<string, Value>
  {
    CustomerAttrsOf(SplitName(Text(name)))
  }

  function CustomerAttrsOf(n: NameParts): map<string, Value>
  {
    NameAttrs(n)["customer_type" := Str("MMS customer")]
  }

  /** A name of clean words comes back out of a new customer: the last word
      is the last name and the first word, of two or more, the first name;
      the customer is marked as one of MMS. */
  lemma CustomerNameBack(name: Value, words: seq<string>)
    requires Text(name) == Implode(" ", words)
    requires |words| >= 1 && forall i :: 0 <= i < |words| ==> CleanWord(words[i])
    ensures var d := CustomerAttrs(name);
      && d["last_name"] == Str(words[|words| - 1])
      && d["first_name"] == (if |words| >= 2 then Str(words[0]) else Null)
  {
    CustomerWordsBack(words);
  }

  /** The same for the joined words themselves. */
  lemma CustomerWordsBack(words: seq<string>)
    requires |words| >= 1 && forall i :: 0 <= i < |words| ==> CleanWord(words[i])
    ensures var d := CustomerAttrsOf(SplitName(Implode(" ", words)));
      && d["last_name"] == Str(words[|words| - 1])
      && d["first_name"] == (if |words| >= 2 then Str(words[0]) else Null)
  {
    var n := SplitName(Implode(" ", words));
    CustomerAttrsParts(n);
    NameEndsBack(words);
  }

  /** The first and last name parts of clean words joined by spaces. */
  lemma NameEndsBack(words: seq<string>)
    requires |words| >= 1 && forall i :: 0 <= i < |words| ==> CleanWord(words[i])
    ensures Str(SplitName(Implode(" ", words)).last) == Str(words[|words| - 1])
    ensures OptionalText(SplitName(Implode(" ", words)).first) == if |words| >= 2 then Str(words[0]) else Null
  {
    NameRoundTrip(words);
  }

  /** Where the name parts go in a new customer. */
  lemma CustomerAttrsParts(n: NameParts)
    ensures var d := CustomerAttrsOf(n);
      && d["customer_type"] == Str("MMS customer") && d["last_name"] == Str(n.last) && d["first_name"] == OptionalText(n.first)
  {
  }

  // ---------------------------------------------------------------- customer email

  /** The address fields `getCustomerEmail` may add, each with the number of
      fields to add in all when it is the first one added. */
  const EmailFieldKeys: seq<(string, nat)> :=
    [("address_line_1", 1), ("contact_phone_1", 2), ("postal_code", 2), ("city", 3), ("company", 3), ("province", 4)]

  const MaxEmailLength: nat := 103
  const NoEmailDomain := "@noemail.healthpost.co.nz"

  /** An email that is no string or shorter than 6 bytes is replaced. */
  predicate NeedsSynthesis(email: Value)
  {
    !email.Str? || ByteLength(email.s) < 6
  }

  /** A field counts when it is set and has a non-empty string form. */
  predicate UsableField(address: Value, key: string)
  {
    Isset(address, key) && StrLen(Index(address, key)) > 0
  }

  /** The usable fields of one address in key order, stripped of non-word
      characters, each with its field count. */
  function AddressFields(address: Value, keys: seq<(string, nat)>): seq<(string, nat)>
  {
    if |keys| == 0 then []
    else
      var rest := AddressFields(address, keys[..|keys| - 1]);
      var key := keys[|keys| - 1];
      if UsableField(address, key.0) then rest + [(StripNonWord(Text(Index(address, key.0))), key.1)] else rest
  }

  /** The usable fields of the addresses, address by address. */
  function CandidateFields(addresses: seq<Value>, keys: seq<(string, nat)>): seq<(string, nat)>
  {
    if |addresses| == 0 then []
    else CandidateFields(addresses[..|addresses| - 1], keys) + AddressFields(addresses[|addresses| - 1], keys)
  }

  /** The fields of a key list split in two are the fields of either part,
      in order. */
  lemma {:induction false} AddressFieldsAppend(address: Value, xs: seq<(string, nat)>, ys: seq<(string, nat)>)
    ensures AddressFields(address, xs + ys) == AddressFields(address, xs) + AddressFields(address, ys)
    decreases |ys|
  {
    if |ys| == 0 {
      assert xs + ys == xs;
    } else {
      var init := ys[..|ys| - 1];
      assert (xs + ys)[..|xs + ys| - 1] == xs + init;
      AddressFieldsAppend(address, xs, init);
    }
  }

  /** The candidate fields of addresses split in two are those of either
      part, in order. */
  lemma {:induction false} CandidateFieldsAppend(xs: seq<Value>, ys: seq<Value>, keys: seq<(string, nat)>)
    ensures CandidateFields(xs + ys, keys) == CandidateFields(xs, keys) + CandidateFields(ys, keys)
    decreases |ys|
  {
    if |ys| == 0 {
      assert xs + ys == xs;
    } else {
      var init := ys[..|ys| - 1];
      assert (xs + ys)[..|xs + ys| - 1] == xs + init;
      CandidateFieldsAppend(xs, init, keys);
    }
  }

  /** The field texts one after the other. */
  function Joined(fields: seq<(string, nat)>): string
  {
    if |fields| == 0 then "" else Joined(fields[..|fields| - 1]) + fields[|fields| - 1].0
  }

  function Take(s: string, n: nat): (r: string)
    ensures |r| <= n && |r| <= |s| && r == s[..|r|]
    ensures |s| <= n ==> r == s
  {
    if |s| <= n then s else s[..n]
  }

  /** The fields taken from addresses searched in order: none when the
      first address has none; otherwise the first usable fields, as many as
      the count of the first one says (or all there are). */
  function LeadingFields(addresses: seq<Value>, keys: seq<(string, nat)>): seq<(string, nat)>
  {
    var lead := if |addresses| == 0 then [] else AddressFields(addresses[0], keys);
    var all := CandidateFields(addresses, keys);
    if |lead| == 0 then []
    else all[..if lead[0].1 < |all| then lead[0].1 else |all|]
  }

  /** The fields that go into a synthesised email, looked for in the
      English, the first and the Chinese address. */
  function EmailFieldText(english: Value, first: Value, chinese: Value): string
  {
    Joined(LeadingFields([english, first, chinese], EmailFieldKeys))
  }

  /** The email `getCustomerEmail` makes up from the customer's name and the
      address fields. */
  function SynthesizedEmail(name: Value, fields: string): string
  {
    Lower(Take(StripNonWord("tm_" + Text(name) + fields), MaxEmailLength) + NoEmailDomain)
  }

  predicate NoUpper(s: string)
  {
    forall i :: 0 <= i < |s| ==> !('A' <= s[i] <= 'Z')
  }

  /** A word-character prefix survives stripping and truncation. */
  lemma LocalPartShape(prefix: string, rest: string, bound: nat)
    requires |prefix| <= bound
    requires forall i :: 0 <= i < |prefix| ==> IsWordChar(prefix[i])
    ensures var t := Take(StripNonWord(prefix + rest), bound);
      && |prefix| <= |t| <= bound && t[..|prefix|] == prefix
      && forall i :: 0 <= i < |t| ==> IsWordChar(t[i])
  {
    StripNonWordAppend(prefix, rest);
    StripNonWordKeepsWords(prefix);
    var u := StripNonWord(prefix + rest);
    assert u == prefix + StripNonWord(rest);
    var t := Take(u, bound);
    assert t[..|prefix|] == u[..|prefix|];
  }

  /** Lower-casing keeps a domain without capitals and leaves word characters
      without capitals. */
  lemma LowerShape(t: string, domain: string)
    requires NoUpper(domain)
    requires forall i :: 0 <= i < |t| ==> IsWordChar(t[i])
    ensures var e := Lower(t + domain);
      && |e| == |t| + |domain| && e[|t|..] == domain && e[..|t|] == Lower(t)
      && (forall i :: 0 <= i < |t| ==> IsWordChar(e[i]) && !('A' <= e[i] <= 'Z'))
  {
    var e := Lower(t + domain);
    forall i | 0 <= i < |domain| ensures e[|t|..][i] == domain[i] {
      assert (t + domain)[|t| + i] == domain[i];
    }
    forall i | 0 <= i < |t| ensures e[..|t|][i] == Lower(t)[i] {
      assert (t + domain)[i] == t[i];
    }
  }

  /** The email is the lower-cased local part, with the prefix and at most
      the length bound, before the domain. */
  lemma EmailShapeOf(prefix: string, rest: string, bound: nat, domain: string)
    requires |prefix| <= bound && NoUpper(domain) && NoUpper(prefix)
    requires forall i :: 0 <= i < |prefix| ==> IsWordChar(prefix[i])
    ensures var e := Lower(Take(StripNonWord(prefix + rest), bound) + domain);
      var local := e[..|e| - |domain|];
      && |e| >= |domain| && e[|e| - |domain|..] == domain
      && |prefix| <= |local| <= bound && local[..|prefix|] == prefix
      && (forall i :: 0 <= i < |local| ==> IsWordChar(local[i]) && !('A' <= local[i] <= 'Z'))
  {
    var t := Take(StripNonWord(prefix + rest), bound);
    LocalPartShape(prefix, rest, bound);
    LowerShape(t, domain);
    var e := Lower(t + domain);
    assert e[..|e| - |domain|] == Lower(t);
    forall i | 0 <= i < |prefix| ensures Lower(t)[..|prefix|][i] == prefix[i] {
      assert t[i] == prefix[i];
    }
  }

  /** The email shape for any prefix, bound and domain of at least six
      characters. */
  lemma SynthesizedShapeOf(prefix: string, rest: string, bound: nat, domain: string)
    requires |prefix| <= bound && NoUpper(domain) && NoUpper(prefix) && |domain| >= 6
    requires forall i :: 0 <= i < |prefix| ==> IsWordChar(prefix[i])
    ensures |Lower(Take(StripNonWord(prefix + rest), bound) + domain)| >= |domain|
    ensures var e := Lower(Take(StripNonWord(prefix + rest), bound) + domain); e[|e| - |domain|..] == domain
    ensures var e := Lower(Take(StripNonWord(prefix + rest), bound) + domain); var local := e[..|e| - |domain|];
      |prefix| <= |local| <= bound && local[..|prefix|] == prefix
    ensures var e := Lower(Take(StripNonWord(prefix + rest), bound) + domain); var local := e[..|e| - |domain|];
      forall i :: 0 <= i < |local| ==> IsWordChar(local[i]) && !('A' <= local[i] <= 'Z')
    ensures !NeedsSynthesis(Str(Lower(Take(StripNonWord(prefix + rest), bound) + domain)))
  {
    EmailShapeOf(prefix, rest, bound, domain);
  }

  /** A synthesised email starts with "tm_", ends in the no-email domain, has
      a local part of at most 103 lower-case word characters, and is long
      enough never to be replaced again. */
  lemma SynthesizedEmailShape(name: Value, fields: string)
    ensures ShapedEmail(SynthesizedEmail(name, fields))
  {
    SynthesizedEmailSplit(name, fields);
    ShapedSynthesis(Text(name) + fields);
  }

  /** The shape of a synthesised email. */
  predicate ShapedEmail(e: string)
  {
    && |e| >= |NoEmailDomain| && e[|e| - |NoEmailDomain|..] == NoEmailDomain
    && (var local := e[..|e| - |NoEmailDomain|];
        && 3 <= |local| <= MaxEmailLength && local[..3] == "tm_"
        && forall i :: 0 <= i < |local| ==> IsWordChar(local[i]) && !('A' <= local[i] <= 'Z'))
    && !NeedsSynthesis(Str(e))
  }

  /** Whatever follows the prefix, the result has the shape. */
  lemma ShapedSynthesis(rest: string)
    ensures ShapedEmail(Lower(Take(StripNonWord("tm_" + rest), MaxEmailLength) + NoEmailDomain))
  {
    SynthesizedShapeOf("tm_", rest, MaxEmailLength, NoEmailDomain);
  }

  /** The synthesised email is the "tm_" prefix before the name and fields. */
  lemma SynthesizedEmailSplit(name: Value, fields: string)
    ensures SynthesizedEmail(name, fields) == Lower(Take(StripNonWord("tm_" + (Text(name) + fields)), MaxEmailLength) + NoEmailDomain)
  {
    assert "tm_" + Text(name) + fields == "tm_" + (Text(name) + fields);
  }

  // ---------------------------------------------------------------- order totals

  /** The totals `storeOrderData` sums, and whether a code is per unit (then
      the row total is quantity times the amount). */
  const ItemTotalCodes: seq<(string, bool)> :=
    [("discount", false), ("payment", false), ("price", true), ("shipping", false), ("tax", false), ("weight", false)]

  /** An item counts towards the totals when it has a quantity and financials. */
  predicate IsCounted(orderitem: Value)
  {
    Isset(orderitem, "quantity") && Isset(orderitem, "local_order_item_financials")
  }

  /** The item's row total for a code, when the code is set. */
  function RowTotal(orderitem: Value, code: string, perItem: bool): Option<real>
  {
    if Financial(orderitem, code) == Null then None
    else if perItem then Some(Number(Index(orderitem, "quantity")) * Number(Financial(orderitem, code)))
    else Some(Number(Financial(orderitem, code)))
  }

  /** What an item adds to the total of a code: its row total when it is
      counted and the code is set, else 0. */
  function CountedRow(orderitem: Value, code: string, perItem: bool): real
  {
    if IsCounted(orderitem) then OrZero(RowTotal(orderitem, code, perItem)) else 0.0
  }

  /** The total of a code over the counted items. */
  function CodeTotal(items: seq<Value>, code: string, perItem: bool): real
  {
    if |items| == 0 then 0.0
    else CodeTotal(items[..|items| - 1], code, perItem) + CountedRow(items[|items| - 1], code, perItem)
  }

  /** The summed row prices. */
  function PriceSum(items: seq<Value>): real
  {
    CodeTotal(items, "price", true)
  }

  /** The exchange rate of the order: applied, else estimated, else 0. */
  function ExchangeRate(orderData: Value): Value
  {
    if Isset(orderData, "marketplace_to_local_exchange_rate_applied") then Index(orderData, "marketplace_to_local_exchange_rate_applied")
    else if Isset(orderData, "marketplace_to_local_exchange_rate_estimated") then Index(orderData, "marketplace_to_local_exchange_rate_estimated")
    else Int(0)
  }

  /** The base-to-currency rate: the price-weighted average of one rate is the
      rate itself, unless the prices do not sum to a positive amount. */
  function BaseToCurrencyRate(rate: real, priceSum: real): real
  {
    if rate > 0.0 && priceSum > 0.0 then rate
    else if rate > 0.0 then rate * priceSum
    else 0.0
  }

  /** `getShippingMethod` of the first item that has one. */
  function FirstShipping(items: seq<Value>): Value
  {
    if |items| == 0 then Null
    else if ShippingMethod(items[0]) != Null then ShippingMethod(items[0])
    else FirstShipping(items[1..])
  }

  /** The first set value of a key over the addresses. */
  function FirstSet(addresses: seq<Value>, key: string): Option<Value>
  {
    if |addresses| == 0 then None
    else if Isset(addresses[0], key) then Some(Index(addresses[0], key))
    else FirstSet(addresses[1..], key)
  }

  /** The first set value is set, and comes from the first address that sets
      the key. */
  lemma {:induction false} FirstSetMeaning(addresses: seq<Value>, key: string)
    ensures var r := FirstSet(addresses, key);
      && (r.None? <==> forall i :: 0 <= i < |addresses| ==> !Isset(addresses[i], key))
      && (r.Some? ==>
            && r.value != Null
            && exists i :: 0 <= i < |addresses| && r.value == Index(addresses[i], key)
                           && forall j :: 0 <= j < i ==> !Isset(addresses[j], key))
  {
    if |addresses| > 0 {
      FirstSetMeaning(addresses[1..], key);
      var r := FirstSet(addresses, key);
      if !Isset(addresses[0], key) {
        if r.Some? {
          var i :| 0 <= i < |addresses[1..]| && r.value == Index(addresses[1..][i], key)
                   && forall j :: 0 <= j < i ==> !Isset(addresses[1..][j], key);
          assert r.value == Index(addresses[i + 1], key);
          forall j | 0 <= j < i + 1 ensures !Isset(addresses[j], key) {
            if j > 0 { assert addresses[j] == addresses[1..][j - 1]; }
          }
        } else {
          forall i | 0 <= i < |addresses| ensures !Isset(addresses[i], key) {
            if i > 0 { assert addresses[i] == addresses[1..][i - 1]; }
          }
        }
      } else {
        assert r.value == Index(addresses[0], key);
      }
    }
  }

  // ---------------------------------------------------------------- order attributes

  const DefaultCustomerEmail := "magelink_log+mms@lero9.com"

  /** The totals `storeOrderData` computes, by code. */
  datatype Totals = Totals(discount: real, payment: real, price: real, shipping: real, tax: real, weight: real)

  /** `getTotalCode($code)`. */
  function TotalCode(code: string): string
  {
    code + "_total"
  }

  /** `self::$orderDefaults`: the value an order attribute takes when unset. */
  const OrderDefaults: seq<(string, Value)> :=
    [("customer_email", Str(DefaultCustomerEmail)), ("shipping_method", Str(TrackedEms))]

  /** The items of the order data. */
  function ItemsOf(orderData: Value): seq<Value>
  {
    Elements(Index(orderData, "order_items"))
  }

  /** The totals of every code over the counted items. */
  function ItemTotals(items: seq<Value>): Totals
  {
    Totals(CodeTotal(items, "discount", false), CodeTotal(items, "payment", false), PriceSum(items),
           CodeTotal(items, "shipping", false), CodeTotal(items, "tax", false), CodeTotal(items, "weight", false))
  }

  /** The base-to-currency rate of the order data. */
  function OrderRate(orderData: Value): real
  {
    BaseToCurrencyRate(Number(ExchangeRate(orderData)), PriceSum(ItemsOf(orderData)))
  }

  /** The attributes `storeOrderData` gives an order, before the customer
      email is fixed up: the customer name and email of the addresses,
      the first shipping method of the items, the totals but for price and
      payment (shipping forced to 0), the payment method made from the payment
      total, the defaults for what is still unset, status, time of placing,
      grand total and rate. */
  function OrderAttributes(orderData: Value, totals: Totals, rate: real, shipping: Value,
                           paymentMethod: Value, placedAt: Value): map<string, Value>
  {
    var addresses := Elements(Index(orderData, "addresses"));
    OrderAttributesOf(FirstSet(addresses, "name"), FirstSet(addresses, "contact_email_1"), shipping, totals, rate,
                      paymentMethod, OrderStatus(orderData), placedAt)
  }

  /** The order attributes from the first name and email of the addresses
      and what the items give. */
  function OrderAttributesOf(name: Option<Value>, email: Option<Value>, shipping: Value, totals: Totals, rate: real,
                             paymentMethod: Value, status: Value, placedAt: Value): map<string, Value>
  {
    var named: map<string, Value> := if name.Some? then map["customer_name" := name.value] else map[];
    named["customer_email" := (if email.Some? then email.value else Str(DefaultCustomerEmail))]
         ["shipping_method" := (if shipping != Null then shipping else Str(TrackedEms))]
         ["discount_total" := Num(totals.discount)]
         ["shipping_total" := Int(0)]
         ["tax_total" := Num(totals.tax)]
         ["weight_total" := Num(totals.weight)]
         ["payment_method" := paymentMethod]
         ["status" := status]
         ["placed_at" := placedAt]
         ["grand_total" := Num(totals.payment)]
         ["base_to_currency_rate" := Num(rate)]
  }

  /** Whatever the items, an order ships by tracked EMS: the only mapped
      shipping type gives it, and it is the default. */
  lemma OrderShipsTracked(orderData: Value, totals: Totals, rate: real, shipping: Value,
                          paymentMethod: Value, placedAt: Value)
    requires shipping == Null || shipping == Str(TrackedEms)
    ensures OrderAttributes(orderData, totals, rate, shipping, paymentMethod, placedAt)["shipping_method"] == Str(TrackedEms)
  {
  }

  /** The grand total is the summed payment; the price and payment totals are
      not stored, and shipping is 0. */
  lemma OrderTotalsStored(orderData: Value, totals: Totals, rate: real, shipping: Value,
                          paymentMethod: Value, placedAt: Value)
    ensures var d := OrderAttributes(orderData, totals, rate, shipping, paymentMethod, placedAt);
      && d["grand_total"] == Num(totals.payment) && d["shipping_total"] == Int(0)
      && "price_total" !in d && "payment_total" !in d
  {
  }

  /** The order takes the status the order data names, NULL when it names
      none. */
  lemma OrderStatusStored(orderData: Value, totals: Totals, rate: real, shipping: Value,
                          paymentMethod: Value, placedAt: Value)
    ensures var d := OrderAttributes(orderData, totals, rate, shipping, paymentMethod, placedAt);
      "status" in d && d["status"] == OrderStatus(orderData)
  {
  }

  /** The first shipping method is one of the items'. */
  lemma {:induction false} FirstShippingIsMapped(items: seq<Value>)
    ensures FirstShipping(items) == Null || FirstShipping(items) == Str(TrackedEms)
  {
    if |items| > 0 {
      ShippingMethodMeaning(items[0]);
      FirstShippingIsMapped(items[1..]);
    }
  }
}
