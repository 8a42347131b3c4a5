/** The loops of `storeOrderData` that gather an order's attributes from the
    MMS order data: the address fields copied to the order, and the totals,
    the exchange rate and the shipping method summed or taken over the
    items. Each loop is proved against the reference definitions of the
    order rules (`FirstSet`, `CodeTotal`, `FirstShipping`). */
module OrderData {
  import opened PhpValues
  import opened OrderRules

  // ---------------------------------------------------------------- address fields

  /** `self::$addressToOrderMap`: the address field copied to each order attribute. */
  const AddressToOrderMap: seq<(string, string)> := [("name", "customer_name"), ("contact_email_1", "customer_email")]

  /** No two address fields are copied to the same order attribute. */
  predicate DistinctTargets(pairs: seq<(string, string)>)
  {
    forall p, q :: 0 <= p < q < |pairs| ==> pairs[p].1 != pairs[q].1
  }

  /** The order attributes the copy may write. */
  function Targets(pairs: seq<(string, string)>): set<string>
  {
    set p | 0 <= p < |pairs| :: pairs[p].1
  }

  /** The order attribute `o` holds the first value the addresses set for the
      address field `k`, and is missing when none sets it. */
  predicate CopiedFrom(data: map<string, Value>, addresses: seq<Value>, k: string, o: string)
  {
    && (o in data <==> FirstSet(addresses, k).Some?)
    && (o in data ==> data[o] == FirstSet(addresses, k).value)
  }

  /** The first value set over one address more. */
  lemma {:induction false} FirstSetAppend(addresses: seq<Value>, x: Value, key: string)
    ensures FirstSet(addresses + [x], key)
            == if FirstSet(addresses, key).Some? then FirstSet(addresses, key)
               else if Isset(x, key) then Some(Index(x, key)) else None
  {
    if |addresses| > 0 {
      assert (addresses + [x])[1..] == addresses[1..] + [x];
      FirstSetAppend(addresses[1..], x, key);
    }
  }

  /** The address loop of `storeOrderData`: an order attribute takes an
      address field's value when the attribute is still unset and the field
      is set, so each attribute ends up with the first value set. */
  method CopyAddressFields(addresses: seq<Value>, pairs: seq<(string, string)>) returns (data: map<string, Value>)
    requires DistinctTargets(pairs)
    ensures forall p :: 0 <= p < |pairs| ==> CopiedFrom(data, addresses, pairs[p].0, pairs[p].1)
    ensures data.Keys <= Targets(pairs)
  {
    data := map[];
    for i := 0 to |addresses|
      invariant forall p :: 0 <= p < |pairs| ==> CopiedFrom(data, addresses[..i], pairs[p].0, pairs[p].1)
      invariant data.Keys <= Targets(pairs)
    {
      data := CopyAddress(data, addresses[..i], addresses[i], pairs);
      assert addresses[..i + 1] == addresses[..i] + [addresses[i]];
    }
    assert addresses[..|addresses|] == addresses;
  }

  /** One pass of the inner loop, over the fields of one more address. */
  method CopyAddress(data0: map<string, Value>, seen: seq<Value>, address: Value, pairs: seq<(string, string)>)
    returns (data: map<string, Value>)
    requires DistinctTargets(pairs)
    requires forall p :: 0 <= p < |pairs| ==> CopiedFrom(data0, seen, pairs[p].0, pairs[p].1)
    requires data0.Keys <= Targets(pairs)
    ensures forall p :: 0 <= p < |pairs| ==> CopiedFrom(data, seen + [address], pairs[p].0, pairs[p].1)
    ensures data.Keys <= Targets(pairs)
  {
    data := data0;
    for j := 0 to |pairs|
      invariant forall p :: 0 <= p < j ==> CopiedFrom(data, seen + [address], pairs[p].0, pairs[p].1)
      invariant forall p :: j <= p < |pairs| ==> CopiedFrom(data, seen, pairs[p].0, pairs[p].1)
      invariant data.Keys <= Targets(pairs)
    {
      var k, o := pairs[j].0, pairs[j].1;
      FirstSetAppend(seen, address, k);
      // a copied value is set, so an attribute is set exactly when present
      if o !in data && Isset(address, k) {
        data := data[o := Index(address, k)];
      }
    }
  }

  // ---------------------------------------------------------------- item totals

  /** The index of the price code in `ItemTotalCodes`. */
  const PriceCode: nat := 2

  /** The shipping method taken over one item more. */
  lemma {:induction false} FirstShippingAppend(items: seq<Value>, x: Value)
    ensures FirstShipping(items + [x]) == if FirstShipping(items) != Null then FirstShipping(items) else ShippingMethod(x)
  {
    if |items| > 0 {
      assert (items + [x])[1..] == items[1..] + [x];
      FirstShippingAppend(items[1..], x);
    }
  }

  /** The total of a code over one item more. */
  lemma CodeTotalAppend(items: seq<Value>, x: Value, code: string, perItem: bool)
    ensures CodeTotal(items + [x], code, perItem)
            == CodeTotal(items, code, perItem) + CountedRow(x, code, perItem)
  {
    assert (items + [x])[..|items|] == items;
  }

  /** What the items loop holds after the items `seen`. */
  predicate Summed(seen: seq<Value>, rate: real, totals: seq<real>, rateSum: real, rateBase: real, shipping: Value)
  {
    && |totals| == |ItemTotalCodes|
    && (forall p :: 0 <= p < |ItemTotalCodes| ==> totals[p] == CodeTotal(seen, ItemTotalCodes[p].0, ItemTotalCodes[p].1))
    && rateBase == (if rate > 0.0 then PriceSum(seen) else 0.0)
    && rateSum == rate * rateBase
    && shipping == FirstShipping(seen)
  }

  /** The items loop of `storeOrderData`: the total of every code over the
      counted items, the rate-weighted and the plain sum of their prices (only
      when the order's rate is positive) and the first shipping method. */
  method SumItems(items: seq<Value>, rate: real) returns (totals: seq<real>, rateSum: real, rateBase: real, shipping: Value)
    ensures |totals| == |ItemTotalCodes|
    ensures forall p :: 0 <= p < |ItemTotalCodes| ==> totals[p] == CodeTotal(items, ItemTotalCodes[p].0, ItemTotalCodes[p].1)
    ensures rateBase == if rate > 0.0 then PriceSum(items) else 0.0
    ensures rateSum == rate * rateBase
    ensures shipping == FirstShipping(items)
  {
    totals := [0.0, 0.0, 0.0, 0.0, 0.0, 0.0];
    rateSum, rateBase, shipping := 0.0, 0.0, Null;
    for i := 0 to |items|
      invariant Summed(items[..i], rate, totals, rateSum, rateBase, shipping)
    {
      totals, rateSum, rateBase, shipping := AddItem(items[..i], items[i], rate, totals, rateSum, rateBase, shipping);
      assert items[..i + 1] == items[..i] + [items[i]];
    }
    assert items[..|items|] == items;
  }

  /** The body of the items loop, for one more item. */
  method AddItem(seen: seq<Value>, item: Value, rate: real, totals0: seq<real>, rateSum0: real, rateBase0: real, shipping0: Value)
    returns (totals: seq<real>, rateSum: real, rateBase: real, shipping: Value)
    requires Summed(seen, rate, totals0, rateSum0, rateBase0, shipping0)
    ensures Summed(seen + [item], rate, totals, rateSum, rateBase, shipping)
  {
    var price;
    totals, price := AddItemTotals(seen, item, totals0);
    rateSum, rateBase := AddRate(seen, item, rate, rateSum0, rateBase0, price);
    shipping := AddShipping(seen, item, shipping0);
  }

  /** The rate-weighted and the plain price sums over one item more: only a
      counted item adds, and only when the rate is positive. */
  method AddRate(seen: seq<Value>, item: Value, rate: real, rateSum0: real, rateBase0: real, price: real)
    returns (rateSum: real, rateBase: real)
    requires rateBase0 == (if rate > 0.0 then PriceSum(seen) else 0.0)
    requires rateSum0 == rate * rateBase0
    requires IsCounted(item) ==> price == CountedRow(item, "price", true)
    ensures rateBase == (if rate > 0.0 then PriceSum(seen + [item]) else 0.0)
    ensures rateSum == rate * rateBase
  {
    PriceSumAppend(seen, item);
    assert PriceSum(seen + [item]) == PriceSum(seen) + CountedRow(item, "price", true);
    rateSum, rateBase := rateSum0, rateBase0;
    if IsCounted(item) && rate > 0.0 {
      rateSum, rateBase := AddWeighted(rate, rateSum, rateBase, price);
    } else if rate > 0.0 {
      assert CountedRow(item, "price", true) == 0.0;
    }
  }

  /** The shipping method over one item more: the first item's method is kept. */
  method AddShipping(seen: seq<Value>, item: Value, shipping0: Value) returns (shipping: Value)
    requires shipping0 == FirstShipping(seen)
    ensures shipping == FirstShipping(seen + [item])
  {
    shipping := shipping0;
    if shipping == Null {
      shipping := ShippingMethod(item);
    }
    FirstShippingAppend(seen, item);
  }

  /** The summed prices over one item more. */
  lemma PriceSumAppend(items: seq<Value>, x: Value)
    ensures PriceSum(items + [x]) == PriceSum(items) + if IsCounted(x) then OrZero(RowTotal(x, "price", true)) else 0.0
  {
    CodeTotalAppend(items, x, "price", true);
  }

  /** The code totals over one item more, and the item's price row total
      (`$rowTotals['price']`, NULL and so 0 when unset). */
  method AddItemTotals(seen: seq<Value>, item: Value, totals0: seq<real>) returns (totals: seq<real>, price: real)
    requires |totals0| == |ItemTotalCodes|
    requires forall p :: 0 <= p < |ItemTotalCodes| ==> totals0[p] == CodeTotal(seen, ItemTotalCodes[p].0, ItemTotalCodes[p].1)
    ensures |totals| == |ItemTotalCodes|
    ensures forall p :: 0 <= p < |ItemTotalCodes| ==> totals[p] == CodeTotal(seen + [item], ItemTotalCodes[p].0, ItemTotalCodes[p].1)
    ensures IsCounted(item) ==> price == CountedRow(item, "price", true)
  {
    forall p | 0 <= p < |ItemTotalCodes|
      ensures CodeTotal(seen + [item], ItemTotalCodes[p].0, ItemTotalCodes[p].1)
              == CodeTotal(seen, ItemTotalCodes[p].0, ItemTotalCodes[p].1) + CountedRow(item, ItemTotalCodes[p].0, ItemTotalCodes[p].1)
    {
      CodeTotalAppend(seen, item, ItemTotalCodes[p].0, ItemTotalCodes[p].1);
    }
    totals, price := totals0, 0.0;
    if IsCounted(item) {
      var rows;
      totals, rows := AddRow(totals, item);
      assert rows[PriceCode] == RowTotal(item, "price", true);
      price := OrZero(rows[PriceCode]);
    }
  }

  /** The rate-weighted price added to the weighted sum, the price to the
      plain one. */
  method AddWeighted(rate: real, rateSum0: real, rateBase0: real, price: real) returns (rateSum: real, rateBase: real)
    requires rateSum0 == rate * rateBase0
    ensures rateBase == rateBase0 + price
    ensures rateSum == rate * rateBase
  {
    rateSum := rateSum0 + rate * price;
    rateBase := rateBase0 + price;
  }

  /** The inner loop over the codes for one counted item: its row total of
      every set code is added to the code's total. */
  method AddRow(totals0: seq<real>, item: Value) returns (totals: seq<real>, rows: seq<Option<real>>)
    requires |totals0| == |ItemTotalCodes|
    ensures |totals| == |ItemTotalCodes| && |rows| == |ItemTotalCodes|
    ensures forall p :: 0 <= p < |ItemTotalCodes| ==> rows[p] == RowTotal(item, ItemTotalCodes[p].0, ItemTotalCodes[p].1)
    ensures forall p :: 0 <= p < |ItemTotalCodes| ==> totals[p] == totals0[p] + OrZero(rows[p])
  {
    totals, rows := totals0, [];
    for j := 0 to |ItemTotalCodes|
      invariant |totals| == |ItemTotalCodes| && |rows| == j
      invariant forall p :: 0 <= p < j ==> rows[p] == RowTotal(item, ItemTotalCodes[p].0, ItemTotalCodes[p].1)
      invariant forall p :: 0 <= p < j ==> totals[p] == totals0[p] + OrZero(rows[p])
      invariant forall p :: j <= p < |ItemTotalCodes| ==> totals[p] == totals0[p]
    {
      var code, perItem := ItemTotalCodes[j].0, ItemTotalCodes[j].1;
      var row := RowTotal(item, code, perItem);
      if row.Some? {
        totals := totals[j := totals[j] + row.value];
      }
      rows := rows + [row];
    }
  }

  // ---------------------------------------------------------------- the order's attributes

  /** The rate `storeOrderData` stores: the weighted sum divided by the
      summed prices when these are positive, the weighted sum as it is
      otherwise. */
  lemma RateDivided(rate: real, priceSum: real, rateSum: real, rateBase: real)
    requires rateBase == (if rate > 0.0 then priceSum else 0.0)
    requires rateSum == rate * rateBase
    ensures (if rateBase > 0.0 then rateSum / rateBase else rateSum) == BaseToCurrencyRate(rate, priceSum)
  {
  }

  /** The attributes after writing the first `j` code totals. */
  function TotalsWritten(data0: map<string, Value>, totals: seq<real>, j: nat): map<string, Value>
    requires j <= |totals| && j <= |ItemTotalCodes|
  {
    if j == 0 then data0
    else TotalsWritten(data0, totals, j - 1)[TotalCode(ItemTotalCodes[j - 1].0) := Num(totals[j - 1])]
  }

  /** All six totals written, by name. */
  lemma TotalsWrittenAll(data0: map<string, Value>, totals: seq<real>)
    requires |totals| == |ItemTotalCodes|
    ensures TotalsWritten(data0, totals, |ItemTotalCodes|)
            == data0["discount_total" := Num(totals[0])]["payment_total" := Num(totals[1])]
                    ["price_total" := Num(totals[2])]["shipping_total" := Num(totals[3])]
                    ["tax_total" := Num(totals[4])]["weight_total" := Num(totals[5])]
  {
    assert TotalCode(ItemTotalCodes[0].0) == "discount_total";
    assert TotalCode(ItemTotalCodes[1].0) == "payment_total";
    assert TotalCode(ItemTotalCodes[2].0) == "price_total";
    assert TotalCode(ItemTotalCodes[3].0) == "shipping_total";
    assert TotalCode(ItemTotalCodes[4].0) == "tax_total";
    assert TotalCode(ItemTotalCodes[5].0) == "weight_total";
    assert TotalsWritten(data0, totals, 1) == data0["discount_total" := Num(totals[0])];
    assert TotalsWritten(data0, totals, 2) == TotalsWritten(data0, totals, 1)["payment_total" := Num(totals[1])];
    assert TotalsWritten(data0, totals, 3) == TotalsWritten(data0, totals, 2)["price_total" := Num(totals[2])];
    assert TotalsWritten(data0, totals, 4) == TotalsWritten(data0, totals, 3)["shipping_total" := Num(totals[3])];
    assert TotalsWritten(data0, totals, 5) == TotalsWritten(data0, totals, 4)["tax_total" := Num(totals[4])];
    assert TotalsWritten(data0, totals, 6) == TotalsWritten(data0, totals, 5)["weight_total" := Num(totals[5])];
  }

  /** The totals loop of `storeOrderData`: each code's total is stored under
      the code's total name. */
  method WriteTotals(data0: map<string, Value>, totals: seq<real>) returns (data: map<string, Value>)
    requires |totals| == |ItemTotalCodes|
    ensures data == data0["discount_total" := Num(totals[0])]["payment_total" := Num(totals[1])]
                         ["price_total" := Num(totals[2])]["shipping_total" := Num(totals[3])]
                         ["tax_total" := Num(totals[4])]["weight_total" := Num(totals[5])]
  {
    data := data0;
    for j := 0 to |ItemTotalCodes|
      invariant data == TotalsWritten(data0, totals, j)
    {
      data := data[TotalCode(ItemTotalCodes[j].0) := Num(totals[j])];
    }
    TotalsWrittenAll(data0, totals);
  }

  /** An attribute is set: present and not NULL. */
  predicate IsSet(data: map<string, Value>, k: string)
  {
    k in data && data[k] != Null
  }

  /** The attributes after the defaults of the first `j` entries. */
  function Defaulted(data0: map<string, Value>, defaults: seq<(string, Value)>, j: nat): map<string, Value>
    requires j <= |defaults|
  {
    if j == 0 then data0
    else
      var d := Defaulted(data0, defaults, j - 1);
      if IsSet(d, defaults[j - 1].0) then d else d[defaults[j - 1].0 := defaults[j - 1].1]
  }

  /** The attributes with the order defaults for what is unset. */
  function WithDefaults(data: map<string, Value>): map<string, Value>
  {
    var e := if IsSet(data, "customer_email") then data else data["customer_email" := Str(DefaultCustomerEmail)];
    if IsSet(e, "shipping_method") then e else e["shipping_method" := Str(TrackedEms)]
  }

  /** The defaults loop, run through, gives the attributes with defaults. */
  lemma DefaultedAll(data: map<string, Value>)
    ensures Defaulted(data, OrderDefaults, |OrderDefaults|) == WithDefaults(data)
  {
    assert OrderDefaults[0] == ("customer_email", Str(DefaultCustomerEmail));
    assert OrderDefaults[1] == ("shipping_method", Str(TrackedEms));
    assert Defaulted(data, OrderDefaults, 1) == if IsSet(data, "customer_email") then data else data["customer_email" := Str(DefaultCustomerEmail)];
  }

  /** After the defaults, both the customer email and the shipping method are
      set: to the value they had when set, to the default otherwise; no other
      attribute changes. */
  lemma DefaultsMeaning(data: map<string, Value>)
    ensures var d := WithDefaults(data);
      && IsSet(d, "customer_email") && IsSet(d, "shipping_method")
      && d["customer_email"] == (if IsSet(data, "customer_email") then data["customer_email"] else Str(DefaultCustomerEmail))
      && d["shipping_method"] == (if IsSet(data, "shipping_method") then data["shipping_method"] else Str(TrackedEms))
      && d.Keys == data.Keys + {"customer_email", "shipping_method"}
      && forall k :: k in data && k != "customer_email" && k != "shipping_method" ==> d[k] == data[k]
  {
  }

  /** Setting an attribute that has no default commutes with the defaults. */
  lemma DefaultsCommute(data: map<string, Value>, k: string, v: Value)
    requires k != "customer_email" && k != "shipping_method"
    ensures WithDefaults(data[k := v]) == WithDefaults(data)[k := v]
  {
  }

  /** The defaults loop of `storeOrderData`: an unset attribute takes its
      default, a set one is kept. */
  method ApplyDefaults(data0: map<string, Value>) returns (data: map<string, Value>)
    ensures data == WithDefaults(data0)
  {
    data := data0;
    for j := 0 to |OrderDefaults|
      invariant data == Defaulted(data0, OrderDefaults, j)
    {
      var k, v := OrderDefaults[j].0, OrderDefaults[j].1;
      if !IsSet(data, k) {
        data := data[k := v];
      }
    }
    DefaultedAll(data0);
  }

  /** The address fields copied: the first name and email set. */
  function AddressPart(name: Option<Value>, email: Option<Value>): map<string, Value>
  {
    var named: map<string, Value> := if name.Some? then map["customer_name" := name.value] else map[];
    if email.Some? then named["customer_email" := email.value] else named
  }

  /** The copy of the address fields is the first name and email set. */
  lemma CopiedAddressPart(data: map<string, Value>, addresses: seq<Value>)
    requires forall p :: 0 <= p < |AddressToOrderMap| ==> CopiedFrom(data, addresses, AddressToOrderMap[p].0, AddressToOrderMap[p].1)
    requires data.Keys <= Targets(AddressToOrderMap)
    ensures data == AddressPart(FirstSet(addresses, "name"), FirstSet(addresses, "contact_email_1"))
  {
    assert AddressToOrderMap[0] == ("name", "customer_name") && AddressToOrderMap[1] == ("contact_email_1", "customer_email");
    assert CopiedFrom(data, addresses, "name", "customer_name");
    assert CopiedFrom(data, addresses, "contact_email_1", "customer_email");
    assert Targets(AddressToOrderMap) == {"customer_name", "customer_email"};
  }

  /** The totals written, shipping forced to 0, the price total dropped and
      the payment total turned into the payment method. */
  method StoreTotals(data0: map<string, Value>, totals: seq<real>, paymentData: Value -> Value) returns (data: map<string, Value>)
    requires |totals| == |ItemTotalCodes|
    requires "price_total" !in data0 && "payment_total" !in data0
    ensures data == data0["discount_total" := Num(totals[0])]["shipping_total" := Int(0)]["tax_total" := Num(totals[4])]
                         ["weight_total" := Num(totals[5])]["payment_method" := paymentData(Num(totals[1]))]
  {
    data := WriteTotals(data0, totals);
    data := data["shipping_total" := Int(0)] - {"price_total"};
    if IsSet(data, "payment_total") {
      data := data["payment_method" := paymentData(data["payment_total"])] - {"payment_total"};
    }
  }

  /** The stored totals and payment method commute with the defaults. */
  lemma DefaultsAfterTotals(c0: map<string, Value>, totals: seq<real>, paymentMethod: Value)
    requires |totals| == |ItemTotalCodes|
    ensures WithDefaults(c0["discount_total" := Num(totals[0])]["shipping_total" := Int(0)]["tax_total" := Num(totals[4])]
                           ["weight_total" := Num(totals[5])]["payment_method" := paymentMethod])
            == WithDefaults(c0)["discount_total" := Num(totals[0])]["shipping_total" := Int(0)]["tax_total" := Num(totals[4])]
                               ["weight_total" := Num(totals[5])]["payment_method" := paymentMethod]
  {
    var c1 := c0["discount_total" := Num(totals[0])];
    var c2 := c1["shipping_total" := Int(0)];
    var c3 := c2["tax_total" := Num(totals[4])];
    var c4 := c3["weight_total" := Num(totals[5])];
    DefaultsCommute(c0, "discount_total", Num(totals[0]));
    DefaultsCommute(c1, "shipping_total", Int(0));
    DefaultsCommute(c2, "tax_total", Num(totals[4]));
    DefaultsCommute(c3, "weight_total", Num(totals[5]));
    DefaultsCommute(c4, "payment_method", paymentMethod);
  }

  /** The address fields with the shipping method and the defaults. */
  lemma AddressDefaults(name: Option<Value>, email: Option<Value>, shipping: Value)
    requires name.Some? ==> name.value != Null
    requires email.Some? ==> email.value != Null
    ensures var a := AddressPart(name, email);
      var named: map<string, Value> := if name.Some? then map["customer_name" := name.value] else map[];
      WithDefaults(if shipping != Null then a["shipping_method" := shipping] else a)
        == named["customer_email" := if email.Some? then email.value else Str(DefaultCustomerEmail)]
                ["shipping_method" := if shipping != Null then shipping else Str(TrackedEms)]
  {
  }

  /** What `storeOrderData` adds to the address fields: the shipping method,
      the code totals (shipping forced to 0, price dropped), the payment
      method in place of the payment total, the defaults, status, time of
      placing, grand total and rate. */
  method FinishOrder(data0: map<string, Value>, name: Option<Value>, email: Option<Value>, shipping: Value,
                     totals: seq<real>, rate: real, paymentData: Value -> Value, status: Value, placedAt: Value)
    returns (data: map<string, Value>)
    requires data0 == AddressPart(name, email)
    requires name.Some? ==> name.value != Null
    requires email.Some? ==> email.value != Null
    requires |totals| == |ItemTotalCodes|
    ensures data == OrderAttributesOf(name, email, shipping, Totals(totals[0], totals[1], totals[2], totals[3], totals[4], totals[5]),
                                      rate, paymentData(Num(totals[1])), status, placedAt)
  {
    data := data0;
    if shipping != Null {
      data := data["shipping_method" := shipping];
    }
    ghost var c0 := data;
    data := StoreTotals(data, totals, paymentData);
    DefaultsAfterTotals(c0, totals, paymentData(Num(totals[1])));
    AddressDefaults(name, email, shipping);
    data := ApplyDefaults(data);
    data := data["status" := status]["placed_at" := placedAt]["grand_total" := Num(totals[1])]["base_to_currency_rate" := Num(rate)];
  }

  /** The attributes `storeOrderData` gathers from the order data before it
      turns to the customer: the address fields, the shipping method and the
      totals of the items, the payment method, the defaults, status, time of
      placing, grand total and rate. */
  method AssembleOrder(orderData: Value, paymentData: Value -> Value, placedAt: Value -> Value)
    returns (data: map<string, Value>)
    ensures data == OrderAttributes(orderData, ItemTotals(ItemsOf(orderData)), OrderRate(orderData),
                                    FirstShipping(ItemsOf(orderData)),
                                    paymentData(Num(CodeTotal(ItemsOf(orderData), "payment", false))),
                                    placedAt(Index(orderData, "created_at")))
  {
    var addresses := Elements(Index(orderData, "addresses"));
    data := CopyAddressFields(addresses, AddressToOrderMap);
    CopiedAddressPart(data, addresses);
    FirstSetMeaning(addresses, "name");
    FirstSetMeaning(addresses, "contact_email_1");
    var items := ItemsOf(orderData);
    var rate := Number(ExchangeRate(orderData));
    var totals, rateSum, rateBase, shipping := SumItems(items, rate);
    var baseToCurrencyRate := if rateBase > 0.0 then rateSum / rateBase else rateSum;
    RateDivided(rate, PriceSum(items), rateSum, rateBase);
    data := FinishOrder(data, FirstSet(addresses, "name"), FirstSet(addresses, "contact_email_1"), shipping, totals,
                        baseToCurrencyRate, paymentData, OrderStatus(orderData), placedAt(Index(orderData, "created_at")));
  }
}
