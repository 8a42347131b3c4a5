/** The order gateway: one poll cycle over the MMS order ids since a cursor,
    and for each order data array the find-or-create of the order, its
    customer, addresses and items in the entity store, with the stock
    counters the order moves. The REST calls, the payment-data conversion
    and the date formatting of `placed_at` are inputs; `uniqid()` gives the
    id of its call count. */
module OrderGateway {
  import opened PhpStrings
  import opened PhpValues
  import opened EntityStore
  import opened OrderRules
  import OrderData
  import RestCurl
  import RestV1

  // ---------------------------------------------------------------- address memo

  /** The memo key of a language code: the code without trailing blanks and
      dashes or leading white space, then a dash; no code has the key "". */
  function MemoKey(code: Option<string>): string
  {
    if code.None? then "" else LTrim(RTrim(code.value, {' ', '-'}), TrimChars) + "-"
  }

  /** `strtolower(substr($languageCode, 0, $n))`; `substr` of an array is NULL. */
  function LanguagePrefix(languageCode: Value, n: nat): string
  {
    if languageCode.Arr? then "" else Lower(Take(Text(languageCode), n))
  }

  /** An address is taken for a code when it has a language code whose
      lower-cased prefix, as long as the key, is the key; without a code
      the key and the prefix are empty, so any address with a language code
      is taken. */
  predicate Matches(address: Value, code: Option<string>)
  {
    && Isset(address, "language_code")
    && LanguagePrefix(Index(address, "language_code"), |MemoKey(code)|) == MemoKey(code)
  }

  /** Which of the addresses are taken for the code. */
  function TakenFlags(addresses: seq<Value>, code: Option<string>): (r: seq<bool>)
    ensures |r| == |addresses|
  {
    seq(|addresses|, j requires 0 <= j < |addresses| => Matches(addresses[j], code))
  }

  /** The first index from `from` on whose flag is set. */
  function FirstFlag(flags: seq<bool>, from: nat): (r: Option<nat>)
    requires from <= |flags|
    ensures r.Some? ==> from <= r.value < |flags|
    decreases |flags| - from
  {
    if from == |flags| then None
    else if flags[from] then Some(from)
    else FirstFlag(flags, from + 1)
  }

  /** `FirstFlag` finds a set flag, and no flag before it is set. */
  lemma {:induction false} FirstFlagIsFirst(flags: seq<bool>, from: nat)
    requires from <= |flags|
    ensures var r := FirstFlag(flags, from);
      && (r.Some? ==> flags[r.value])
      && forall j :: from <= j < |flags| && (r.None? || j < r.value) ==> !flags[j]
    decreases |flags| - from
  {
    if from < |flags| && !flags[from] {
      FirstFlagIsFirst(flags, from + 1);
    }
  }

  /** The first address taken for the code. */
  function FirstMatch(addresses: seq<Value>, code: Option<string>): (r: Option<nat>)
    ensures r.Some? ==> r.value < |addresses|
  {
    FirstFlag(TakenFlags(addresses, code), 0)
  }

  /** `FirstMatch` finds an address taken for the code, and no address
      before it is taken. */
  lemma FirstMatchIsFirst(addresses: seq<Value>, code: Option<string>)
    ensures var r := FirstMatch(addresses, code);
      && (r.Some? ==> Matches(addresses[r.value], code))
      && forall j :: 0 <= j < |addresses| && (r.None? || j < r.value) ==> !Matches(addresses[j], code)
  {
    var flags := TakenFlags(addresses, code);
    FirstFlagIsFirst(flags, 0);
    assert forall j :: 0 <= j < |addresses| ==> flags[j] == Matches(addresses[j], code);
  }

  /** The id `uniqid()` hands out at its `draw`-th call (counting from 0). */
  function UniqueId(draw: nat): string
  {
    NatToString(draw)
  }

  /** `getAddressArrayByLanguageCode`'s answer from the memo `memo` when
      `uniqid()` has handed out `ticks` ids: a memoised code gives its
      entry; otherwise the first address taken for the code, with the next
      id as its `address_id`, or an empty array when no address is taken. */
  function MemoAnswer(memo: map<string, Value>, ticks: nat, addresses: seq<Value>,
                      code: Option<string>): Value
  {
    var key := MemoKey(code);
    if key in memo then memo[key]
    else match FirstMatch(addresses, code)
      case None => Arr([])
      case Some(i) => Set(addresses[i], "address_id", Str(UniqueId(ticks)))
  }

  /** The ids a lookup draws: one when it picks an address. */
  function MemoDraws(memo: map<string, Value>, addresses: seq<Value>, code: Option<string>): nat
  {
    if MemoKey(code) !in memo && FirstMatch(addresses, code).Some? then 1 else 0
  }

  /** `Matches` is the test of the code, `$addressLanguageCode == $languageCode
      || is_null($languageCode)`: the key ends in a dash, so it is no number
      and the loose comparison is the literal one. */
  lemma MatchesMeaning(address: Value, code: Option<string>)
    ensures Matches(address, code) <==>
      Isset(address, "language_code")
      && (|| LooseEq(Str(LanguagePrefix(Index(address, "language_code"), |MemoKey(code)|)), Str(MemoKey(code)))
          || code.None?)
  {
    var key := MemoKey(code);
    if code.Some? {
      assert key[|key| - 1] == '-';
      DashKeyCompare(LanguagePrefix(Index(address, "language_code"), |key|), key);
    } else {
      NoCodePrefix(address);
    }
  }

  /** A key ending in a dash compares loosely equal to a string only when
      the two are the same. */
  lemma DashKeyCompare(prefix: string, key: string)
    requires |key| > 0 && key[|key| - 1] == '-'
    ensures LooseEq(Str(prefix), Str(key)) <==> prefix == key
  {
    TrailingDashNotNumeric(key);
    LooseEqStrings(key, prefix);
  }

  /** Without a code the prefix is empty, which is the key. */
  lemma NoCodePrefix(address: Value)
    ensures LanguagePrefix(Index(address, "language_code"), |MemoKey(None)|) == MemoKey(None)
  {
  }

  /** Storing the answer under the code's key loses no entry of the memo:
      a key already there is answered with its own entry. */
  lemma MemoKeepsEntries(memo: map<string, Value>, ticks: nat, addresses: seq<Value>,
                         code: Option<string>)
    ensures var after := memo[MemoKey(code) := MemoAnswer(memo, ticks, addresses, code)];
      forall k :: k in memo ==> k in after && after[k] == memo[k]
  {
  }

  /** The memo is never cleared: asking again for the same code, whatever
      the order data, gives the same address, draws no id and leaves the
      memo as it is. */
  lemma MemoIdempotent(memo: map<string, Value>, ticks: nat, addresses: seq<Value>,
                       later: seq<Value>, code: Option<string>, ticks2: nat)
    ensures var address := MemoAnswer(memo, ticks, addresses, code);
      var after := memo[MemoKey(code) := address];
      && MemoAnswer(after, ticks2, later, code) == address
      && MemoDraws(after, later, code) == 0
      && after[MemoKey(code) := address] == after
  {
  }

  /** A first lookup gives the first address taken for the code, whose
      lower-cased prefix is the key, with the next id as its `address_id`
      and its other entries as they were; it draws one id. With no address
      taken it gives the empty array and draws none. */
  lemma MemoFirst(memo: map<string, Value>, ticks: nat, addresses: seq<Value>,
                  code: Option<string>)
    requires MemoKey(code) !in memo
    ensures var address := MemoAnswer(memo, ticks, addresses, code);
      match FirstMatch(addresses, code)
      case None => address == Arr([]) && MemoDraws(memo, addresses, code) == 0
      case Some(i) =>
        && LanguagePrefix(Index(addresses[i], "language_code"), |MemoKey(code)|) == MemoKey(code)
        && Index(address, "address_id") == Str(UniqueId(ticks)) && MemoDraws(memo, addresses, code) == 1
        && forall k :: k != "address_id" ==> Index(address, k) == Index(addresses[i], k)
  {
    FirstMatchIsFirst(addresses, code);
  }

  // ---------------------------------------------------------------- stock counters

  /** The store of global entities such as stock items (`getStockStoreId`). */
  const GlobalStoreId := "0"

  /** The stock attribute an order in this status moves: the quantity in
      transit while it is shippable, the available quantity once it is
      closed, none otherwise. */
  function StockAttribute(status: Value): (r: Option<string>)
    ensures r == Some("qty_pre_transit") <==> IsShippableOrderStatus(status)
    ensures r == Some("available") <==> !IsShippableOrderStatus(status) && HasOrderStatusClosed(status)
    ensures r.None? <==> !IsShippableOrderStatus(status) && !HasOrderStatusClosed(status)
  {
    if IsShippableOrderStatus(status) then Some("qty_pre_transit")
    else if HasOrderStatusClosed(status) then Some("available")
    else None
  }

  /** `$order->getData('status')`. */
  function StatusOf(order: Record): Value
  {
    Attr(order, "status", Null)
  }

  /** The item's quantity, 0 when missing; of an array the last entry
      (`array_pop`), NULL for an empty one. */
  function ItemQuantity(item: Record): Value
  {
    var q := Attr(item, "quantity", Int(0));
    if q.Arr? then (if |q.entries| == 0 then Null else q.entries[|q.entries| - 1].1) else q
  }

  /** The stock item of an order item: the global one with the item's SKU. */
  function StockKey(item: Record): (k: Key)
    ensures k.entityType == "stockitem"
  {
    Key("stockitem", GlobalStoreId, Text(Attr(item, "sku", Null)))
  }

  /** The stock counter raised by the item's quantity. */
  function Raised(stock: Record, code: string, item: Record): Value
  {
    Num(Number(Attr(stock, code, Int(0))) + Number(ItemQuantity(item)))
  }

  /** `updateStockQuantities`' result: NULL when the status moves no
      counter, TRUE when the stock item exists and takes the update, FALSE
      otherwise. */
  function StockSuccess(records: map<Key, Record>, refused: set<Key>, status: Value, item: Key): Value
    requires item in records
  {
    var sk := StockKey(records[item]);
    if StockAttribute(status).None? then Null else Bool(sk in records && sk !in refused)
  }

  /** The records after `updateStockQuantities`: the item's stock counter
      raised by its quantity when that succeeds, nothing changed otherwise. */
  function StockRecords(records: map<Key, Record>, refused: set<Key>, status: Value, item: Key): map<Key, Record>
    requires item in records
  {
    var code := StockAttribute(status);
    var sk := StockKey(records[item]);
    if code.Some? && sk in records && sk !in refused
    then records[sk := Record(records[sk].attrs + map[code.value := Raised(records[sk], code.value, records[item])],
                              records[sk].parent)]
    else records
  }

  /** The update changes only the item's stock item, and that only when it
      reports success; the counter it moves is raised by the quantity. */
  lemma StockUpdateMeaning(records: map<Key, Record>, refused: set<Key>, status: Value, item: Key)
    requires item in records
    ensures var after := StockRecords(records, refused, status, item);
      var sk := StockKey(records[item]);
      && after.Keys == records.Keys
      && (forall k :: k in records && k != sk ==> after[k] == records[k])
      && (StockSuccess(records, refused, status, item) != Bool(true) ==> after == records)
      && (StockSuccess(records, refused, status, item) == Bool(true) ==>
            var code := StockAttribute(status).value;
            && Number(Attr(after[sk], code, Int(0))) == Number(Attr(records[sk], code, Int(0))) + Number(ItemQuantity(records[item]))
            && forall c :: c != code ==> Attr(after[sk], c, Null) == Attr(records[sk], c, Null))
  {
  }

  /** `updateStockQuantities` over the order's items in turn. */
  function StockFold(records: map<Key, Record>, refused: set<Key>, status: Value, items: seq<Key>): (r: map<Key, Record>)
    requires forall i :: 0 <= i < |items| ==> items[i] in records
    ensures r.Keys == records.Keys
    decreases |items|
  {
    if |items| == 0 then records
    else
      var before := StockFold(records, refused, status, items[..|items| - 1]);
      StockRecords(before, refused, status, items[|items| - 1])
  }

  /** The quantities of the items whose stock item is `s`. */
  function QuantityTo(records: map<Key, Record>, s: Key, items: seq<Key>): real
    requires forall i :: 0 <= i < |items| ==> items[i] in records
    decreases |items|
  {
    if |items| == 0 then 0.0
    else
      var item := records[items[|items| - 1]];
      QuantityTo(records, s, items[..|items| - 1]) + (if StockKey(item) == s then Number(ItemQuantity(item)) else 0.0)
  }

  /** The fold over one more item is that item's update after the fold. */
  lemma StockFoldStep(records: map<Key, Record>, refused: set<Key>, status: Value, items: seq<Key>, i: nat)
    requires forall j :: 0 <= j < |items| ==> items[j] in records
    requires i < |items|
    ensures StockFold(records, refused, status, items[..i + 1])
            == StockRecords(StockFold(records, refused, status, items[..i]), refused, status, items[i])
  {
    assert items[..i + 1][..i] == items[..i];
  }

  lemma {:induction false} StockFoldKeeps(records: map<Key, Record>, refused: set<Key>, status: Value, items: seq<Key>, k: Key)
    requires forall i :: 0 <= i < |items| ==> items[i] in records
    requires k in records && k.entityType != "stockitem"
    ensures StockFold(records, refused, status, items)[k] == records[k]
    decreases |items|
  {
    if |items| > 0 {
      var front := items[..|items| - 1];
      StockFoldKeeps(records, refused, status, front, k);
      StockUpdateMeaning(StockFold(records, refused, status, front), refused, status, items[|items| - 1]);
    }
  }

  /** Over the items of an order, a stock item that takes updates gains the
      quantities of exactly the items with its SKU on the counter the status
      moves. */
  lemma {:induction false} StockFoldAdds(records: map<Key, Record>, refused: set<Key>, status: Value, items: seq<Key>, s: Key)
    requires forall i :: 0 <= i < |items| ==> items[i] in records && items[i].entityType != "stockitem"
    requires StockAttribute(status).Some? && s in records && s !in refused
    ensures var code := StockAttribute(status).value;
      Number(Attr(StockFold(records, refused, status, items)[s], code, Int(0)))
        == Number(Attr(records[s], code, Int(0))) + QuantityTo(records, s, items)
    decreases |items|
  {
    if |items| > 0 {
      var front := items[..|items| - 1];
      var last := items[|items| - 1];
      var before := StockFold(records, refused, status, front);
      StockFoldAdds(records, refused, status, front, s);
      StockFoldKeeps(records, refused, status, front, last);
      StockUpdateMeaning(before, refused, status, last);
    }
  }

  /** A status that moves no counter leaves the stock as it is. */
  lemma {:induction false} StockFoldIdle(records: map<Key, Record>, refused: set<Key>, status: Value, items: seq<Key>)
    requires forall i :: 0 <= i < |items| ==> items[i] in records
    requires StockAttribute(status).None?
    ensures StockFold(records, refused, status, items) == records
    decreases |items|
  {
    if |items| > 0 {
      StockFoldIdle(records, refused, status, items[..|items| - 1]);
    }
  }

  // ---------------------------------------------------------------- the order's addresses and customer

  const English: Option<string> := Some("en")
  const Chinese: Option<string> := Some("zh")
  /** `getFirstAddressArray`: no language code. */
  const AnyLanguage: Option<string> := None

  /** The addresses of the order data. */
  function AddressesOf(orderData: Value): seq<Value>
  {
    Elements(Index(orderData, "addresses"))
  }

  /** A code of letters that are neither blanks nor dashes is its own key,
      with a dash. */
  lemma PlainCodeKey(code: string)
    requires |code| > 0 && forall i :: 0 <= i < |code| ==> code[i] !in {' ', '-'} && code[i] !in TrimChars
    ensures MemoKey(Some(code)) == code + "-"
  {
    var r := RTrim(code, {' ', '-'});
    assert r == code;
    assert LTrim(r, TrimChars) == r;
  }

  /** The English, Chinese and first-address lookups use three different keys. */
  lemma LanguageKeys()
    ensures MemoKey(English) == "en-" && MemoKey(Chinese) == "zh-" && MemoKey(AnyLanguage) == ""
  {
    PlainCodeKey("en");
    PlainCodeKey("zh");
  }

  /** An entry under another key does not change a lookup. */
  lemma MemoOtherKey(memo: map<string, Value>, k: string, v: Value, ticks: nat, addresses: seq<Value>, code: Option<string>)
    requires k != MemoKey(code)
    ensures MemoAnswer(memo[k := v], ticks, addresses, code) == MemoAnswer(memo, ticks, addresses, code)
    ensures MemoDraws(memo[k := v], addresses, code) == MemoDraws(memo, addresses, code)
  {
  }

  /** The English, Chinese and first address of an order. */
  datatype OrderAddresses = OrderAddresses(english: Value, chinese: Value, first: Value)

  /** Three lookups in a row under distinct keys answer as each would from
      the memo before them. */
  lemma ThreeLookups(memo0: map<string, Value>, addresses: seq<Value>,
                     c1: Option<string>, c2: Option<string>, c3: Option<string>, v1: Value, v2: Value, v3: Value,
                     memo1: map<string, Value>, memo2: map<string, Value>, t1: nat, t2: nat, t3: nat)
    requires MemoKey(c1) != MemoKey(c2) && MemoKey(c1) != MemoKey(c3) && MemoKey(c2) != MemoKey(c3)
    requires memo1 == memo0[MemoKey(c1) := v1] && memo2 == memo1[MemoKey(c2) := v2]
    requires v2 == MemoAnswer(memo1, t1, addresses, c2) && t2 == t1 + MemoDraws(memo1, addresses, c2)
    requires v3 == MemoAnswer(memo2, t2, addresses, c3) && t3 == t2 + MemoDraws(memo2, addresses, c3)
    ensures v2 == MemoAnswer(memo0, t1, addresses, c2) && t2 == t1 + MemoDraws(memo0, addresses, c2)
    ensures v3 == MemoAnswer(memo0, t2, addresses, c3) && t3 == t2 + MemoDraws(memo0, addresses, c3)
  {
    MemoOtherKey(memo0, MemoKey(c1), v1, t1, addresses, c2);
    MemoOtherKey(memo0, MemoKey(c1), v1, t2, addresses, c3);
    MemoOtherKey(memo1, MemoKey(c2), v2, t2, addresses, c3);
  }

  /** The English, Chinese and first-address lookups made one after the
      other give `LookupsFrom`, leave the memo as `MemoAfter` says and draw
      `DrawsFrom` ids. */
  lemma LookupsInOrder(memo0: map<string, Value>, addresses: seq<Value>, v1: Value, v2: Value, v3: Value,
                       memo1: map<string, Value>, memo2: map<string, Value>, memo3: map<string, Value>,
                       t0: nat, t1: nat, t2: nat, t3: nat)
    requires memo1 == memo0[MemoKey(English) := v1] && memo2 == memo1[MemoKey(Chinese) := v2]
    requires memo3 == memo2[MemoKey(AnyLanguage) := v3]
    requires v1 == MemoAnswer(memo0, t0, addresses, English) && t1 == t0 + MemoDraws(memo0, addresses, English)
    requires v2 == MemoAnswer(memo1, t1, addresses, Chinese) && t2 == t1 + MemoDraws(memo1, addresses, Chinese)
    requires v3 == MemoAnswer(memo2, t2, addresses, AnyLanguage) && t3 == t2 + MemoDraws(memo2, addresses, AnyLanguage)
    ensures OrderAddresses(v1, v2, v3) == LookupsFrom(memo0, t0, addresses)
    ensures memo3 == MemoAfter(memo0, OrderAddresses(v1, v2, v3))
    ensures t3 == t0 + DrawsFrom(memo0, addresses)
  {
    LanguageKeys();
    ThreeLookups(memo0, addresses, English, Chinese, AnyLanguage, v1, v2, v3, memo1, memo2, t1, t2, t3);
  }

  /** The three lookups `getCustomerName` and `getCustomerEmail` make, in
      their order, from the memo `memo` after `ticks` ids. */
  function LookupsFrom(memo: map<string, Value>, ticks: nat, addresses: seq<Value>): OrderAddresses
  {
    var t1 := ticks + MemoDraws(memo, addresses, English);
    var t2 := t1 + MemoDraws(memo, addresses, Chinese);
    OrderAddresses(MemoAnswer(memo, ticks, addresses, English),
                   MemoAnswer(memo, t1, addresses, Chinese),
                   MemoAnswer(memo, t2, addresses, AnyLanguage))
  }

  /** The ids the three lookups draw. */
  function DrawsFrom(memo: map<string, Value>, addresses: seq<Value>): nat
  {
    MemoDraws(memo, addresses, English) + MemoDraws(memo, addresses, Chinese) + MemoDraws(memo, addresses, AnyLanguage)
  }

  /** The memo after the three lookups. */
  function MemoAfter(memo: map<string, Value>, a: OrderAddresses): map<string, Value>
  {
    memo[MemoKey(English) := a.english][MemoKey(Chinese) := a.chinese][MemoKey(AnyLanguage) := a.first]
  }

  /** Once looked up, the three addresses stay: the lookups for any later
      order data give them again, draw no id and leave the memo as it is. */
  lemma LookupsIdempotent(memo: map<string, Value>, ticks: nat, addresses: seq<Value>,
                          later: seq<Value>, ticks2: nat)
    ensures var a := LookupsFrom(memo, ticks, addresses);
      && LookupsFrom(MemoAfter(memo, a), ticks2, later) == a
      && DrawsFrom(MemoAfter(memo, a), later) == 0
      && MemoAfter(MemoAfter(memo, a), a) == MemoAfter(memo, a)
  {
    var a := LookupsFrom(memo, ticks, addresses);
    LanguageKeys();
    var m := MemoAfter(memo, a);
    var en, zh, any := MemoKey(English), MemoKey(Chinese), MemoKey(AnyLanguage);
    assert en in m && m[en] == MemoAnswer(memo, ticks, addresses, English) by {
      MemoKeepsEntries(memo, ticks, addresses, English);
    }
    assert zh in m && any in m;
  }

  /** The message of `getCustomerName` when no address has a name. */
  function NoNameMessage(orderData: Value): string
  {
    " No address name found on MMS order "
    + (if Isset(orderData, "order_id") then Text(Index(orderData, "order_id")) else "without order id") + "."
  }

  /** The first of three values that sets `key`. */
  lemma FirstSetOfThree(x: Value, y: Value, z: Value, key: string)
    ensures FirstSet([x, y, z], key)
      == if Isset(x, key) then Some(Index(x, key))
         else if Isset(y, key) then Some(Index(y, key))
         else if Isset(z, key) then Some(Index(z, key))
         else None
  {
    assert [x, y, z][1..] == [y, z] && [y, z][1..] == [z] && [z][1..] == [];
    assert FirstSet([z], key) == if Isset(z, key) then Some(Index(z, key)) else None;
  }

  /** `getCustomerName`: the name of the English, else of the Chinese, else
      of the first address; an exception when none has one. */
  function CustomerNameFrom(a: OrderAddresses, orderData: Value): Outcome<Value>
  {
    match FirstSet([a.english, a.chinese, a.first], "name")
    case Some(name) => Ok(name)
    case None => Threw(Exception(NoNameMessage(orderData)))
  }

  /** The contact email of the English, else Chinese, else first address, or "". */
  function FoundEmail(a: OrderAddresses): Value
  {
    match FirstSet([a.english, a.chinese, a.first], "contact_email_1")
    case Some(email) => email
    case None => Str("")
  }

  /** `getCustomerEmail`: the found email when it is a string of six bytes
      or more; otherwise one made up from the customer's name and address
      fields, which fails when there is no name. */
  function CustomerEmailFrom(a: OrderAddresses, orderData: Value): Outcome<string>
  {
    var found := FoundEmail(a);
    if !NeedsSynthesis(found) then Ok(found.s)
    else match CustomerNameFrom(a, orderData)
      case Threw(e) => Threw(e)
      case Ok(name) => Ok(SynthesizedEmail(name, EmailFieldText(a.english, a.first, a.chinese)))
  }

  /** The three ways `getCustomerEmail` ends. */
  lemma CustomerEmailCases(a: OrderAddresses, orderData: Value, name: Outcome<Value>, synthesized: string)
    requires name == CustomerNameFrom(a, orderData)
    requires NeedsSynthesis(FoundEmail(a)) && name.Ok? ==> synthesized == SynthesizedEmail(name.value, EmailFieldText(a.english, a.first, a.chinese))
    ensures !NeedsSynthesis(FoundEmail(a)) ==> CustomerEmailFrom(a, orderData) == Ok(FoundEmail(a).s)
    ensures NeedsSynthesis(FoundEmail(a)) && name.Threw? ==> CustomerEmailFrom(a, orderData) == Threw(name.error)
    ensures NeedsSynthesis(FoundEmail(a)) && name.Ok? ==> CustomerEmailFrom(a, orderData) == Ok(synthesized)
  {
  }

  /** The customer name is a set name of one of the three addresses, and an
      exception comes exactly when none has one. */
  lemma CustomerNameMeaning(a: OrderAddresses, orderData: Value)
    ensures var r := CustomerNameFrom(a, orderData);
      && (r.Threw? <==> !Isset(a.english, "name") && !Isset(a.chinese, "name") && !Isset(a.first, "name"))
      && (r.Threw? ==> r.error == Exception(NoNameMessage(orderData)))
      && (r.Ok? ==> r.value != Null && r.value in {Index(a.english, "name"), Index(a.chinese, "name"), Index(a.first, "name")})
      && (r.Ok? && Isset(a.english, "name") ==> r.value == Index(a.english, "name"))
  {
    var xs := [a.english, a.chinese, a.first];
    FirstSetMeaning(xs, "name");
    if FirstSet(xs, "name").Some? {
      var i :| 0 <= i < |xs| && FirstSet(xs, "name").value == Index(xs[i], "name")
               && forall j :: 0 <= j < i ==> !Isset(xs[j], "name");
      assert Isset(a.english, "name") ==> i == 0;
    } else {
      assert !Isset(xs[0], "name") && !Isset(xs[1], "name") && !Isset(xs[2], "name");
    }
  }

  /** The count in force once `fields` have been seen, `added` fields in. */
  function NewMax(added: nat, maxFields: nat, fields: seq<(string, nat)>): nat
  {
    if added == 0 && |fields| > 0 then fields[0].1 else maxFields
  }

  /** How many of `count` fields are taken to reach `maxFields`. */
  function FieldsTaken(added: nat, maxFields: nat, count: nat): nat
  {
    if added >= maxFields then 0 else if maxFields - added < count then maxFields - added else count
  }

  /** `email`, `added` and `maxFields` after the inner loop over `address`:
      the count is the first field's when none were in before, and the
      fields taken are the first ones of the address, up to the count. */
  predicate AddressAppended(address: Value, keys: seq<(string, nat)>, added0: nat, max0: nat,
                            email0: string, email: string, added: nat, maxFields: nat)
  {
    var fields := AddressFields(address, keys);
    var n := FieldsTaken(added0, NewMax(added0, max0, fields), |fields|);
    && maxFields == NewMax(added0, max0, fields)
    && added == added0 + n
    && email == email0 + Joined(fields[..n])
  }

  /** The inner loop after the first `k` keys, short of the count. */
  predicate Scanned(address: Value, keys: seq<(string, nat)>, k: nat, added0: nat, max0: nat,
                    email0: string, email: string, added: nat, maxFields: nat)
    requires k <= |keys|
  {
    var seen := AddressFields(address, keys[..k]);
    && maxFields == NewMax(added0, max0, seen)
    && added == added0 + |seen|
    && (added < maxFields || (added == 0 && maxFields == 0))
    && email == email0 + Joined(seen)
  }

  /** One key of the inner loop: the loop stops with its result, or goes
      on with one more key scanned. */
  lemma ScanStep(address: Value, keys: seq<(string, nat)>, k: nat, added0: nat, max0: nat, email0: string,
                 email: string, added: nat, maxFields: nat, email': string, added': nat, maxFields': nat)
    requires k < |keys| && Scanned(address, keys, k, added0, max0, email0, email, added, maxFields)
    requires forall i :: 0 <= i < |keys| ==> keys[i].1 >= 1
    requires added0 == 0 ==> max0 == 0
    requires UsableField(address, keys[k].0) ==>
      && email' == email + StripNonWord(Text(Index(address, keys[k].0)))
      && added' == added + 1
      && maxFields' == if added == 0 then keys[k].1 else maxFields
    requires !UsableField(address, keys[k].0) ==> email' == email && added' == added && maxFields' == maxFields
    ensures UsableField(address, keys[k].0) && added' >= maxFields' ==>
      AddressAppended(address, keys, added0, max0, email0, email', added', maxFields')
    ensures !(UsableField(address, keys[k].0) && added' >= maxFields') ==>
      Scanned(address, keys, k + 1, added0, max0, email0, email', added', maxFields')
  {
    assert keys[..k + 1][..k] == keys[..k];
    if UsableField(address, keys[k].0) {
      var field := (StripNonWord(Text(Index(address, keys[k].0))), keys[k].1);
      var seen' := AddressFields(address, keys[..k]) + [field];
      assert AddressFields(address, keys[..k + 1]) == seen';
      ScanAdd(address, keys, k, added0, max0, email0, email, added, maxFields, seen', email', added', maxFields');
    }
  }

  /** One usable field from key `k` on. */
  lemma ScanAdd(address: Value, keys: seq<(string, nat)>, k: nat, added0: nat, max0: nat, email0: string,
                email: string, added: nat, maxFields: nat, seen': seq<(string, nat)>,
                email': string, added': nat, maxFields': nat)
    requires k < |keys| && Scanned(address, keys, k, added0, max0, email0, email, added, maxFields)
    requires keys[k].1 >= 1 && (added0 == 0 ==> max0 == 0)
    requires seen' == AddressFields(address, keys[..k]) + [(StripNonWord(Text(Index(address, keys[k].0))), keys[k].1)]
    requires AddressFields(address, keys[..k + 1]) == seen'
    requires email' == email + StripNonWord(Text(Index(address, keys[k].0)))
    requires added' == added + 1 && maxFields' == if added == 0 then keys[k].1 else maxFields
    ensures added' >= maxFields' ==> AddressAppended(address, keys, added0, max0, email0, email', added', maxFields')
    ensures added' < maxFields' ==> Scanned(address, keys, k + 1, added0, max0, email0, email', added', maxFields')
  {
    var seen := AddressFields(address, keys[..k]);
    assert seen'[..|seen|] == seen;
    NewMaxStep(added0, max0, seen, seen'[|seen|]);
    if added' >= maxFields' {
      assert keys == keys[..k + 1] + keys[k + 1..];
      AddressFieldsAppend(address, keys[..k + 1], keys[k + 1..]);
      TakenPrefix(added0, max0, seen', AddressFields(address, keys));
    }
  }

  /** The inner loop run over every key. */
  lemma ScanEnd(address: Value, keys: seq<(string, nat)>, added0: nat, max0: nat,
                email0: string, email: string, added: nat, maxFields: nat)
    requires Scanned(address, keys, |keys|, added0, max0, email0, email, added, maxFields)
    ensures AddressAppended(address, keys, added0, max0, email0, email, added, maxFields)
  {
    assert keys[..|keys|] == keys;
    TakenAll(added0, max0, AddressFields(address, keys));
  }

  /** The count in force after one more field. */
  lemma NewMaxStep(added0: nat, max0: nat, seen: seq<(string, nat)>, field: (string, nat))
    requires added0 == 0 ==> max0 == 0
    ensures NewMax(added0, max0, seen + [field])
      == if added0 + |seen| == 0 then field.1 else NewMax(added0, max0, seen)
  {
    if |seen| > 0 {
      assert (seen + [field])[0] == seen[0];
    }
  }

  /** A pass over `fields` that stops short of the count takes them all. */
  lemma TakenAll(added0: nat, max0: nat, fields: seq<(string, nat)>)
    requires var m := NewMax(added0, max0, fields);
      added0 + |fields| < m || (added0 + |fields| == 0 && m == 0)
    ensures FieldsTaken(added0, NewMax(added0, max0, fields), |fields|) == |fields|
    ensures fields[..|fields|] == fields
  {
  }

  /** A pass that reaches the count with the first fields `taken` takes
      exactly those. */
  lemma TakenPrefix(added0: nat, max0: nat, taken: seq<(string, nat)>, fields: seq<(string, nat)>)
    requires 0 < |taken| <= |fields| && fields[..|taken|] == taken
    requires added0 + |taken| == NewMax(added0, max0, taken)
    ensures NewMax(added0, max0, fields) == NewMax(added0, max0, taken)
    ensures FieldsTaken(added0, NewMax(added0, max0, fields), |fields|) == |taken|
  {
    assert fields[0] == taken[0];
  }

  /** The texts of two field lists, joined. */
  lemma {:induction false} JoinedAppend(xs: seq<(string, nat)>, ys: seq<(string, nat)>)
    ensures Joined(xs + ys) == Joined(xs) + Joined(ys)
    decreases |ys|
  {
    if |ys| == 0 {
      assert xs + ys == xs;
    } else {
      var init, last := ys[..|ys| - 1], ys[|ys| - 1];
      var zs := xs + ys;
      assert zs[..|zs| - 1] == xs + init && zs[|zs| - 1] == last;
      JoinedAppend(xs, init);
      assert Joined(zs) == Joined(xs + init) + last.0;
      assert Joined(ys) == Joined(init) + last.0;
    }
  }

  /** The state of the field loop before address `a`: every field of the
      addresses before it is in, and the count is that of the first field. */
  predicate LeadingState(addresses: seq<Value>, keys: seq<(string, nat)>, a: nat, added: nat, maxFields: nat)
    requires a <= |addresses|
  {
    && added == |CandidateFields(addresses[..a], keys)| <= |CandidateFields(addresses, keys)|
    && (a == 0 ==> added == 0 && maxFields == 0)
    && (a > 0 ==> var lead := AddressFields(addresses[0], keys);
        |lead| > 0 && 0 < added < maxFields && maxFields == lead[0].1)
  }

  /** Each field carries the count of its key. */
  lemma {:induction false} FieldCounts(address: Value, keys: seq<(string, nat)>)
    requires forall i :: 0 <= i < |keys| ==> keys[i].1 >= 1
    ensures forall i :: 0 <= i < |AddressFields(address, keys)| ==> AddressFields(address, keys)[i].1 >= 1
    decreases |keys|
  {
    if |keys| > 0 {
      FieldCounts(address, keys[..|keys| - 1]);
    }
  }

  /** The field loop before an address is ready for the inner loop. */
  lemma LeadingReady(addresses: seq<Value>, keys: seq<(string, nat)>, a: nat, added: nat, maxFields: nat)
    requires a < |addresses| && LeadingState(addresses, keys, a, added, maxFields)
    ensures added == 0 ==> maxFields == 0
    ensures added > 0 ==> added < maxFields
  {
  }

  /** The field loop before address `a`, email included. */
  predicate FieldLoop(addresses: seq<Value>, keys: seq<(string, nat)>, a: nat, added: nat, maxFields: nat,
                      email0: string, email: string)
    requires a <= |addresses|
  {
    && LeadingState(addresses, keys, a, added, maxFields)
    && email == email0 + Joined(CandidateFields(addresses, keys)[..added])
  }

  /** The email after one address holds the candidate fields up to the
      ones taken from it. */
  lemma LeadingEmail(addresses: seq<Value>, keys: seq<(string, nat)>, a: nat, added: nat, maxFields: nat,
                     email0: string, email: string, email': string, added': nat, maxFields': nat)
    requires a < |addresses| && FieldLoop(addresses, keys, a, added, maxFields, email0, email)
    requires AddressAppended(addresses[a], keys, added, maxFields, email, email', added', maxFields')
    ensures added' <= |CandidateFields(addresses, keys)|
    ensures email' == email0 + Joined(CandidateFields(addresses, keys)[..added'])
  {
    var fields := AddressFields(addresses[a], keys);
    EmailSplit(addresses, a, keys);
    JoinPrefix(CandidateFields(addresses, keys), CandidateFields(addresses[..a], keys), fields,
               CandidateFields(addresses[a + 1..], keys), added' - added, email0, email, email');
  }

  /** One address of the field loop: the loop stops with the leading
      fields in, or goes on to the next address. */
  lemma LeadingAdvance(addresses: seq<Value>, keys: seq<(string, nat)>, a: nat, added: nat, maxFields: nat,
                       added': nat, maxFields': nat)
    requires a < |addresses| && LeadingState(addresses, keys, a, added, maxFields)
    requires forall i :: 0 <= i < |keys| ==> keys[i].1 >= 1
    requires var fields := AddressFields(addresses[a], keys);
      maxFields' == NewMax(added, maxFields, fields) && added' == added + FieldsTaken(added, maxFields', |fields|)
    ensures added' <= |CandidateFields(addresses, keys)|
    ensures added' >= maxFields' ==> CandidateFields(addresses, keys)[..added'] == LeadingFields(addresses, keys)
    ensures added' < maxFields' ==> LeadingState(addresses, keys, a + 1, added', maxFields')
  {
    var fields := AddressFields(addresses[a], keys);
    LeadingStep(addresses, keys, a, added, maxFields, fields, maxFields', added' - added);
  }

  /** Joining a prefix that runs `n` fields into the middle part. */
  lemma JoinPrefix(all: seq<(string, nat)>, before: seq<(string, nat)>, fields: seq<(string, nat)>,
                   rest: seq<(string, nat)>, n: nat, email0: string, email: string, email': string)
    requires all == before + fields + rest && n <= |fields|
    requires email == email0 + Joined(all[..|before|])
    requires email' == email + Joined(fields[..n])
    ensures |before| + n <= |all|
    ensures email' == email0 + Joined(all[..|before| + n])
  {
    assert all[..|before|] == before;
    assert all[..|before| + n] == before + fields[..n];
    JoinedAppend(before, fields[..n]);
  }

  /** One address of the field loop: either the count is reached and the
      fields in are the leading ones, or every field is in and the loop goes on. */
  lemma LeadingStep(addresses: seq<Value>, keys: seq<(string, nat)>, a: nat, added: nat, maxFields: nat,
                    fields: seq<(string, nat)>, m: nat, n: nat)
    requires a < |addresses| && LeadingState(addresses, keys, a, added, maxFields)
    requires forall i :: 0 <= i < |keys| ==> keys[i].1 >= 1
    requires fields == AddressFields(addresses[a], keys)
    requires m == NewMax(added, maxFields, fields) && n == FieldsTaken(added, m, |fields|)
    ensures n <= |fields| && added + n <= |CandidateFields(addresses, keys)|
    ensures added + n >= m ==> CandidateFields(addresses, keys)[..added + n] == LeadingFields(addresses, keys)
    ensures added + n < m ==> LeadingState(addresses, keys, a + 1, added + n, m)
  {
    EmailSplit(addresses, a, keys);
    if a == 0 {
      LeadingFirst(addresses, keys, fields);
    }
  }

  /** The fields of the first address lead the candidates. */
  lemma LeadingFirst(addresses: seq<Value>, keys: seq<(string, nat)>, fields: seq<(string, nat)>)
    requires 0 < |addresses| && fields == AddressFields(addresses[0], keys)
    requires forall i :: 0 <= i < |keys| ==> keys[i].1 >= 1
    ensures CandidateFields(addresses[..0], keys) == []
    ensures CandidateFields(addresses[..1], keys) == fields
    ensures |fields| > 0 ==> fields[0].1 >= 1
  {
    assert addresses[..1][..0] == [];
    FieldCounts(addresses[0], keys);
  }

  /** The field loop run to the end holds the leading fields. */
  lemma LeadingEnd(addresses: seq<Value>, keys: seq<(string, nat)>, added: nat, maxFields: nat)
    requires LeadingState(addresses, keys, |addresses|, added, maxFields)
    ensures CandidateFields(addresses, keys)[..added] == LeadingFields(addresses, keys)
  {
    assert addresses[..|addresses|] == addresses;
  }

  /** The candidate fields split before and after address `a`. */
  lemma EmailSplit(addresses: seq<Value>, a: nat, keys: seq<(string, nat)>)
    requires a < |addresses|
    ensures CandidateFields(addresses, keys)
      == CandidateFields(addresses[..a], keys) + AddressFields(addresses[a], keys) + CandidateFields(addresses[a + 1..], keys)
    ensures CandidateFields(addresses[..a + 1], keys) == CandidateFields(addresses[..a], keys) + AddressFields(addresses[a], keys)
  {
    assert addresses[..a + 1][..a] == addresses[..a];
    assert addresses == addresses[..a + 1] + addresses[a + 1..];
    CandidateFieldsAppend(addresses[..a + 1], addresses[a + 1..], keys);
  }

  /** A string of six bytes or more is true. */
  lemma SixBytesTruthy(s: string)
    requires ByteLength(s) >= 6
    ensures Truthy(Str(s))
  {
    assert ByteLength("0") == 1;
  }

  /** The customer email is always usable: a string of six bytes or more,
      either the found one or a made-up one in the no-email domain. It fails
      only when it has to be made up and there is no name. */
  lemma CustomerEmailUsable(a: OrderAddresses, orderData: Value)
    ensures var r := CustomerEmailFrom(a, orderData);
      && (r.Ok? ==> !NeedsSynthesis(Str(r.value)) && Truthy(Str(r.value)))
      && (r.Threw? <==> NeedsSynthesis(FoundEmail(a)) && CustomerNameFrom(a, orderData).Threw?)
      && (r.Ok? && NeedsSynthesis(FoundEmail(a)) ==>
            && |r.value| >= |NoEmailDomain| && r.value[|r.value| - |NoEmailDomain|..] == NoEmailDomain
            && 3 <= |r.value| - |NoEmailDomain| <= MaxEmailLength)
  {
    var name := CustomerNameFrom(a, orderData);
    var found := FoundEmail(a);
    if NeedsSynthesis(found) && name.Ok? {
      var e := SynthesizedEmail(name.value, EmailFieldText(a.english, a.first, a.chinese));
      CustomerEmailCases(a, orderData, name, e);
      SynthesizedEmailShape(name.value, EmailFieldText(a.english, a.first, a.chinese));
      SixBytesTruthy(e);
    } else {
      CustomerEmailCases(a, orderData, name, "");
      if !NeedsSynthesis(found) {
        SixBytesTruthy(found.s);
      }
    }
  }

  // ---------------------------------------------------------------- address entities

  /** `'order-'.$orderData['marketplace_order_reference']`, followed by a dash
      and the kind when there is one. */
  function AddressUniqueId(orderData: Value, kind: string): string
  {
    "order-" + Text(Index(orderData, "marketplace_order_reference")) + (if |kind| > 0 then "-" + kind else "")
  }

  /** Address entities live in the global store. */
  function AddressKey(orderData: Value, kind: string): Key
  {
    Key("address", GlobalStoreId, AddressUniqueId(orderData, kind))
  }

  /** An address gets an entity unless its `address_id` is missing or
      compares equal to NULL: a false value, or the empty string. */
  predicate HasAddressId(address: Value)
  {
    var id := Index(address, "address_id");
    if id.Str? then id.s != "" else Truthy(id)
  }

  /** `HasAddressId` is the negation of `$addressData['address_id'] == NULL`. */
  lemma HasAddressIdMeaning(address: Value)
    ensures HasAddressId(address) <==> !LooseEq(Index(address, "address_id"), Null)
  {
  }

  /** What `createAddressEntity` returns: NULL for an address without id,
      the refusal when the new entity cannot be saved, and otherwise the
      entity found or made. */
  function AddressEntityFrom(records: map<Key, Record>, refused: set<Key>, address: Value, orderData: Value, kind: string)
    : Outcome<Value>
  {
    var k := AddressKey(orderData, kind);
    if !HasAddressId(address) then Ok(Null)
    else if k !in records && k in refused then Threw(Exception(Failure(k, "could not be saved")))
    else Ok(Obj(k))
  }

  /** The records after `createAddressEntity`: a new address entity with the
      attributes `attrs` of the address, and without parent, when the address
      has an id and none is stored under its key. */
  function AddressRecords(records: map<Key, Record>, refused: set<Key>, address: Value, orderData: Value, kind: string,
                          attrs: map<string, Value>): map<Key, Record>
  {
    var k := AddressKey(orderData, kind);
    if HasAddressId(address) && k !in records && k !in refused then records[k := Record(attrs, None)] else records
  }

  /** An address entity that `createAddressEntity` hands back is stored, and
      one it had to make holds the attributes of the address; nothing else
      changes, and it fails only on a key it had to create. */
  lemma AddressEntityStored(records: map<Key, Record>, refused: set<Key>, address: Value, orderData: Value, kind: string,
                            attrs: map<string, Value>)
    ensures var r := AddressEntityFrom(records, refused, address, orderData, kind);
            var after := AddressRecords(records, refused, address, orderData, kind, attrs);
            var k := AddressKey(orderData, kind);
      && (r == Ok(Null) <==> !HasAddressId(address))
      && (r.Threw? <==> HasAddressId(address) && k !in records && k in refused)
      && (r.Ok? && r.value != Null ==> r.value == Obj(k) && k in after)
      && (r.Ok? && r.value != Null && k !in records ==> after[k] == Record(attrs, None))
      && (forall j :: j in records ==> j in after && after[j] == records[j])
      && (forall j :: j in after && j !in records ==> j == k)
  {
  }

  /** The three kinds give three different entities of one order. */
  lemma AddressKindsDistinct(orderData: Value)
    ensures AddressKey(orderData, "") != AddressKey(orderData, "billing")
    ensures AddressKey(orderData, "") != AddressKey(orderData, "shipping")
    ensures AddressKey(orderData, "billing") != AddressKey(orderData, "shipping")
  {
    var base := "order-" + Text(Index(orderData, "marketplace_order_reference"));
    assert |AddressUniqueId(orderData, "")| == |base|;
    assert |AddressUniqueId(orderData, "billing")| == |base| + 8;
    assert |AddressUniqueId(orderData, "shipping")| == |base| + 9;
  }

  /** `getFirstAddressArray()` is called without its argument. */
  const NoFirstAddress := "Too few arguments to function getFirstAddressArray()"

  /** What `createAddresses` returns, and the records it leaves. */
  datatype AddressWrite = AddressWrite(result: Outcome<map<string, Value>>, records: map<Key, Record>)

  /** The billing address: the English one, or the Chinese one when there is
      no English one. */
  function BillingData(english: Value, chinese: Value): Value
  {
    if Count(english) == 0 then chinese else english
  }

  /** The shipping address: the Chinese one, or the English one when there is
      no Chinese one. */
  function ShippingData(english: Value, chinese: Value): Value
  {
    if Count(chinese) == 0 then english else chinese
  }

  /** Equal billing and shipping data: one entity of the plain kind holds
      both. */
  function SharedWrite(records: map<Key, Record>, refused: set<Key>, orderData: Value, address: Value,
                       attrs: map<string, Value>): AddressWrite
  {
    match AddressEntityFrom(records, refused, address, orderData, "")
    case Threw(e) => AddressWrite(Threw(e), records)
    case Ok(v) =>
      AddressWrite(Ok(map["billing_address" := v, "shipping_address" := v]),
                   AddressRecords(records, refused, address, orderData, "", attrs))
  }

  /** Different billing and shipping data: the billing entity is made first,
      and a failure there leaves the shipping one unmade. */
  function SeparateWrite(records: map<Key, Record>, refused: set<Key>, orderData: Value, billing: Value, shipping: Value,
                         billingAttrs: map<string, Value>, shippingAttrs: map<string, Value>): AddressWrite
  {
    match AddressEntityFrom(records, refused, billing, orderData, "billing")
    case Threw(e) => AddressWrite(Threw(e), records)
    case Ok(b) =>
      var afterBilling := AddressRecords(records, refused, billing, orderData, "billing", billingAttrs);
      match AddressEntityFrom(afterBilling, refused, shipping, orderData, "shipping")
      case Threw(e) => AddressWrite(Threw(e), afterBilling)
      case Ok(v) =>
        AddressWrite(Ok(map["billing_address" := b, "shipping_address" := v]),
                     AddressRecords(afterBilling, refused, shipping, orderData, "shipping", shippingAttrs))
  }

  /** `createAddresses` once `english` and `chinese` are looked up, where the
      billing and shipping data have the attributes `billingAttrs` and
      `shippingAttrs`: neither found is a fatal error; equal billing and
      shipping data share one entity; otherwise each gets its own. */
  function AddressesWritten(records: map<Key, Record>, refused: set<Key>, orderData: Value, english: Value, chinese: Value,
                            billingAttrs: map<string, Value>, shippingAttrs: map<string, Value>): AddressWrite
  {
    if Count(english) == 0 && Count(chinese) == 0 then AddressWrite(Threw(FatalError(NoFirstAddress)), records)
    else
      var billing, shipping := BillingData(english, chinese), ShippingData(english, chinese);
      if LooseEq(billing, shipping) then SharedWrite(records, refused, orderData, billing, billingAttrs)
      else SeparateWrite(records, refused, orderData, billing, shipping, billingAttrs, shippingAttrs)
  }

  /** The fatal error comes exactly when neither language has an address,
      and leaves the records alone; any other failure is an exception. */
  lemma AddressesFatal(records: map<Key, Record>, refused: set<Key>, orderData: Value, english: Value, chinese: Value,
                    billingAttrs: map<string, Value>, shippingAttrs: map<string, Value>)
    ensures Count(english) == 0 && Count(chinese) == 0 ==>
              AddressesWritten(records, refused, orderData, english, chinese, billingAttrs, shippingAttrs)
              == AddressWrite(Threw(FatalError(NoFirstAddress)), records)
    ensures AddressesWritten(records, refused, orderData, english, chinese, billingAttrs, shippingAttrs).result.Threw?
            && AddressesWritten(records, refused, orderData, english, chinese, billingAttrs, shippingAttrs).result.error.FatalError?
            ==> Count(english) == 0 && Count(chinese) == 0
  {
    if Count(english) > 0 || Count(chinese) > 0 {
      var billing, shipping := BillingData(english, chinese), ShippingData(english, chinese);
      if LooseEq(billing, shipping) {
        SharedWriteThrows(records, refused, orderData, billing, billingAttrs);
      } else {
        SeparateWriteThrows(records, refused, orderData, billing, shipping, billingAttrs, shippingAttrs);
      }
    }
  }

  /** Writing one shared entity fails only with an exception. */
  lemma SharedWriteThrows(records: map<Key, Record>, refused: set<Key>, orderData: Value, address: Value,
                          attrs: map<string, Value>)
    ensures SharedWrite(records, refused, orderData, address, attrs).result.Threw? ==>
              SharedWrite(records, refused, orderData, address, attrs).result.error.Exception?
  {
  }

  /** Writing two entities fails only with an exception. */
  lemma SeparateWriteThrows(records: map<Key, Record>, refused: set<Key>, orderData: Value, billing: Value, shipping: Value,
                            billingAttrs: map<string, Value>, shippingAttrs: map<string, Value>)
    ensures SeparateWrite(records, refused, orderData, billing, shipping, billingAttrs, shippingAttrs).result.Threw? ==>
              SeparateWrite(records, refused, orderData, billing, shipping, billingAttrs, shippingAttrs).result.error.Exception?
  {
  }

  /** With only one language's address, billing and shipping share one
      entity, stored under the order's plain address key. */
  lemma {:induction false} AddressesShared(records: map<Key, Record>, refused: set<Key>, orderData: Value, english: Value, chinese: Value,
                    billingAttrs: map<string, Value>, shippingAttrs: map<string, Value>)
    requires (Count(english) == 0) != (Count(chinese) == 0)
    ensures var only := if Count(english) == 0 then chinese else english;
            AddressesWritten(records, refused, orderData, english, chinese, billingAttrs, shippingAttrs)
            == SharedWrite(records, refused, orderData, only, billingAttrs)
  {
    var only := if Count(english) == 0 then chinese else english;
    assert BillingData(english, chinese) == only && ShippingData(english, chinese) == only;
    LooseEqReflexive(only);
  }

  /** A shared entity is the one answer for both addresses: the entity of
      the plain address key when the address has an id, NULL otherwise. */
  lemma SharedWriteAnswers(records: map<Key, Record>, refused: set<Key>, orderData: Value, address: Value,
                           attrs: map<string, Value>)
    ensures SharedWrite(records, refused, orderData, address, attrs).result.Ok? ==>
              SharedWrite(records, refused, orderData, address, attrs).result.value.Keys == {"billing_address", "shipping_address"}
    ensures SharedWrite(records, refused, orderData, address, attrs).result.Ok? ==>
              SharedWrite(records, refused, orderData, address, attrs).result.value["billing_address"] == SharedWrite(records, refused, orderData, address, attrs).result.value["shipping_address"]
    ensures SharedWrite(records, refused, orderData, address, attrs).result.Ok? ==>
              SharedWrite(records, refused, orderData, address, attrs).result.value["billing_address"]
              == if HasAddressId(address) then Obj(AddressKey(orderData, "")) else Null
    ensures SharedWrite(records, refused, orderData, address, attrs).records == AddressRecords(records, refused, address, orderData, "", attrs)
  {
  }

  /** Billing and shipping data that differ give two entities, the billing
      one first. */
  lemma AddressesSeparate(records: map<Key, Record>, refused: set<Key>, orderData: Value, english: Value, chinese: Value,
                    billingAttrs: map<string, Value>, shippingAttrs: map<string, Value>)
    requires Count(english) > 0 || Count(chinese) > 0
    requires !LooseEq(BillingData(english, chinese), ShippingData(english, chinese))
    ensures AddressesWritten(records, refused, orderData, english, chinese, billingAttrs, shippingAttrs).result.Ok? ==>
              AddressesWritten(records, refused, orderData, english, chinese, billingAttrs, shippingAttrs).result.value.Keys == {"billing_address", "shipping_address"}
    ensures AddressesWritten(records, refused, orderData, english, chinese, billingAttrs, shippingAttrs).result.Ok? ==>
              AddressesWritten(records, refused, orderData, english, chinese, billingAttrs, shippingAttrs).result.value["billing_address"]
              == AddressEntityFrom(records, refused, BillingData(english, chinese), orderData, "billing").value
    ensures var afterBilling := AddressRecords(records, refused, BillingData(english, chinese), orderData, "billing", billingAttrs);
            AddressesWritten(records, refused, orderData, english, chinese, billingAttrs, shippingAttrs).result.Ok? ==>
              AddressesWritten(records, refused, orderData, english, chinese, billingAttrs, shippingAttrs).result.value["shipping_address"]
              == AddressEntityFrom(afterBilling, refused, ShippingData(english, chinese), orderData, "shipping").value
  {
  }

  /** Writing the addresses keeps every stored record and adds only address
      entities of the order. */
  lemma AddressesOnlyAdd(records: map<Key, Record>, refused: set<Key>, orderData: Value, english: Value, chinese: Value,
                    billingAttrs: map<string, Value>, shippingAttrs: map<string, Value>)
    ensures forall j :: j in records ==> j in AddressesWritten(records, refused, orderData, english, chinese, billingAttrs, shippingAttrs).records && AddressesWritten(records, refused, orderData, english, chinese, billingAttrs, shippingAttrs).records[j] == records[j]
    ensures forall j :: j in AddressesWritten(records, refused, orderData, english, chinese, billingAttrs, shippingAttrs).records && j !in records ==>
              j in {AddressKey(orderData, ""), AddressKey(orderData, "billing"), AddressKey(orderData, "shipping")}
  {
    if Count(english) > 0 || Count(chinese) > 0 {
      var billing, shipping := BillingData(english, chinese), ShippingData(english, chinese);
      if LooseEq(billing, shipping) {
        SharedWriteKeeps(records, refused, orderData, billing, billingAttrs);
      } else {
        SeparateWriteKeeps(records, refused, orderData, billing, shipping, billingAttrs, shippingAttrs);
      }
    }
  }

  /** A shared entity keeps every stored record and adds at most the entity
      of the plain address key. */
  lemma SharedWriteKeeps(records: map<Key, Record>, refused: set<Key>, orderData: Value, address: Value,
                         attrs: map<string, Value>)
    ensures forall j :: j in records ==>
              j in SharedWrite(records, refused, orderData, address, attrs).records
              && SharedWrite(records, refused, orderData, address, attrs).records[j] == records[j]
    ensures forall j :: j in SharedWrite(records, refused, orderData, address, attrs).records && j !in records ==>
              j == AddressKey(orderData, "")
  {
    AddressEntityStored(records, refused, address, orderData, "", attrs);
  }

  /** Two entities keep every stored record and add at most the billing and
      the shipping entity. */
  lemma SeparateWriteKeeps(records: map<Key, Record>, refused: set<Key>, orderData: Value, billing: Value, shipping: Value,
                           billingAttrs: map<string, Value>, shippingAttrs: map<string, Value>)
    ensures forall j :: j in records ==>
              j in SeparateWrite(records, refused, orderData, billing, shipping, billingAttrs, shippingAttrs).records
              && SeparateWrite(records, refused, orderData, billing, shipping, billingAttrs, shippingAttrs).records[j] == records[j]
    ensures forall j :: j in SeparateWrite(records, refused, orderData, billing, shipping, billingAttrs, shippingAttrs).records
                        && j !in records ==>
              j == AddressKey(orderData, "billing") || j == AddressKey(orderData, "shipping")
  {
    AddressEntityStored(records, refused, billing, orderData, "billing", billingAttrs);
    AddressEntityStored(AddressRecords(records, refused, billing, orderData, "billing", billingAttrs), refused, shipping,
                        orderData, "shipping", shippingAttrs);
  }

  // ---------------------------------------------------------------- the customer

  /** The customer with a given email: customers are global. */
  function CustomerKey(email: string): Key
  {
    Key("customer", GlobalStoreId, email)
  }

  /** `createCustomerEntity($orderData)`: the customer the addresses name,
      created under the email `getCustomerEmail` gives; the exception of the
      name when there is none, the store's when the key is taken or refused. */
  function CustomerCreated(records: map<Key, Record>, refused: set<Key>, a: OrderAddresses, orderData: Value)
    : (r: Outcome<Key>)
    ensures r.Ok? ==> r.value.entityType == "customer" && r.value !in records && r.value !in refused
  {
    match CustomerNameFrom(a, orderData)
    case Threw(e) => Threw(e)
    case Ok(_) =>
      match CustomerEmailFrom(a, orderData)
      case Threw(e) => Threw(e)
      case Ok(email) =>
        var k := CustomerKey(email);
        if k in records then Threw(Exception(Failure(k, "already exists")))
        else if k in refused then Threw(Exception(Failure(k, "could not be saved")))
        else Ok(k)
  }

  /** Once there is a name, `getCustomerEmail` throws nothing, and the
      customer is created under its email unless the store holds or refuses
      that key. */
  lemma CreatedUnderEmail(records: map<Key, Record>, refused: set<Key>, a: OrderAddresses, orderData: Value,
                          email: Outcome<string>)
    requires CustomerNameFrom(a, orderData).Ok? && email == CustomerEmailFrom(a, orderData)
    ensures email.Ok?
    ensures CustomerCreated(records, refused, a, orderData)
            == (var k := CustomerKey(email.value);
                if k in records then Threw(Exception(Failure(k, "already exists")))
                else if k in refused then Threw(Exception(Failure(k, "could not be saved")))
                else Ok(k))
  {
  }

  /** The attributes of a customer named from the lookups `a`. */
  function CustomerAttrsFrom(a: OrderAddresses, orderData: Value): map<string, Value>
  {
    match CustomerNameFrom(a, orderData)
    case Ok(name) => CustomerAttrs(name)
    case Threw(_) => map[]
  }

  /** A created customer is a new global customer whose unique id is a usable
      email; creation throws only exceptions, and exactly when there is no
      name or the key is taken or refused. */
  lemma CustomerCreatedMeaning(records: map<Key, Record>, refused: set<Key>, a: OrderAddresses, orderData: Value)
    ensures var r := CustomerCreated(records, refused, a, orderData);
      r.Ok? ==> r.value.entityType == "customer" && r.value !in records && !NeedsSynthesis(Str(r.value.uniqueId))
    ensures var r := CustomerCreated(records, refused, a, orderData);
      r.Threw? ==> r.error.Exception?
    ensures var r := CustomerCreated(records, refused, a, orderData);
      r.Threw? <==> CustomerNameFrom(a, orderData).Threw?
                    || CustomerKey(CustomerEmailFrom(a, orderData).value) in records
                    || CustomerKey(CustomerEmailFrom(a, orderData).value) in refused
  {
    CustomerEmailUsable(a, orderData);
    CustomerNameMeaning(a, orderData);
  }

  /** `strlen($email) == 0`; of an array `strlen` gives NULL, which is 0 too. */
  predicate NoLength(email: Value)
  {
    email.Arr? || Text(email) == ""
  }

  /** `$data['customer_email']`, NULL when unset. */
  function DataEmail(data: map<string, Value>): Value
  {
    if "customer_email" in data then data["customer_email"] else Null
  }

  /** The order's customer email after the fix-up of `storeOrderData`: an
      email of no length is replaced by `getCustomerEmail`'s. */
  function FixedEmail(a: OrderAddresses, orderData: Value, email: Value): Outcome<Value>
  {
    if !NoLength(email) then Ok(email)
    else match CustomerEmailFrom(a, orderData)
      case Threw(e) => Threw(e)
      case Ok(s) => Ok(Str(s))
  }

  /** A failed customer creation, as `storeOrderData` rethrows it. */
  function CustomerFailure(uniqueId: string, e: Thrown): Thrown
  {
    if e.Exception? then Exception("Exception on customer creation for order " + uniqueId + ": " + e.message) else e
  }

  /** The customer `storeOrderData` assigns to an order with a (fixed) email:
      none when the email is false, the stored customer under that email,
      else a new one. */
  function AssignedCustomer(records: map<Key, Record>, refused: set<Key>, a: OrderAddresses, orderData: Value,
                            uniqueId: string, email: Value): Outcome<Option<Key>>
  {
    if !Truthy(email) then Ok(None)
    else if CustomerKey(Text(email)) in records then Ok(Some(CustomerKey(Text(email))))
    else match CustomerCreated(records, refused, a, orderData)
      case Ok(k) => Ok(Some(k))
      case Threw(e) => Threw(CustomerFailure(uniqueId, e))
  }

  /** The order attributes with the fixed email and the assigned customer. */
  function WithCustomer(data: map<string, Value>, email: Value, customer: Option<Key>): map<string, Value>
  {
    data["customer_email" := email] + (if customer.Some? then map["customer" := Obj(customer.value)] else map[])
  }

  /** The outcome of the customer part of `storeOrderData`. */
  function CustomerStep(records: map<Key, Record>, refused: set<Key>, a: OrderAddresses, orderData: Value,
                        uniqueId: string, data: map<string, Value>): Outcome<map<string, Value>>
  {
    match FixedEmail(a, orderData, DataEmail(data))
    case Threw(e) => Threw(e)
    case Ok(email) =>
      match AssignedCustomer(records, refused, a, orderData, uniqueId, email)
      case Threw(e) => Threw(e)
      case Ok(customer) => Ok(WithCustomer(data, email, customer))
  }

  /** Whether the customer part creates a customer (and so looks the addresses up). */
  predicate CustomerSought(records: map<Key, Record>, a: OrderAddresses, orderData: Value, data: map<string, Value>)
  {
    var f := FixedEmail(a, orderData, DataEmail(data));
    f.Ok? && Truthy(f.value) && CustomerKey(Text(f.value)) !in records
  }

  /** An order whose email had to be made up gets a customer under that very
      email: it is never false, the lookup and the creation use the same key,
      and so a creation fails only on a refused key or a missing name. */
  lemma MadeUpEmailCustomer(records: map<Key, Record>, refused: set<Key>, a: OrderAddresses, orderData: Value,
                            uniqueId: string, data: map<string, Value>)
    requires NoLength(DataEmail(data)) && FixedEmail(a, orderData, DataEmail(data)).Ok?
    ensures FixedEmail(a, orderData, DataEmail(data)).value.Str?
    ensures Truthy(FixedEmail(a, orderData, DataEmail(data)).value)
    ensures var email := FixedEmail(a, orderData, DataEmail(data)).value;
      CustomerSought(records, a, orderData, data) ==>
        || CustomerCreated(records, refused, a, orderData).Ok?
        || CustomerKey(Text(email)) in refused
        || CustomerNameFrom(a, orderData).Threw?
    ensures var email := FixedEmail(a, orderData, DataEmail(data)).value;
      var c := AssignedCustomer(records, refused, a, orderData, uniqueId, email);
      c.Ok? ==> c.value == Some(CustomerKey(Text(email)))
  {
    CustomerEmailUsable(a, orderData);
    CustomerNameMeaning(a, orderData);
  }

  /** The customer an order gets is stored already or is the one just
      created, and is the one under the order's email or, when none is stored
      under that, the one under the email `getCustomerEmail` gives, which may
      differ. */
  lemma AssignedCustomerStored(records: map<Key, Record>, refused: set<Key>, a: OrderAddresses, orderData: Value,
                               uniqueId: string, data: map<string, Value>)
    requires FixedEmail(a, orderData, DataEmail(data)).Ok?
    ensures var email := FixedEmail(a, orderData, DataEmail(data)).value;
      var c := AssignedCustomer(records, refused, a, orderData, uniqueId, email);
      c.Ok? && c.value.Some? ==>
        || c.value.value in records
        || (CustomerSought(records, a, orderData, data) && CustomerCreated(records, refused, a, orderData) == Ok(c.value.value))
    ensures var email := FixedEmail(a, orderData, DataEmail(data)).value;
      var c := AssignedCustomer(records, refused, a, orderData, uniqueId, email);
      c.Ok? && c.value.Some? ==>
        c.value.value == CustomerKey(Text(email)) || c.value.value == CustomerKey(CustomerEmailFrom(a, orderData).value)
    ensures var email := FixedEmail(a, orderData, DataEmail(data)).value;
      var c := AssignedCustomer(records, refused, a, orderData, uniqueId, email);
      c.Ok? && c.value.Some? && c.value.value != CustomerKey(Text(email)) ==>
        CustomerKey(Text(email)) !in records && c.value.value !in records
  {
    CustomerCreatedMeaning(records, refused, a, orderData);
  }

  // ---------------------------------------------------------------- order items

  /** An order item lives in its order's store (`getEntityStoreId($order, FALSE)`). */
  function OrderitemKey(order: Key, uniqueId: string): (k: Key)
    ensures k.entityType == "orderitem"
  {
    Key("orderitem", order.storeId, uniqueId)
  }

  /** Products and stock items are global (store 0), keyed by catalogue SKU. */
  function ProductKey(sku: string): Key
  {
    Key("product", GlobalStoreId, sku)
  }

  function StockitemKey(sku: string): Key
  {
    Key("stockitem", GlobalStoreId, sku)
  }

  /** The local id an entity is linked to, NULL when it is not linked. */
  function StoredLocal(s: Snapshot, k: Key): Value
  {
    if k in s.localIds then Str(s.localIds[k]) else Null
  }

  /** `createItems` unlinks a product or stock item linked to another local id
      than the item names. */
  predicate ConflictingLink(stored: Value, local: Value)
  {
    stored != Null && local != Null && !LooseEq(stored, local)
  }

  /** It links the entity when the item names a local id the entity is not
      (loosely) linked to. */
  predicate NeedsLink(stored: Value, local: Value)
  {
    local != Null && !LooseEq(stored, local)
  }

  /** The link table after the unlink and link `createItems` does on the
      stored entity `k` for the local id `local`; None when the entity service
      refuses them and throws. */
  function Relinked(s: Snapshot, refused: set<Key>, k: Key, local: Value): Option<Snapshot>
  {
    var stored := StoredLocal(s, k);
    if !NeedsLink(stored, local) then Some(s)
    else if k in refused then None
    else Some(LinkedIn(if ConflictingLink(stored, local) then UnlinkedIn(s, k) else s, k, Text(local)))
  }

  /** The product step, then the stock item step, of an item with catalogue
      SKU `sku`: only entities that exist are relinked, and the fallback SKU
      names none. */
  function CatalogueLinked(s: Snapshot, refused: set<Key>, sku: string, item: Value): Option<Snapshot>
  {
    if sku == FallbackSku then Some(s)
    else
      var afterProduct :=
        if ProductKey(sku) in s.records then Relinked(s, refused, ProductKey(sku), ItemField(item, "item_id")) else Some(s);
      match afterProduct
      case None => None
      case Some(s1) =>
        if StockitemKey(sku) in s1.records then Relinked(s1, refused, StockitemKey(sku), ItemField(item, "variation_id"))
        else Some(s1)
  }

  /** The `product` attribute of a new item: the product of its SKU when one
      is stored. */
  function ProductOf(s: Snapshot, sku: string): Value
  {
    if sku != FallbackSku && ProductKey(sku) in s.records then Obj(ProductKey(sku)) else Null
  }

  /** The item record created under `order`, linked to the item's local id,
      with the stock counter the order's status moves raised by its quantity. */
  function ItemCreated(s: Snapshot, refused: set<Key>, order: Key, ik: Key, data: map<string, Value>, localId: Value)
    : (r: Snapshot)
    requires order in s.records && ik.entityType == "orderitem"
    ensures r.records.Keys == s.records.Keys + {ik}
  {
    var created := CreatedIn(s, ik, data, Some(order));
    var linked := LinkedIn(created, ik, Text(localId));
    linked.(records := StockRecords(linked.records, refused, StatusOf(linked.records[order]), ik))
  }

  /** What `createItems` does with one item, created with the SKU state `st`:
      nothing when an item with its unique id exists; otherwise the product
      and stock item links, then the new item. None when the entity service
      throws. */
  function ItemWritten(s: Snapshot, refused: set<Key>, order: Key, uniqueOrderId: string, st: SkuState, item: Value)
    : (r: Option<Snapshot>)
    requires order in s.records && st.sku.Some?
    ensures r.Some? ==> s.records.Keys <= r.value.records.Keys
  {
    var sku := st.sku.value;
    var ik := OrderitemKey(order, OrderitemUniqueId(uniqueOrderId, sku, Index(item, "order_item_id")));
    if ik in s.records then Some(s)
    else match CatalogueLinked(s, refused, sku, item)
      case None => None
      case Some(s2) =>
        CatalogueLinkedKeeps(s, refused, sku, item);
        if ik in refused then None
        else Some(ItemCreated(s2, refused, order, ik, OrderitemData(item, sku, st.multiplier, ProductOf(s, sku)),
                              Index(item, "order_item_id")))
  }

  /** `createItems` over the given items, each with the SKU state the items
      before it leave. */
  function ItemsWritten(s: Snapshot, refused: set<Key>, separator: string, order: Key, uniqueOrderId: string,
                        items: seq<Value>): (r: Option<Snapshot>)
    requires |separator| > 0 && order in s.records
    ensures r.Some? ==> s.records.Keys <= r.value.records.Keys
    decreases |items|
  {
    if |items| == 0 then Some(s)
    else match ItemsWritten(s, refused, separator, order, uniqueOrderId, items[..|items| - 1])
      case None => None
      case Some(t) => ItemWritten(t, refused, order, uniqueOrderId, SkusAfter(separator, items), items[|items| - 1])
  }

  /** A new item record is stored under its order and linked to its local
      id, appended to the order's items, and then its stock counter is raised
      as `updateStockQuantities` does; no other record but a stock item
      changes, and the item is the only new record. */
  lemma ItemCreatedMeaning(s: Snapshot, refused: set<Key>, order: Key, ik: Key, data: map<string, Value>, localId: Value)
    requires order in s.records && ik.entityType == "orderitem" && ik !in s.records
    ensures var r := ItemCreated(s, refused, order, ik, data, localId);
      r.records == StockRecords(s.records[ik := Record(data, Some(order))], refused, StatusOf(s.records[order]), ik)
    ensures ItemCreated(s, refused, order, ik, data, localId).records[ik] == Record(data, Some(order))
    ensures ChildrenOf(ItemCreated(s, refused, order, ik, data, localId).children, order) == ChildrenOf(s.children, order) + [ik]
    ensures var r := ItemCreated(s, refused, order, ik, data, localId);
      ik in r.localIds && r.localIds[ik] == Text(localId)
    ensures var r := ItemCreated(s, refused, order, ik, data, localId);
      forall k :: k in s.records && k.entityType != "stockitem" ==> r.records[k] == s.records[k]
  {
    var linked := LinkedIn(CreatedIn(s, ik, data, Some(order)), ik, Text(localId));
    assert linked.records == s.records[ik := Record(data, Some(order))];
    assert linked.records[order] == s.records[order];
    StockUpdateMeaning(linked.records, refused, StatusOf(s.records[order]), ik);
  }

  /** An item whose unique id is stored already is skipped entirely. A new
      one needs its product and stock item links to succeed; it is then
      created as `ItemCreatedMeaning` states, with the attributes of its SKU,
      multiplier and the product stored before. */
  lemma ItemWrittenMeaning(s: Snapshot, refused: set<Key>, order: Key, uniqueOrderId: string, st: SkuState, item: Value)
    requires order in s.records && st.sku.Some?
    ensures var ik := OrderitemKey(order, OrderitemUniqueId(uniqueOrderId, st.sku.value, Index(item, "order_item_id")));
      ik in s.records ==> ItemWritten(s, refused, order, uniqueOrderId, st, item) == Some(s)
    ensures var ik := OrderitemKey(order, OrderitemUniqueId(uniqueOrderId, st.sku.value, Index(item, "order_item_id")));
      var r := ItemWritten(s, refused, order, uniqueOrderId, st, item);
      var data := OrderitemData(item, st.sku.value, st.multiplier, ProductOf(s, st.sku.value));
      r.Some? && ik !in s.records ==>
        && ik !in refused
        && r.value.records == StockRecords(s.records[ik := Record(data, Some(order))], refused, StatusOf(s.records[order]), ik)
        && r.value.records[ik] == Record(data, Some(order))
        && ChildrenOf(r.value.children, order) == ChildrenOf(s.children, order) + [ik]
        && ik in r.value.localIds && r.value.localIds[ik] == Text(Index(item, "order_item_id"))
    ensures var r := ItemWritten(s, refused, order, uniqueOrderId, st, item);
      r.Some? ==> forall k :: k in s.records && k.entityType != "stockitem" ==> r.value.records[k] == s.records[k]
    ensures var r := ItemWritten(s, refused, order, uniqueOrderId, st, item);
      r.Some? ==> forall k :: k in r.value.records && k !in s.records ==>
                    k.entityType == "orderitem" && k.storeId == order.storeId && r.value.records[k].parent == Some(order)
  {
    var sku := st.sku.value;
    var ik := OrderitemKey(order, OrderitemUniqueId(uniqueOrderId, sku, Index(item, "order_item_id")));
    var r := ItemWritten(s, refused, order, uniqueOrderId, st, item);
    if r.Some? && ik !in s.records {
      var s2 := CatalogueLinked(s, refused, sku, item).value;
      CatalogueLinkedKeeps(s, refused, sku, item);
      var data := OrderitemData(item, sku, st.multiplier, ProductOf(s, sku));
      ItemCreatedMeaning(s2, refused, order, ik, data, Index(item, "order_item_id"));
      StockUpdateMeaning(s.records[ik := Record(data, Some(order))], refused, StatusOf(s.records[order]), ik);
    }
  }

  /** The product and stock item steps change only links. */
  lemma CatalogueLinkedKeeps(s: Snapshot, refused: set<Key>, sku: string, item: Value)
    requires CatalogueLinked(s, refused, sku, item).Some?
    ensures CatalogueLinked(s, refused, sku, item).value.records == s.records
    ensures CatalogueLinked(s, refused, sku, item).value.children == s.children
  {
    if sku != FallbackSku {
      if ProductKey(sku) in s.records {
        RelinkedKeeps(s, refused, ProductKey(sku), ItemField(item, "item_id"));
      }
      var s1 := if ProductKey(sku) in s.records then Relinked(s, refused, ProductKey(sku), ItemField(item, "item_id")).value
                else s;
      if StockitemKey(sku) in s1.records {
        RelinkedKeeps(s1, refused, StockitemKey(sku), ItemField(item, "variation_id"));
      }
    }
  }

  /** Relinking an entity changes only links. */
  lemma RelinkedKeeps(s: Snapshot, refused: set<Key>, k: Key, local: Value)
    requires Relinked(s, refused, k, local).Some?
    ensures Relinked(s, refused, k, local).value.records == s.records
    ensures Relinked(s, refused, k, local).value.children == s.children
  {
  }

  /** Over all items, no record but stock items changes. */
  lemma {:induction false} ItemsWrittenKeeps(s: Snapshot, refused: set<Key>, separator: string, order: Key,
                                             uniqueOrderId: string, items: seq<Value>, k: Key)
    requires |separator| > 0 && order in s.records
    requires ItemsWritten(s, refused, separator, order, uniqueOrderId, items).Some?
    requires k in s.records && k.entityType != "stockitem"
    ensures ItemsWritten(s, refused, separator, order, uniqueOrderId, items).value.records[k] == s.records[k]
    decreases |items|
  {
    if |items| > 0 {
      var front := items[..|items| - 1];
      ItemsWrittenKeeps(s, refused, separator, order, uniqueOrderId, front, k);
      var t := ItemsWritten(s, refused, separator, order, uniqueOrderId, front).value;
      ItemWrittenMeaning(t, refused, order, uniqueOrderId, SkusAfter(separator, items), items[|items| - 1]);
    }
  }

  /** Over all items, the only new records are order items of the order, in
      its store. */
  lemma {:induction false} ItemsWrittenAdds(s: Snapshot, refused: set<Key>, separator: string, order: Key,
                                            uniqueOrderId: string, items: seq<Value>, k: Key)
    requires |separator| > 0 && order in s.records
    requires ItemsWritten(s, refused, separator, order, uniqueOrderId, items).Some?
    requires k in ItemsWritten(s, refused, separator, order, uniqueOrderId, items).value.records && k !in s.records
    ensures k.entityType == "orderitem" && k.storeId == order.storeId
    ensures ItemsWritten(s, refused, separator, order, uniqueOrderId, items).value.records[k].parent == Some(order)
    decreases |items|
  {
    if |items| > 0 {
      var front := items[..|items| - 1];
      var t := ItemsWritten(s, refused, separator, order, uniqueOrderId, front).value;
      ItemWrittenMeaning(t, refused, order, uniqueOrderId, SkusAfter(separator, items), items[|items| - 1]);
      if k in t.records {
        ItemsWrittenAdds(s, refused, separator, order, uniqueOrderId, front, k);
      }
    }
  }

  /** One more item: `createItems` over the first `i + 1` items is the
      `i + 1`-th item written after the first `i`. */
  lemma ItemsWrittenStep(s: Snapshot, refused: set<Key>, separator: string, order: Key,
                         uniqueOrderId: string, items: seq<Value>, i: nat)
    requires |separator| > 0 && order in s.records && i < |items|
    ensures SkusAfter(separator, items[..i + 1]) == ItemSku(separator, SkusAfter(separator, items[..i]), items[i])
    ensures ItemsWritten(s, refused, separator, order, uniqueOrderId, items[..i + 1])
            == match ItemsWritten(s, refused, separator, order, uniqueOrderId, items[..i])
               case None => None
               case Some(t) => ItemWritten(t, refused, order, uniqueOrderId, SkusAfter(separator, items[..i + 1]), items[i])
  {
    assert items[..i + 1][..i] == items[..i];
  }

  /** Once an item fails, `createItems` has thrown: no longer list of items
      succeeds. */
  lemma {:induction false} ItemsWrittenStops(s: Snapshot, refused: set<Key>, separator: string, order: Key,
                                             uniqueOrderId: string, items: seq<Value>, n: nat)
    requires |separator| > 0 && order in s.records && n <= |items|
    requires ItemsWritten(s, refused, separator, order, uniqueOrderId, items[..n]).None?
    ensures ItemsWritten(s, refused, separator, order, uniqueOrderId, items).None?
    decreases |items| - n
  {
    if n < |items| {
      assert items[..n + 1][..n] == items[..n];
      ItemsWrittenStops(s, refused, separator, order, uniqueOrderId, items, n + 1);
    } else {
      assert items[..n] == items;
    }
  }

  // ---------------------------------------------------------------- storing an order

  /** `getStoreIdFromMarketPlaceId($orderData['marketplace_id'])`. */
  function OrderStoreId(storePrefix: string, orderData: Value): string
  {
    StoreIdFromMarketplaceId(storePrefix, Index(orderData, "marketplace_id"))
  }

  /** `$orderData['order_id']`: the order's local id on the node. */
  function LocalOrderId(orderData: Value): string
  {
    Text(Index(orderData, "order_id"))
  }

  /** The order entity under the order data's unique id. */
  function OrderKey(storePrefix: string, orderData: Value): (k: Key)
    ensures k.entityType == "order"
  {
    Key("order", OrderStoreId(storePrefix, orderData), UniqueIdFromOrderData(orderData))
  }

  /** The PHP `TypeError` of passing order details that are not an array to
      `isOrderToBeRetrieved(array $orderData, ...)`. */
  const DetailsNotAnArray: string := "Argument 1 passed to isOrderToBeRetrieved() must be of the type array"

  /** The message `retrieveEntities` throws when the cursor result lacks its
      order ids. */
  const MissingOrderIds: string := "OrderIdsSinceResult did not contain \"localOrderIds\" key."

  /** The cursor a successful cycle stores: the new since id when the
      result sets one, otherwise the old cursor. */
  function NextSinceId(sinceId: Value, results: Value): (r: Value)
    ensures Isset(results, "newSinceId") ==> r == Index(results, "newSinceId") && r != Null
    ensures !Isset(results, "newSinceId") ==> r == sinceId
  {
    if Isset(results, "newSinceId") then Index(results, "newSinceId") else sinceId
  }

  /** How a poll cycle with a client ends, given the cursor result it got:
      a throw of the call is rethrown and a result without order ids throws,
      both before anything is written; a completed cycle stores the next
      cursor and returns 2, the number of keys of the result; a cycle with no
      order ids completes without writing anything. */
  predicate CycleEnded(results: Outcome<Value>, cursor0: Value, cursor: Value, s0: Snapshot, s: Snapshot, r: Outcome<nat>)
  {
    && (results.Threw? ==> r == Threw(results.error) && s == s0)
    && (results.Ok? && !Isset(results.value, "localOrderIds") ==> r == Threw(Exception(MissingOrderIds)) && s == s0)
    && (r.Ok? ==> results.Ok? && Isset(results.value, "localOrderIds")
                  && cursor == NextSinceId(cursor0, results.value) && r.value == 2)
    && (results.Ok? && Isset(results.value, "localOrderIds") && Elements(Index(results.value, "localOrderIds")) == [] ==>
          r.Ok? && s == s0)
  }

  /** The order a link table gives the local id in that store, as
      `loadEntityLocal` finds it. */
  function LocalOrder(byLocal: map<(string, string), Key>, storeId: string, localId: string): (r: Option<Key>)
    ensures r.Some? <==> ("order", localId) in byLocal && byLocal[("order", localId)].storeId == storeId
    ensures r.Some? ==> r.value == byLocal[("order", localId)]
  {
    if ("order", localId) in byLocal && byLocal[("order", localId)].storeId == storeId
    then Some(byLocal[("order", localId)]) else None
  }

  /** The attribute array `storeOrderData` assembles from an order data
      array, before the customer part. */
  function AssembledOrder(orderData: Value, paymentData: Value -> Value, placedAt: Value -> Value): map<string, Value>
  {
    OrderAttributes(orderData, ItemTotals(ItemsOf(orderData)), OrderRate(orderData), FirstShipping(ItemsOf(orderData)),
                    paymentData(Num(CodeTotal(ItemsOf(orderData), "payment", false))), placedAt(Index(orderData, "created_at")))
  }

  /** An order's attributes hold every entry of `data`, except a
      `grand_total` the order keeps because it already had one. */
  predicate HoldsData(attrs: map<string, Value>, data: map<string, Value>, keptTotal: bool)
  {
    forall c :: c in data && (c != "grand_total" || !keptTotal) ==> c in attrs && attrs[c] == data[c]
  }

  /** What the customer part keeps of the attributes is held by the order
      that holds the customer part's result. */
  lemma HoldsBeyondCustomer(attrs: map<string, Value>, data: map<string, Value>, withCustomer: map<string, Value>,
                            keptTotal: bool)
    requires HoldsData(attrs, withCustomer, keptTotal)
    requires forall c :: c in data && c != "customer_email" && c != "customer" ==> c in withCustomer && withCustomer[c] == data[c]
    ensures HoldsData(attrs, data - {"customer_email", "customer"}, keptTotal)
  {
  }

  /** What storing an order's record promises, from the store `s0` to the
      store `s`. The order `k` stands for the order under the unique id; the
      target is the order linked to `localId` in `k`'s store when there is
      one, else `k`. On success the target is linked to `localId`, has the
      status, and holds `data` (but for a `grand_total` it already had).
      Records other than the target and stock items are kept; records are
      added only by a creation that succeeds, or of the `added` types; a
      failed creation links nothing; an existing grand total is kept; stock
      items are kept unless the target's status moves. */
  ghost predicate OrderSettled(s0: Snapshot, s: Snapshot, k: Key, localId: string, status: Value,
                               data: map<string, Value>, failed: bool, added: set<string>)
  {
    var found := LocalOrder(s0.byLocal, k.storeId, localId);
    var target := if found.Some? then found.value else k;
    && (found.Some? ==> found.value in s0.records && found.value.entityType == "order")
    && (!failed ==>
          && LocalOrder(s.byLocal, k.storeId, localId) == Some(target)
          && target in s.records && StatusOf(s.records[target]) == status
          && HoldsData(s.records[target].attrs, data,
                       found.Some? && Attr(s0.records[found.value], "grand_total", Null) != Null))
    && (forall j :: j in s0.records && j.entityType != "stockitem" && j != target ==>
          j in s.records && s.records[j] == s0.records[j])
    && (found.Some? || k in s0.records || failed ==>
          forall j :: j in s.records && j !in s0.records ==> j.entityType in added)
    && (found.None? && k !in s0.records && failed ==>
          s.localIds == s0.localIds && s.byLocal == s0.byLocal && s.children == s0.children)
    && (found.Some? && Attr(s0.records[found.value], "grand_total", Null) != Null ==>
          found.value in s.records
          && Attr(s.records[found.value], "grand_total", Null) == Attr(s0.records[found.value], "grand_total", Null))
    && (target in s0.records && !StatusMoved(StatusOf(s0.records[target]), status) ==>
          forall j :: j in s0.records && j.entityType == "stockitem" ==> j in s.records && s.records[j] == s0.records[j])
  }

  /** A customer part that only added customers and linked nothing, before
      the record was stored, leaves the promise in place over the whole
      call. */
  lemma SettledAfterCustomer(s0: Snapshot, s1: Snapshot, s: Snapshot, k: Key, localId: string, status: Value,
                             data: map<string, Value>, failed: bool)
    requires k.entityType == "order"
    requires OnlyAdded(s0.records, s1.records, {"customer"})
    requires s1.localIds == s0.localIds && s1.byLocal == s0.byLocal && s1.children == s0.children
    requires OrderSettled(s1, s, k, localId, status, data, failed, {})
    ensures OrderSettled(s0, s, k, localId, status, data, failed, {"customer"})
  {
    var found := LocalOrder(s0.byLocal, k.storeId, localId);
    if found.Some? {
      assert found.value in s1.records && found.value.entityType == "order";
      assert found.value in s0.records;
    }
  }

  /** On success, the order stored (the one linked to `localId` before, or
      else `k`) holds every attribute of `data`, except a `grand_total` the
      linked order already had. */
  ghost predicate OrderHolds(s0: Snapshot, s: Snapshot, k: Key, localId: string, data: map<string, Value>, failed: bool)
  {
    var found := LocalOrder(s0.byLocal, k.storeId, localId);
    var target := if found.Some? then found.value else k;
    !failed ==>
      target in s.records
      && HoldsData(s.records[target].attrs, data,
                   found.Some? && found.value in s0.records && Attr(s0.records[found.value], "grand_total", Null) != Null)
  }

  /** The customer part, then the record: over the whole call the promise
      holds, and the order holds every attribute gathered before the
      customer part but the email and the customer. */
  lemma HoldsAfterCustomer(s0: Snapshot, s1: Snapshot, s: Snapshot, k: Key, localId: string, status: Value,
                           data: map<string, Value>, withCustomer: map<string, Value>, failed: bool)
    requires k.entityType == "order"
    requires OnlyAdded(s0.records, s1.records, {"customer"})
    requires s1.localIds == s0.localIds && s1.byLocal == s0.byLocal && s1.children == s0.children
    requires OrderSettled(s1, s, k, localId, status, withCustomer, failed, {})
    requires forall c :: c in data && c != "customer_email" && c != "customer" ==> c in withCustomer && withCustomer[c] == data[c]
    ensures OrderSettled(s0, s, k, localId, status, withCustomer, failed, {"customer"})
    ensures OrderHolds(s0, s, k, localId, data - {"customer_email", "customer"}, failed)
  {
    SettledAfterCustomer(s0, s1, s, k, localId, status, withCustomer, failed);
    if !failed {
      var found := LocalOrder(s0.byLocal, k.storeId, localId);
      var target := if found.Some? then found.value else k;
      HoldsBeyondCustomer(s.records[target].attrs, data, withCustomer,
                          found.Some? && found.value in s0.records && Attr(s0.records[found.value], "grand_total", Null) != Null);
    }
  }

  /** A customer part that fails after adding only customers keeps the
      promise of a failed store. */
  lemma SettledOnCustomerFailure(s0: Snapshot, s: Snapshot, k: Key, localId: string, status: Value,
                                 data: map<string, Value>)
    requires ValidState(s0)
    requires OnlyAdded(s0.records, s.records, {"customer"})
    requires s.localIds == s0.localIds && s.byLocal == s0.byLocal && s.children == s0.children
    ensures OrderSettled(s0, s, k, localId, status, data, true, {"customer"})
  {
    var found := LocalOrder(s0.byLocal, k.storeId, localId);
    if found.Some? {
      assert ("order", localId) in s0.byLocal;
    }
  }

  /** The links of entities of type `t` are as they were. */
  predicate LinksKept(t: string, before: map<(string, string), Key>, after: map<(string, string), Key>)
  {
    forall e :: e in before && e.0 == t ==> e in after && after[e] == before[e]
  }

  /** Linking or unlinking an entity of another type leaves the links of
      type `t` alone. */
  lemma RelinkKeepsLinks(s: Snapshot, k: Key, localId: string, t: string)
    requires k.entityType != t
    ensures LinksKept(t, s.byLocal, UnlinkedIn(s, k).byLocal)
    ensures LinksKept(t, s.byLocal, LinkedIn(s, k, localId).byLocal)
  {
  }

  /** The product and stock item steps leave the links of orders alone. */
  lemma CatalogueKeepsOrderLinks(s: Snapshot, refused: set<Key>, sku: string, item: Value)
    requires CatalogueLinked(s, refused, sku, item).Some?
    ensures LinksKept("order", s.byLocal, CatalogueLinked(s, refused, sku, item).value.byLocal)
  {
    if sku != FallbackSku {
      var pk, sk := ProductKey(sku), StockitemKey(sku);
      var s1 := if pk in s.records then Relinked(s, refused, pk, ItemField(item, "item_id")).value else s;
      if pk in s.records {
        var local := ItemField(item, "item_id");
        if NeedsLink(StoredLocal(s, pk), local) {
          var u := if ConflictingLink(StoredLocal(s, pk), local) then UnlinkedIn(s, pk) else s;
          RelinkKeepsLinks(s, pk, Text(local), "order");
          RelinkKeepsLinks(u, pk, Text(local), "order");
        }
      }
      assert LinksKept("order", s.byLocal, s1.byLocal);
      if sk in s1.records {
        var local := ItemField(item, "variation_id");
        if NeedsLink(StoredLocal(s1, sk), local) {
          var u := if ConflictingLink(StoredLocal(s1, sk), local) then UnlinkedIn(s1, sk) else s1;
          RelinkKeepsLinks(s1, sk, Text(local), "order");
          RelinkKeepsLinks(u, sk, Text(local), "order");
        }
      }
    }
  }

  /** The product and stock item links and the new item's link leave the
      links of orders alone. */
  lemma ItemWrittenKeepsOrderLinks(s: Snapshot, refused: set<Key>, order: Key, uniqueOrderId: string, st: SkuState,
                                   item: Value)
    requires order in s.records && st.sku.Some?
    requires ItemWritten(s, refused, order, uniqueOrderId, st, item).Some?
    ensures LinksKept("order", s.byLocal, ItemWritten(s, refused, order, uniqueOrderId, st, item).value.byLocal)
  {
    var sku := st.sku.value;
    var ik := OrderitemKey(order, OrderitemUniqueId(uniqueOrderId, sku, Index(item, "order_item_id")));
    if ik !in s.records {
      var s2 := CatalogueLinked(s, refused, sku, item).value;
      CatalogueKeepsOrderLinks(s, refused, sku, item);
      CatalogueLinkedKeeps(s, refused, sku, item);
      var data := OrderitemData(item, sku, st.multiplier, ProductOf(s, sku));
      RelinkKeepsLinks(CreatedIn(s2, ik, data, Some(order)), ik, Text(Index(item, "order_item_id")), "order");
    }
  }

  /** Over all items, the links of orders are as they were. */
  lemma {:induction false} ItemsWrittenKeepOrderLinks(s: Snapshot, refused: set<Key>, separator: string, order: Key,
                                                      uniqueOrderId: string, items: seq<Value>)
    requires |separator| > 0 && order in s.records
    requires ItemsWritten(s, refused, separator, order, uniqueOrderId, items).Some?
    ensures LinksKept("order", s.byLocal, ItemsWritten(s, refused, separator, order, uniqueOrderId, items).value.byLocal)
    decreases |items|
  {
    if |items| > 0 {
      var front := items[..|items| - 1];
      ItemsWrittenKeepOrderLinks(s, refused, separator, order, uniqueOrderId, front);
      var t := ItemsWritten(s, refused, separator, order, uniqueOrderId, front).value;
      ItemWrittenKeepsOrderLinks(t, refused, order, uniqueOrderId, SkusAfter(separator, items), items[|items| - 1]);
    }
  }
  /** What a completed `createItems` leaves: the order links, every record
      but the stock items, and new records that are all items of the order. */
  lemma ItemsWrittenSummary(s: Snapshot, refused: set<Key>, separator: string, order: Key,
                            uniqueOrderId: string, items: seq<Value>)
    requires |separator| > 0 && order in s.records
    requires ItemsWritten(s, refused, separator, order, uniqueOrderId, items).Some?
    ensures var t := ItemsWritten(s, refused, separator, order, uniqueOrderId, items).value;
      && LinksKept("order", s.byLocal, t.byLocal)
      && (forall j :: j in s.records && j.entityType != "stockitem" ==> j in t.records && t.records[j] == s.records[j])
      && (forall j :: j in t.records && j !in s.records ==> j.entityType == "orderitem" && t.records[j].parent == Some(order))
  {
    var t := ItemsWritten(s, refused, separator, order, uniqueOrderId, items).value;
    ItemsWrittenKeepOrderLinks(s, refused, separator, order, uniqueOrderId, items);
    forall j | j in s.records && j.entityType != "stockitem"
      ensures j in t.records && t.records[j] == s.records[j]
    {
      ItemsWrittenKeeps(s, refused, separator, order, uniqueOrderId, items, j);
    }
    forall j | j in t.records && j !in s.records
      ensures j.entityType == "orderitem" && t.records[j].parent == Some(order)
    {
      ItemsWrittenAdds(s, refused, separator, order, uniqueOrderId, items, j);
    }
  }


  /** The status change that moves stock: into a shippable status from one
      that is not, or into "closed" from another status. */
  predicate StatusMoved(before: Value, after: Value)
  {
    (IsShippableOrderStatus(after) && !IsShippableOrderStatus(before))
    || (HasOrderStatusClosed(after) && !HasOrderStatusClosed(before))
  }

  /** A move always names the counter of the new status; entering
      "shipped" or "completed" moves nothing. */
  lemma StatusMovedMeaning(before: Value, after: Value)
    ensures StatusMoved(before, after) ==> StockAttribute(after).Some?
    ensures !StatusMoved(before, Str(Shipped)) && !StatusMoved(before, Str(Completed))
  {
    StatusClasses(Shipped);
    StatusClasses(Completed);
  }

  /** Between string statuses a move is exactly entering the shippable list
      or entering "closed". */
  lemma StatusMovedBetweenNames(before: string, after: string)
    ensures StatusMoved(Str(before), Str(after)) <==>
              (after in ShippableStatuses && before !in ShippableStatuses) || (after == Closed && before != Closed)
  {
    StatusClasses(before);
    StatusClasses(after);
  }

  /** The records after `updateEntity` wrote `data` over the order `k` and,
      when the status moved, `updateStockQuantities` ran over its items with
      the order as updated. */
  function OrderUpdated(records: map<Key, Record>, refused: set<Key>, k: Key, newStatus: Value,
                        data: map<string, Value>, items: seq<Key>): map<Key, Record>
    requires k in records && forall i :: 0 <= i < |items| ==> items[i] in records
  {
    var updated := records[k := Record(records[k].attrs + data, records[k].parent)];
    if StatusMoved(StatusOf(records[k]), newStatus) then StockFold(updated, refused, StatusOf(updated[k]), items)
    else updated
  }

  /** The quantities sent to a stock item depend only on the item records. */
  lemma {:induction false} QuantityToAgrees(r1: map<Key, Record>, r2: map<Key, Record>, s: Key, items: seq<Key>)
    requires forall i :: 0 <= i < |items| ==> items[i] in r1 && items[i] in r2 && r1[items[i]] == r2[items[i]]
    ensures QuantityTo(r1, s, items) == QuantityTo(r2, s, items)
    decreases |items|
  {
    if |items| > 0 {
      QuantityToAgrees(r1, r2, s, items[..|items| - 1]);
    }
  }

  /** The update writes the data over the order, which takes the new status,
      and changes no other record but stock items. Stock moves only when the
      status moved: then every stock item that takes updates gains, on the
      counter of the new status, the quantities of the order's items with its
      SKU; otherwise no stock item changes. */
  lemma OrderUpdatedMeaning(records: map<Key, Record>, refused: set<Key>, k: Key, newStatus: Value,
                            data: map<string, Value>, items: seq<Key>)
    requires k in records && k.entityType == "order"
    requires forall i :: 0 <= i < |items| ==> items[i] in records && items[i].entityType == "orderitem"
    requires "status" in data && data["status"] == newStatus
    ensures var r := OrderUpdated(records, refused, k, newStatus, data, items);
      r.Keys == records.Keys && r[k] == Record(records[k].attrs + data, records[k].parent)
    ensures StatusOf(OrderUpdated(records, refused, k, newStatus, data, items)[k]) == newStatus
    ensures var r := OrderUpdated(records, refused, k, newStatus, data, items);
      forall j :: j in records && j != k && j.entityType != "stockitem" ==> r[j] == records[j]
    ensures var r := OrderUpdated(records, refused, k, newStatus, data, items);
      !StatusMoved(StatusOf(records[k]), newStatus) ==> forall j :: j in records ==> j == k || r[j] == records[j]
    ensures var r := OrderUpdated(records, refused, k, newStatus, data, items);
      StatusMoved(StatusOf(records[k]), newStatus) ==>
        StockAttribute(newStatus).Some? &&
        forall s :: s in records && s.entityType == "stockitem" && s !in refused ==>
          Number(Attr(r[s], StockAttribute(newStatus).value, Int(0)))
            == Number(Attr(records[s], StockAttribute(newStatus).value, Int(0))) + QuantityTo(records, s, items)
  {
    var updated := records[k := Record(records[k].attrs + data, records[k].parent)];
    assert StatusOf(updated[k]) == newStatus;
    forall j | j in updated && j.entityType != "stockitem"
      ensures StockFold(updated, refused, newStatus, items)[j] == updated[j]
    {
      StockFoldKeeps(updated, refused, newStatus, items, j);
    }
    if StatusMoved(StatusOf(records[k]), newStatus) {
      StatusMovedMeaning(StatusOf(records[k]), newStatus);
      forall s | s in records && s.entityType == "stockitem" && s !in refused
        ensures Number(Attr(StockFold(updated, refused, newStatus, items)[s], StockAttribute(newStatus).value, Int(0)))
                == Number(Attr(records[s], StockAttribute(newStatus).value, Int(0))) + QuantityTo(records, s, items)
      {
        StockFoldAdds(updated, refused, newStatus, items, s);
        QuantityToAgrees(updated, records, s, items);
      }
    }
  }

  /** Every record of `before` is in `after` as it was, and every new one has
      one of the given types. */
  ghost predicate OnlyAdded(before: map<Key, Record>, after: map<Key, Record>, types: set<string>)
  {
    (forall j :: j in before ==> j in after && after[j] == before[j])
    && (forall j :: j in after && j !in before ==> j.entityType in types)
  }

  /** Storing one record of a listed type, or nothing, only adds. */
  lemma OnlyAddedOne(before: map<Key, Record>, after: map<Key, Record>, k: Key, r: Record, types: set<string>)
    requires after == before || (k !in before && k.entityType in types && after == before[k := r])
    ensures OnlyAdded(before, after, types)
  {
  }

  /** The customer part keeps every attribute of the order but the email and
      the customer. */
  lemma CustomerStepKeeps(records: map<Key, Record>, refused: set<Key>, a: OrderAddresses, orderData: Value,
                          uniqueId: string, data: map<string, Value>)
    requires CustomerStep(records, refused, a, orderData, uniqueId, data).Ok?
    ensures forall c :: c in data && c != "customer_email" && c != "customer" ==>
      c in CustomerStep(records, refused, a, orderData, uniqueId, data).value
      && CustomerStep(records, refused, a, orderData, uniqueId, data).value[c] == data[c]
  {
  }

  class Gateway {
    /** The entity service. */
    const store: Store
    /** `MMS_STORE_PREFIX`, defined outside the gateway. */
    const storePrefix: string
    /** `MMS_BUNDLE_SKU_SEPARATOR`, defined outside the gateway. */
    const separator: string
    /** `convertPaymentData('tmalipay', $total)` of the entity service. */
    const paymentData: Value -> Value
    /** `date('Y-m-d H:i:s', strtotime($createdAt))`. */
    const placedAt: Value -> Value
    var ticks: nat
    /** `$this->addressArrayByLanguageCode`. */
    var memo: map<string, Value>
    /** The since id of the last retrieval. */
    var cursor: Value

    ghost predicate Valid()
      reads this, store
    {
      store.Valid() && |separator| > 0
    }

    constructor (store: Store, storePrefix: string, separator: string,
                 paymentData: Value -> Value, placedAt: Value -> Value, cursor: Value)
      requires store.Valid() && |separator| > 0
      ensures Valid() && memo == map[] && ticks == 0 && this.cursor == cursor
      ensures this.store == store && this.storePrefix == storePrefix && this.separator == separator
      ensures this.paymentData == paymentData && this.placedAt == placedAt
    {
      this.store := store;
      this.storePrefix := storePrefix;
      this.separator := separator;
      this.paymentData := paymentData;
      this.placedAt := placedAt;
      this.cursor := cursor;
      ticks := 0;
      memo := map[];
    }

    /** The loop of `getAddressArrayByLanguageCode`: where it breaks, or
        `|addresses|` when it runs through. */
    static method FirstTaken(addresses: seq<Value>, code: Option<string>) returns (i: nat)
      ensures i <= |addresses| && FirstMatch(addresses, code) == if i < |addresses| then Some(i) else None
    {
      ghost var flags := TakenFlags(addresses, code);
      i := 0;
      while i < |addresses| && !Matches(addresses[i], code)
        invariant i <= |addresses|
        invariant FirstMatch(addresses, code) == FirstFlag(flags, i)
      {
        assert !flags[i];
        i := i + 1;
      }
      assert i < |addresses| ==> flags[i];
    }

    /** `getAddressArrayByLanguageCode($orderData, $code)`. */
    method AddressByLanguage(orderData: Value, code: Option<string>) returns (address: Value)
      modifies this
      ensures address == MemoAnswer(old(memo), old(ticks), AddressesOf(orderData), code)
      ensures memo == old(memo)[MemoKey(code) := address]
      ensures ticks == old(ticks) + MemoDraws(old(memo), AddressesOf(orderData), code)
      ensures cursor == old(cursor)
    {
      var key := MemoKey(code);
      if key !in memo {
        var stored := Arr([]);
        var addresses := AddressesOf(orderData);
        var i := FirstTaken(addresses, code);
        if i < |addresses| {
          stored := Set(addresses[i], "address_id", Str(UniqueId(ticks)));
          ticks := ticks + 1;
        }
        memo := memo[key := stored];
      }
      address := memo[key];
    }

    /** `updateStockQuantities($order, $orderitem)`. */
    method UpdateStockQuantities(order: Key, item: Key) returns (success: Value)
      requires Valid() && order in store.records && item in store.records
      modifies store
      ensures Valid()
      ensures success == StockSuccess(old(store.records), store.refused, StatusOf(old(store.records)[order]), item)
      ensures store.records == StockRecords(old(store.records), store.refused, StatusOf(old(store.records)[order]), item)
      ensures store.localIds == old(store.localIds) && store.byLocal == old(store.byLocal)
      ensures store.children == old(store.children)
    {
      var code := StockAttribute(StatusOf(store.records[order]));
      if code.None? {
        return Null;
      }
      var stockKey := StockKey(store.records[item]);
      var stock := store.Load(stockKey);
      if stock.None? {
        return Bool(false);
      }
      var updated := store.Update(stockKey, map[code.value := Raised(stock.value, code.value, store.records[item])]);
      success := Bool(updated.Ok?);
    }

    /** The unlink and link `createItems` does on a stored product or stock
        item `k` for the local id `local` the order item names. */
    method Relink(k: Key, local: Value) returns (error: Option<Thrown>)
      requires Valid() && k in store.records
      modifies store
      ensures Valid()
      ensures error.None? <==> Relinked(old(store.Save()), store.refused, k, local).Some?
      ensures error.None? ==> store.Save() == Relinked(old(store.Save()), store.refused, k, local).value
      ensures error.Some? ==> error.value.Exception?
      ensures store.records == old(store.records) && store.children == old(store.children)
    {
      var stored := store.LocalIdValue(k);
      if ConflictingLink(stored, local) {
        var unlinked := store.Unlink(k);
        if unlinked.Threw? {
          return Some(unlinked.error);
        }
      }
      if NeedsLink(stored, local) {
        var linked := store.Link(k, Text(local));
        if linked.Threw? {
          return Some(linked.error);
        }
      }
      error := None;
    }

    /** The product, then the stock item, of the catalogue SKU `sku`. */
    method LinkCatalogue(sku: string, item: Value) returns (error: Option<Thrown>)
      requires Valid()
      modifies store
      ensures Valid()
      ensures error.None? <==> CatalogueLinked(old(store.Save()), store.refused, sku, item).Some?
      ensures error.None? ==> store.Save() == CatalogueLinked(old(store.Save()), store.refused, sku, item).value
      ensures error.Some? ==> error.value.Exception?
      ensures store.records == old(store.records) && store.children == old(store.children)
    {
      if sku == FallbackSku {
        return None;
      }
      ghost var s0 := store.Save();
      error := None;
      var product := store.Load(ProductKey(sku));
      if product.Some? {
        error := Relink(ProductKey(sku), ItemField(item, "item_id"));
        if error.Some? {
          return;
        }
      }
      assert Some(store.Save()) == if ProductKey(sku) in s0.records
                                   then Relinked(s0, store.refused, ProductKey(sku), ItemField(item, "item_id"))
                                   else Some(s0);
      var stockitem := store.Load(StockitemKey(sku));
      if stockitem.Some? {
        error := Relink(StockitemKey(sku), ItemField(item, "variation_id"));
      }
    }

    /** The creation, link and stock update of a new order item `ik` with the
        attributes `data`. */
    method NewItem(order: Key, ik: Key, data: map<string, Value>, localId: Value) returns (error: Option<Thrown>)
      requires Valid() && order in store.records && ik.entityType == "orderitem" && ik !in store.records
      modifies store
      ensures Valid()
      ensures error.None? <==> ik !in store.refused
      ensures error.None? ==> store.Save() == ItemCreated(old(store.Save()), store.refused, order, ik, data, localId)
      ensures error.Some? ==> error.value.Exception?
    {
      var created := store.Create(ik, data, Some(order));
      if created.Threw? {
        return Some(Exception("Exception on orderitem (" + ik.uniqueId + ") creation: " + created.error.message));
      }
      // The item was just stored and its key is not refused, so the link
      // succeeds.
      var _ := store.Link(ik, Text(localId));
      var _ := UpdateStockQuantities(order, ik);
      error := None;
    }

    /** One pass of the `createItems` loop, for an item created with the SKU
        state `st`. */
    method CreateItem(order: Key, uniqueOrderId: string, st: SkuState, item: Value) returns (error: Option<Thrown>)
      requires Valid() && order in store.records && st.sku.Some?
      modifies store
      ensures Valid()
      ensures error.None? <==> ItemWritten(old(store.Save()), store.refused, order, uniqueOrderId, st, item).Some?
      ensures error.None? ==> store.Save() == ItemWritten(old(store.Save()), store.refused, order, uniqueOrderId, st, item).value
      ensures error.Some? ==> error.value.Exception?
    {
      var sku := st.sku.value;
      var localId := Index(item, "order_item_id");
      var ik := OrderitemKey(order, OrderitemUniqueId(uniqueOrderId, sku, localId));
      var existing := store.Load(ik);
      if existing.Some? {
        return None;
      }
      var product := ProductOf(store.Save(), sku);
      error := LinkCatalogue(sku, item);
      if error.Some? {
        return;
      }
      error := NewItem(order, ik, OrderitemData(item, sku, st.multiplier, product), localId);
    }

    /** `createItems($orderData, $order)`. */
    method CreateItems(orderData: Value, order: Key) returns (error: Option<Thrown>)
      requires Valid() && order in store.records
      modifies store
      ensures Valid()
      ensures error.None? <==> ItemsWritten(old(store.Save()), store.refused, separator, order,
                                            UniqueIdFromOrderData(orderData), ItemsOf(orderData)).Some?
      ensures error.None? ==> store.Save() == ItemsWritten(old(store.Save()), store.refused, separator, order,
                                                           UniqueIdFromOrderData(orderData), ItemsOf(orderData)).value
      ensures error.Some? ==> error.value.Exception?
      ensures error.None? ==> LinksKept("order", old(store.byLocal), store.byLocal)
      ensures error.None? ==> forall j :: j in old(store.records) && j.entityType != "stockitem" ==>
        j in store.records && store.records[j] == old(store.records)[j]
      ensures error.None? ==> forall j :: j in store.records && j !in old(store.records) ==>
        j.entityType == "orderitem" && store.records[j].parent == Some(order)
    {
      ghost var s0 := store.Save();
      error := WriteItems(order, UniqueIdFromOrderData(orderData), ItemsOf(orderData));
      if error.None? {
        ItemsWrittenSummary(s0, store.refused, separator, order, UniqueIdFromOrderData(orderData), ItemsOf(orderData));
      }
    }

    /** The `foreach` of `createItems`: each item with the SKU state the
        items before it leave, until the entity service throws. */
    method WriteItems(order: Key, uniqueOrderId: string, items: seq<Value>) returns (error: Option<Thrown>)
      requires Valid() && order in store.records
      modifies store
      ensures Valid()
      ensures error.None? <==> ItemsWritten(old(store.Save()), store.refused, separator, order, uniqueOrderId, items).Some?
      ensures error.None? ==> store.Save() == ItemsWritten(old(store.Save()), store.refused, separator, order, uniqueOrderId, items).value
      ensures error.Some? ==> error.value.Exception?
    {
      ghost var s0 := store.Save();
      var skus := NoSku;
      var i := 0;
      while i < |items|
        invariant i <= |items| && Valid()
        invariant skus == SkusAfter(separator, items[..i])
        invariant ItemsWritten(s0, store.refused, separator, order, uniqueOrderId, items[..i]) == Some(store.Save())
      {
        ItemsWrittenStep(s0, store.refused, separator, order, uniqueOrderId, items, i);
        skus := ItemSku(separator, skus, items[i]);
        error := CreateItem(order, uniqueOrderId, skus, items[i]);
        if error.Some? {
          ItemsWrittenStops(s0, store.refused, separator, order, uniqueOrderId, items, i + 1);
          return;
        }
        i := i + 1;
      }
      assert items[..i] == items;
      error := None;
    }

    /** The memo and id count after the three lookups from `memo0` and `ticks0`. */
    ghost predicate LookedUp(memo0: map<string, Value>, ticks0: nat, orderData: Value)
      reads this
    {
      && memo == MemoAfter(memo0, LookupsFrom(memo0, ticks0, AddressesOf(orderData)))
      && ticks == ticks0 + DrawsFrom(memo0, AddressesOf(orderData))
    }

    /** The English, Chinese and first-address lookups, in that order. */
    method LookupAddresses(orderData: Value) returns (a: OrderAddresses)
      modifies this
      ensures a == LookupsFrom(old(memo), old(ticks), AddressesOf(orderData))
      ensures LookedUp(old(memo), old(ticks), orderData) && cursor == old(cursor)
    {
      ghost var memo0, ticks0 := memo, ticks;
      var english := AddressByLanguage(orderData, English);
      ghost var memo1, ticks1 := memo, ticks;
      var chinese := AddressByLanguage(orderData, Chinese);
      ghost var memo2, ticks2 := memo, ticks;
      var first := AddressByLanguage(orderData, AnyLanguage);
      LookupsInOrder(memo0, AddressesOf(orderData), english, chinese, first, memo1, memo2, memo, ticks0, ticks1, ticks2, ticks);
      a := OrderAddresses(english, chinese, first);
    }

    /** `getCustomerName($orderData)`. */
    method CustomerName(orderData: Value) returns (r: Outcome<Value>)
      modifies this
      ensures r == CustomerNameFrom(LookupsFrom(old(memo), old(ticks), AddressesOf(orderData)), orderData)
      ensures LookedUp(old(memo), old(ticks), orderData) && cursor == old(cursor)
    {
      var a := LookupAddresses(orderData);
      FirstSetOfThree(a.english, a.chinese, a.first, "name");
      if Isset(a.english, "name") {
        r := Ok(Index(a.english, "name"));
      } else if Isset(a.chinese, "name") {
        r := Ok(Index(a.chinese, "name"));
      } else if Isset(a.first, "name") {
        r := Ok(Index(a.first, "name"));
      } else {
        var message := if Isset(orderData, "order_id") then Text(Index(orderData, "order_id")) else "without order id";
        r := Threw(Exception(" No address name found on MMS order " + message + "."));
      }
    }

    /** `getCustomerEmail($orderData)`: the second round of lookups, inside
        `getCustomerName`, finds the memo filled and changes nothing. */
    method CustomerEmail(orderData: Value) returns (r: Outcome<string>)
      modifies this
      ensures r == CustomerEmailFrom(LookupsFrom(old(memo), old(ticks), AddressesOf(orderData)), orderData)
      ensures LookedUp(old(memo), old(ticks), orderData) && cursor == old(cursor)
    {
      ghost var memo0, ticks0 := memo, ticks;
      var a := LookupAddresses(orderData);
      FirstSetOfThree(a.english, a.chinese, a.first, "contact_email_1");
      var email := Str("");
      if Isset(a.english, "contact_email_1") {
        email := Index(a.english, "contact_email_1");
      } else if Isset(a.chinese, "contact_email_1") {
        email := Index(a.chinese, "contact_email_1");
      } else if Isset(a.first, "contact_email_1") {
        email := Index(a.first, "contact_email_1");
      }
      assert email == FoundEmail(a);
      if !email.Str? || ByteLength(email.s) < 6 {
        LookupsIdempotent(memo0, ticks0, AddressesOf(orderData), AddressesOf(orderData), ticks);
        var name := CustomerName(orderData);
        assert name == CustomerNameFrom(a, orderData);
        if name.Threw? {
          CustomerEmailCases(a, orderData, name, "");
          return Threw(name.error);
        }
        var synthesized := SynthesizeEmail(name.value, a.english, a.first, a.chinese);
        CustomerEmailCases(a, orderData, name, synthesized);
        r := Ok(synthesized);
      } else {
        CustomerEmailCases(a, orderData, CustomerNameFrom(a, orderData), "");
        r := Ok(email.s);
      }
    }

    /** The inner loop of `getCustomerEmail`: appends the usable fields of
        one address, key by key, until `added` reaches the count. */
    static method AppendAddress(email0: string, address: Value, keys: seq<(string, nat)>, added0: nat, max0: nat)
      returns (email: string, added: nat, maxFields: nat)
      requires forall i :: 0 <= i < |keys| ==> keys[i].1 >= 1
      requires added0 == 0 ==> max0 == 0
      requires added0 > 0 ==> added0 < max0
      ensures AddressAppended(address, keys, added0, max0, email0, email, added, maxFields)
    {
      email, added, maxFields := email0, added0, max0;
      var k := 0;
      assert keys[..0] == [];
      while k < |keys|
        invariant 0 <= k <= |keys| && Scanned(address, keys, k, added0, max0, email0, email, added, maxFields)
      {
        var email', added', maxFields' := email, added, maxFields;
        var usable := UsableField(address, keys[k].0);
        if usable {
          email' := email + StripNonWord(Text(Index(address, keys[k].0)));
          if added == 0 {
            maxFields' := keys[k].1;
          }
          added' := added + 1;
        }
        ScanStep(address, keys, k, added0, max0, email0, email, added, maxFields, email', added', maxFields');
        email, added, maxFields := email', added', maxFields';
        if usable && added >= maxFields {
          return;
        }
        k := k + 1;
      }
      ScanEnd(address, keys, added0, max0, email0, email, added, maxFields);
    }

    /** The field loop of `getCustomerEmail`: appends the fields of the
        addresses in turn until as many as the first field's count are in. */
    static method AppendFields(email0: string, addresses: seq<Value>, keys: seq<(string, nat)>) returns (email: string)
      requires forall i :: 0 <= i < |keys| ==> keys[i].1 >= 1
      ensures email == email0 + Joined(LeadingFields(addresses, keys))
    {
      email := email0;
      var added: nat := 0;
      // `$maxFields` is unset until the first field is added; it compares as 0
      var maxFields: nat := 0;
      var a := 0;
      while a < |addresses|
        invariant 0 <= a <= |addresses| && FieldLoop(addresses, keys, a, added, maxFields, email0, email)
      {
        LeadingReady(addresses, keys, a, added, maxFields);
        var email', added', maxFields' := AppendAddress(email, addresses[a], keys, added, maxFields);
        LeadingEmail(addresses, keys, a, added, maxFields, email0, email, email', added', maxFields');
        LeadingAdvance(addresses, keys, a, added, maxFields, added', maxFields');
        email, added, maxFields := email', added', maxFields';
        if added >= maxFields {
          return;
        }
        a := a + 1;
      }
      LeadingEnd(addresses, keys, added, maxFields);
    }

    /** The email `getCustomerEmail` makes up from the customer's name and
        the English, first and Chinese addresses. */
    static method SynthesizeEmail(name: Value, english: Value, first: Value, chinese: Value) returns (email: string)
      ensures email == SynthesizedEmail(name, EmailFieldText(english, first, chinese))
    {
      email := AppendFields("tm_" + Text(name), [english, first, chinese], EmailFieldKeys);
      email := Lower(Take(StripNonWord(email), MaxEmailLength) + NoEmailDomain);
    }

    /** The memo already holds the three lookups of the order data: another
        round draws no id and changes nothing. */
    ghost predicate Settled(orderData: Value)
      reads this
    {
      && memo == MemoAfter(memo, LookupsFrom(memo, ticks, AddressesOf(orderData)))
      && DrawsFrom(memo, AddressesOf(orderData)) == 0
    }

    /** After one round of lookups the memo is settled, and a later round
        answers as the first did. */
    lemma SettledAfter(memo0: map<string, Value>, ticks0: nat, orderData: Value)
      requires LookedUp(memo0, ticks0, orderData)
      ensures Settled(orderData)
      ensures LookupsFrom(memo, ticks, AddressesOf(orderData)) == LookupsFrom(memo0, ticks0, AddressesOf(orderData))
    {
      LookupsIdempotent(memo0, ticks0, AddressesOf(orderData), AddressesOf(orderData), ticks);
    }

    /** `createCustomerEntity($orderData)`. */
    method CreateCustomer(orderData: Value) returns (r: Outcome<Key>)
      requires Valid()
      modifies this, store
      ensures Valid() && cursor == old(cursor)
      ensures LookedUp(old(memo), old(ticks), orderData)
      ensures r == CustomerCreated(old(store.records), store.refused, LookupsFrom(old(memo), old(ticks), AddressesOf(orderData)),
                                   orderData)
      ensures r.Ok? ==> store.records == old(store.records)[r.value := Record(CustomerAttrsFrom(LookupsFrom(old(memo), old(ticks), AddressesOf(orderData)), orderData), None)]
      ensures r.Threw? ==> store.records == old(store.records)
      ensures OnlyAdded(old(store.records), store.records, {"customer"})
      ensures store.localIds == old(store.localIds) && store.byLocal == old(store.byLocal)
      ensures store.children == old(store.children)
    {
      var name := CustomerName(orderData);
      SettledAfter(old(memo), old(ticks), orderData);
      if name.Threw? {
        return Threw(name.error);
      }
      // the attributes depend on the name alone
      var attrs := CustomerAttrs(name.value);
      r := CreateNamedCustomer(orderData, attrs);
    }

    /** The rest of `createCustomerEntity` once the name is found and its
        attributes `attrs` are worked out: the email, then the entity. */
    method CreateNamedCustomer(orderData: Value, attrs: map<string, Value>) returns (r: Outcome<Key>)
      requires Valid() && Settled(orderData)
      requires CustomerNameFrom(LookupsFrom(memo, ticks, AddressesOf(orderData)), orderData).Ok?
      modifies this, store
      ensures Valid() && cursor == old(cursor) && memo == old(memo) && ticks == old(ticks)
      ensures r == CustomerCreated(old(store.records), store.refused, LookupsFrom(memo, ticks, AddressesOf(orderData)),
                                   orderData)
      ensures r.Ok? ==> store.records == old(store.records)[r.value := Record(attrs, None)]
      ensures r.Threw? ==> store.records == old(store.records)
      ensures OnlyAdded(old(store.records), store.records, {"customer"})
      ensures store.localIds == old(store.localIds) && store.byLocal == old(store.byLocal)
      ensures store.children == old(store.children)
    {
      ghost var records0, a := store.records, LookupsFrom(memo, ticks, AddressesOf(orderData));
      var email := CustomerEmail(orderData);
      assert memo == old(memo) && ticks == old(ticks);
      CreatedUnderEmail(records0, store.refused, a, orderData, email);
      r := CreateUnder(CustomerKey(email.value), attrs);
    }

    /** `createEntity` of a customer under the key `k`. */
    method CreateUnder(k: Key, attrs: map<string, Value>) returns (r: Outcome<Key>)
      requires Valid() && k.entityType == "customer"
      modifies store
      ensures Valid()
      ensures r == if k in old(store.records) then Threw(Exception(Failure(k, "already exists")))
                   else if k in store.refused then Threw(Exception(Failure(k, "could not be saved")))
                   else Ok(k)
      ensures r.Ok? ==> store.records == old(store.records)[k := Record(attrs, None)]
      ensures r.Threw? ==> store.records == old(store.records)
      ensures OnlyAdded(old(store.records), store.records, {"customer"})
      ensures store.localIds == old(store.localIds) && store.byLocal == old(store.byLocal)
      ensures store.children == old(store.children)
    {
      r := store.Create(k, attrs, None);
      OnlyAddedOne(old(store.records), store.records, k, Record(attrs, None), {"customer"});
    }

    /** The customer part of `storeOrderData`: an order whose email has no
        length gets `getCustomerEmail`'s; with a true email, the customer
        stored under it is assigned, or else a new one is created. */
    method AssignCustomer(orderData: Value, uniqueId: string, data: map<string, Value>) returns (r: Outcome<map<string, Value>>)
      requires Valid()
      modifies this, store
      ensures Valid() && cursor == old(cursor)
      ensures r == CustomerStep(old(store.records), store.refused, LookupsFrom(old(memo), old(ticks), AddressesOf(orderData)),
                                orderData, uniqueId, data)
      ensures r.Ok? && CustomerSought(old(store.records), LookupsFrom(old(memo), old(ticks), AddressesOf(orderData)), orderData, data)
              ==> store.records == old(store.records)[CustomerCreated(old(store.records), store.refused,
                                                                      LookupsFrom(old(memo), old(ticks), AddressesOf(orderData)),
                                                                      orderData).value
                                                      := Record(CustomerAttrsFrom(LookupsFrom(old(memo), old(ticks), AddressesOf(orderData)),
                                                                                  orderData), None)]
      ensures !(r.Ok? && CustomerSought(old(store.records), LookupsFrom(old(memo), old(ticks), AddressesOf(orderData)), orderData, data))
              ==> store.records == old(store.records)
      ensures NoLength(DataEmail(data))
              || CustomerSought(old(store.records), LookupsFrom(old(memo), old(ticks), AddressesOf(orderData)), orderData, data)
              ==> LookedUp(old(memo), old(ticks), orderData)
      ensures !NoLength(DataEmail(data))
              && !CustomerSought(old(store.records), LookupsFrom(old(memo), old(ticks), AddressesOf(orderData)), orderData, data)
              ==> memo == old(memo) && ticks == old(ticks)
      ensures OnlyAdded(old(store.records), store.records, {"customer"})
      ensures store.localIds == old(store.localIds) && store.byLocal == old(store.byLocal)
      ensures store.children == old(store.children)
    {
      ghost var memo0, ticks0 := memo, ticks;
      ghost var a := LookupsFrom(memo0, ticks0, AddressesOf(orderData));
      var email := FixEmail(orderData, DataEmail(data));
      if email.Threw? {
        return Threw(email.error);
      }
      if NoLength(DataEmail(data)) {
        SettledAfter(memo0, ticks0, orderData);
      }
      var customer := FindCustomer(orderData, uniqueId, email.value);
      if customer.Threw? {
        return Threw(customer.error);
      }
      r := Ok(WithCustomer(data, email.value, customer.value));
    }

    /** The email fix-up of `storeOrderData`. */
    method FixEmail(orderData: Value, email: Value) returns (r: Outcome<Value>)
      modifies this
      ensures r == FixedEmail(LookupsFrom(old(memo), old(ticks), AddressesOf(orderData)), orderData, email)
      ensures NoLength(email) ==> LookedUp(old(memo), old(ticks), orderData)
      ensures !NoLength(email) ==> memo == old(memo) && ticks == old(ticks)
      ensures cursor == old(cursor)
    {
      if !NoLength(email) {
        return Ok(email);
      }
      var found := CustomerEmail(orderData);
      if found.Threw? {
        return Threw(found.error);
      }
      r := Ok(Str(found.value));
    }

    /** The customer assigned to an order with the fixed email `email`: none
        for a false email, the one stored under it, or a new one. */
    method FindCustomer(orderData: Value, uniqueId: string, email: Value) returns (r: Outcome<Option<Key>>)
      requires Valid()
      modifies this, store
      ensures Valid() && cursor == old(cursor)
      ensures r == AssignedCustomer(old(store.records), store.refused, LookupsFrom(old(memo), old(ticks), AddressesOf(orderData)),
                                    orderData, uniqueId, email)
      ensures r.Ok? && Truthy(email) && CustomerKey(Text(email)) !in old(store.records)
              ==> store.records == old(store.records)[CustomerCreated(old(store.records), store.refused,
                                                                      LookupsFrom(old(memo), old(ticks), AddressesOf(orderData)),
                                                                      orderData).value := Record(CustomerAttrsFrom(LookupsFrom(old(memo), old(ticks),
                                                                                                          AddressesOf(orderData)),
                                                                                              orderData), None)]
      ensures !(r.Ok? && Truthy(email) && CustomerKey(Text(email)) !in old(store.records)) ==> store.records == old(store.records)
      ensures Truthy(email) && CustomerKey(Text(email)) !in old(store.records) ==> LookedUp(old(memo), old(ticks), orderData)
      ensures !(Truthy(email) && CustomerKey(Text(email)) !in old(store.records)) ==> memo == old(memo) && ticks == old(ticks)
      ensures OnlyAdded(old(store.records), store.records, {"customer"})
      ensures store.localIds == old(store.localIds) && store.byLocal == old(store.byLocal)
      ensures store.children == old(store.children)
    {
      if !Truthy(email) {
        return Ok(None);
      }
      var k := CustomerKey(Text(email));
      var loaded := store.Load(k);
      if loaded.Some? {
        return Ok(Some(k));
      }
      var created := CreateCustomer(orderData);
      if created.Threw? {
        return Threw(CustomerFailure(uniqueId, created.error));
      }
      r := Ok(Some(created.value));
    }

    /** `createAddressEntity($addressData, $orderData, $type)`, where `attrs`
        are the attributes `AddressAttrs(address)` of the address data: they
        depend on the address alone, so the caller computes them. */
    method CreateAddressEntity(address: Value, orderData: Value, kind: string, attrs: map<string, Value>)
      returns (r: Outcome<Value>)
      requires Valid()
      modifies store
      ensures Valid()
      ensures r == AddressEntityFrom(old(store.records), store.refused, address, orderData, kind)
      ensures store.records == AddressRecords(old(store.records), store.refused, address, orderData, kind, attrs)
      ensures store.localIds == old(store.localIds) && store.byLocal == old(store.byLocal)
      ensures store.children == old(store.children)
    {
      if !HasAddressId(address) {
        return Ok(Null);
      }
      r := FindOrCreateAddress(AddressKey(orderData, kind), attrs);
    }

    /** The `loadEntity` and, when that finds nothing, `createEntity` of
        `createAddressEntity`. */
    method FindOrCreateAddress(k: Key, attrs: map<string, Value>) returns (r: Outcome<Value>)
      requires Valid()
      modifies store
      ensures Valid()
      ensures r == if k !in old(store.records) && k in store.refused then Threw(Exception(Failure(k, "could not be saved")))
                   else Ok(Obj(k))
      ensures store.records == if k !in old(store.records) && k !in store.refused then old(store.records)[k := Record(attrs, None)]
                               else old(store.records)
      ensures store.localIds == old(store.localIds) && store.byLocal == old(store.byLocal)
      ensures store.children == old(store.children)
    {
      var found := store.Load(k);
      if found.Some? {
        return Ok(Obj(k));
      }
      var created := store.Create(k, attrs, None);
      if created.Threw? {
        return Threw(created.error);
      }
      r := Ok(Obj(k));
    }

    /** The memo and id count after the English and Chinese lookups from
        `memo0` and `ticks0`. */
    ghost predicate TwoLookedUp(memo0: map<string, Value>, ticks0: nat, orderData: Value)
      reads this
    {
      var a := LookupsFrom(memo0, ticks0, AddressesOf(orderData));
      && memo == memo0[MemoKey(English) := a.english][MemoKey(Chinese) := a.chinese]
      && ticks == ticks0 + MemoDraws(memo0, AddressesOf(orderData), English) + MemoDraws(memo0, AddressesOf(orderData), Chinese)
    }

    /** `createAddresses($orderData)`. */
    method CreateAddresses(orderData: Value) returns (r: Outcome<map<string, Value>>)
      requires Valid()
      modifies this, store
      ensures Valid() && cursor == old(cursor)
      ensures !Isset(orderData, "addresses") ==>
                r == Ok(map[]) && store.records == old(store.records) && memo == old(memo) && ticks == old(ticks)
      ensures Isset(orderData, "addresses") ==> TwoLookedUp(old(memo), old(ticks), orderData)
      ensures Isset(orderData, "addresses") ==>
                var a := LookupsFrom(old(memo), old(ticks), AddressesOf(orderData));
                r == AddressesWritten(old(store.records), store.refused, orderData, a.english, a.chinese,
                                      AddressAttrs(BillingData(a.english, a.chinese)),
                                      AddressAttrs(ShippingData(a.english, a.chinese))).result
      ensures Isset(orderData, "addresses") ==>
                var a := LookupsFrom(old(memo), old(ticks), AddressesOf(orderData));
                store.records == AddressesWritten(old(store.records), store.refused, orderData, a.english, a.chinese,
                                                  AddressAttrs(BillingData(a.english, a.chinese)),
                                                  AddressAttrs(ShippingData(a.english, a.chinese))).records
      ensures store.localIds == old(store.localIds) && store.byLocal == old(store.byLocal)
      ensures store.children == old(store.children)
      ensures r.Threw? && r.error.FatalError? ==> store.records == old(store.records)
      ensures forall j :: j in old(store.records) ==> j in store.records && store.records[j] == old(store.records)[j]
      ensures forall j :: j in store.records && j !in old(store.records) ==> j.entityType == "address"
    {
      if !Isset(orderData, "addresses") {
        return Ok(map[]);
      }
      LanguageKeys();
      ghost var memo0, ticks0 := memo, ticks;
      var english := AddressByLanguage(orderData, English);
      ghost var ticks1 := ticks;
      var chinese := AddressByLanguage(orderData, Chinese);
      MemoOtherKey(memo0, MemoKey(English), english, ticks1, AddressesOf(orderData), Chinese);
      ghost var a := LookupsFrom(memo0, ticks0, AddressesOf(orderData));
      assert english == a.english && chinese == a.chinese;
      // the attributes depend on the address data alone
      var billingAttrs, shippingAttrs := AddressAttrs(BillingData(english, chinese)), AddressAttrs(ShippingData(english, chinese));
      r := WriteAddresses(orderData, english, chinese, billingAttrs, shippingAttrs);
    }

    /** The entities `createAddresses` makes once the English and Chinese
        addresses are looked up, where `billingAttrs` and `shippingAttrs`
        are the attributes of the billing and the shipping data. */
    method WriteAddresses(orderData: Value, english: Value, chinese: Value,
                          billingAttrs: map<string, Value>, shippingAttrs: map<string, Value>)
      returns (r: Outcome<map<string, Value>>)
      requires Valid()
      modifies store
      ensures Valid()
      ensures r == AddressesWritten(old(store.records), store.refused, orderData, english, chinese, billingAttrs, shippingAttrs).result
      ensures store.records == AddressesWritten(old(store.records), store.refused, orderData, english, chinese, billingAttrs, shippingAttrs).records
      ensures store.localIds == old(store.localIds) && store.byLocal == old(store.byLocal)
      ensures store.children == old(store.children)
      ensures r.Threw? && r.error.FatalError? ==> store.records == old(store.records)
      ensures forall j :: j in old(store.records) ==> j in store.records && store.records[j] == old(store.records)[j]
      ensures forall j :: j in store.records && j !in old(store.records) ==> j.entityType == "address"
    {
      AddressesFatal(store.records, store.refused, orderData, english, chinese, billingAttrs, shippingAttrs);
      AddressesOnlyAdd(store.records, store.refused, orderData, english, chinese, billingAttrs, shippingAttrs);
      ghost var written := AddressesWritten(store.records, store.refused, orderData, english, chinese, billingAttrs, shippingAttrs);
      if Count(english) == 0 && Count(chinese) == 0 {
        return Threw(FatalError(NoFirstAddress));
      }
      r := WriteFound(orderData, english, chinese, billingAttrs, shippingAttrs);
      assert store.records == written.records;
    }

    /** `createAddresses` once `count($billingData) > 0`: one shared entity
        when the billing and the shipping data are loosely equal, else two. */
    method WriteFound(orderData: Value, english: Value, chinese: Value,
                      billingAttrs: map<string, Value>, shippingAttrs: map<string, Value>)
      returns (r: Outcome<map<string, Value>>)
      requires Valid() && (Count(english) > 0 || Count(chinese) > 0)
      modifies store
      ensures Valid()
      ensures r == AddressesWritten(old(store.records), store.refused, orderData, english, chinese, billingAttrs, shippingAttrs).result
      ensures store.records == AddressesWritten(old(store.records), store.refused, orderData, english, chinese, billingAttrs, shippingAttrs).records
      ensures store.localIds == old(store.localIds) && store.byLocal == old(store.byLocal)
      ensures store.children == old(store.children)
    {
      var billing, shipping := BillingData(english, chinese), ShippingData(english, chinese);
      ghost var written := AddressesWritten(store.records, store.refused, orderData, english, chinese, billingAttrs, shippingAttrs);
      if LooseEq(billing, shipping) {
        assert written == SharedWrite(store.records, store.refused, orderData, billing, billingAttrs);
        r := WriteShared(orderData, billing, billingAttrs);
      } else {
        assert written == SeparateWrite(store.records, store.refused, orderData, billing, shipping, billingAttrs, shippingAttrs);
        r := WriteSeparate(orderData, billing, shipping, billingAttrs, shippingAttrs);
      }
    }

    /** One entity for both the billing and the shipping address. */
    method WriteShared(orderData: Value, address: Value, attrs: map<string, Value>) returns (r: Outcome<map<string, Value>>)
      requires Valid()
      modifies store
      ensures Valid()
      ensures r == SharedWrite(old(store.records), store.refused, orderData, address, attrs).result
      ensures store.records == SharedWrite(old(store.records), store.refused, orderData, address, attrs).records
      ensures store.localIds == old(store.localIds) && store.byLocal == old(store.byLocal)
      ensures store.children == old(store.children)
    {
      var shared := CreateAddressEntity(address, orderData, "", attrs);
      if shared.Threw? {
        return Threw(shared.error);
      }
      r := Ok(map["billing_address" := shared.value, "shipping_address" := shared.value]);
    }

    /** The billing entity, then the shipping one. */
    method WriteSeparate(orderData: Value, billing: Value, shipping: Value,
                         billingAttrs: map<string, Value>, shippingAttrs: map<string, Value>)
      returns (r: Outcome<map<string, Value>>)
      requires Valid()
      modifies store
      ensures Valid()
      ensures r == SeparateWrite(old(store.records), store.refused, orderData, billing, shipping,
                                 billingAttrs, shippingAttrs).result
      ensures store.records == SeparateWrite(old(store.records), store.refused, orderData, billing, shipping,
                                             billingAttrs, shippingAttrs).records
      ensures store.localIds == old(store.localIds) && store.byLocal == old(store.byLocal)
      ensures store.children == old(store.children)
    {
      AddressKindsDistinct(orderData);
      var forBilling := CreateAddressEntity(billing, orderData, "billing", billingAttrs);
      if forBilling.Threw? {
        r := Threw(forBilling.error);
      } else {
        var forShipping := CreateAddressEntity(shipping, orderData, "shipping", shippingAttrs);
        r := if forShipping.Threw? then Threw(forShipping.error)
             else Ok(map["billing_address" := forBilling.value, "shipping_address" := forShipping.value]);
      }
    }

    /** The stock loop of the update path: `updateStockQuantities` for every
        item of the order, as updated. */
    method UpdateItemsStock(order: Key)
      requires Valid() && order in store.records && order.entityType == "order"
      modifies store
      ensures Valid()
      ensures store.records == StockFold(old(store.records), store.refused, StatusOf(old(store.records)[order]),
                                         old(store.Items(order)))
      ensures store.localIds == old(store.localIds) && store.byLocal == old(store.byLocal)
      ensures store.children == old(store.children)
    {
      var items := store.Items(order);
      ghost var records0 := store.records;
      ghost var status := StatusOf(store.records[order]);
      assert forall j :: 0 <= j < |items| ==> items[j] in records0 && items[j].entityType == "orderitem";
      var i := 0;
      while i < |items|
        invariant 0 <= i <= |items| && Valid()
        invariant store.records == StockFold(records0, store.refused, status, items[..i])
        invariant order in store.records && store.records[order] == records0[order]
        invariant store.localIds == old(store.localIds) && store.byLocal == old(store.byLocal)
        invariant store.children == old(store.children)
      {
        StockFoldStep(records0, store.refused, status, items, i);
        var _ := UpdateStockQuantities(order, items[i]);
        StockFoldKeeps(records0, store.refused, status, items[..i + 1], order);
        i := i + 1;
      }
      assert items[..i] == items;
    }

    /** The update path: `updateEntity` with the order's attributes, then the
        stock loop when the status moved; a refused update throws "Needs
        update: ...". */
    method UpdateOrder(k: Key, orderData: Value, data: map<string, Value>) returns (error: Option<Thrown>)
      requires Valid() && k in store.records && k.entityType == "order"
      requires "status" in data && data["status"] == OrderStatus(orderData)
      modifies store
      ensures Valid()
      ensures error.None? <==> k !in store.refused
      ensures error.Some? ==> error.value == Exception("Needs update: " + Failure(k, "could not be updated"))
      ensures error.Some? ==> store.Save() == old(store.Save())
      ensures error.None? ==>
        store.records == OrderUpdated(old(store.records), store.refused, k, OrderStatus(orderData), data, old(store.Items(k)))
      ensures store.localIds == old(store.localIds) && store.byLocal == old(store.byLocal)
      ensures store.children == old(store.children)
      ensures store.records.Keys == old(store.records).Keys
      ensures error.None? ==> store.records[k] == Record(old(store.records)[k].attrs + data, old(store.records)[k].parent)
      ensures error.None? ==> StatusOf(store.records[k]) == OrderStatus(orderData)
      ensures forall j :: j in old(store.records) && j != k && j.entityType != "stockitem" ==>
        store.records[j] == old(store.records)[j]
      ensures !StatusMoved(StatusOf(old(store.records)[k]), OrderStatus(orderData)) ==>
        forall j :: j in old(store.records) && j != k ==> store.records[j] == old(store.records)[j]
    {
      OrderUpdatedMeaning(store.records, store.refused, k, OrderStatus(orderData), data, store.Items(k));
      var moved := StatusMoved(StatusOf(store.records[k]), OrderStatus(orderData));
      var updated := store.Update(k, data);
      if updated.Threw? {
        return Some(Exception("Needs update: " + updated.error.message));
      }
      if moved {
        UpdateItemsStock(k);
      }
      error := None;
    }

    /** The creation path inside the transaction `mms-order-<unique id>`:
        the addresses, the order record merged over them, its link and its
        items. An exception rolls the transaction back and is rethrown as
        "Rollback of mms-order-<unique id>: ..."; the error of a missing
        address escapes without a rollback, before anything is written. */
    method CreateOrder(orderData: Value, k: Key, localId: string, data: map<string, Value>) returns (error: Option<Thrown>)
      requires Valid() && k.entityType == "order" && k !in store.records
      modifies this, store
      ensures Valid() && cursor == old(cursor)
      ensures error.Some? ==> store.Save() == old(store.Save())
      ensures error.Some? ==>
        error.value.FatalError? || StartsWith(error.value.message, "Rollback of mms-order-" + k.uniqueId + ": ")
      ensures error.None? ==> k in store.records && store.records[k].parent == None
      ensures error.None? ==> forall c :: c in data ==> c in store.records[k].attrs && store.records[k].attrs[c] == data[c]
      ensures error.None? ==> store.LoadLocal("order", k.storeId, localId) == Some(k)
      ensures forall j :: j in old(store.records) && j.entityType != "stockitem" ==>
        j in store.records && store.records[j] == old(store.records)[j]
      ensures forall j :: j in store.records && j !in old(store.records) ==>
        j == k || j.entityType == "address" || (j.entityType == "orderitem" && store.records[j].parent == Some(k))
    {
      var snapshot := store.Save();
      var prefix := "Rollback of mms-order-" + k.uniqueId + ": ";
      var addresses := NewOrderAddresses(orderData);
      if addresses.Threw? && addresses.error.FatalError? {
        return Some(addresses.error);
      }
      if addresses.Threw? {
        error := Some(addresses.error);
      } else {
        error := StoreNewOrder(orderData, k, localId, addresses.value + data);
      }
      if error.Some? {
        store.Restore(snapshot);
        error := Some(Exception(prefix + error.value.message));
      }
    }

    /** `createAddresses` as the creation path relies on it: it keeps every
        record, adds only addresses, links nothing, and its error writes
        nothing. */
    method NewOrderAddresses(orderData: Value) returns (r: Outcome<map<string, Value>>)
      requires Valid()
      modifies this, store
      ensures Valid() && cursor == old(cursor)
      ensures r.Threw? && r.error.FatalError? ==> store.records == old(store.records)
      ensures forall j :: j in old(store.records) ==> j in store.records && store.records[j] == old(store.records)[j]
      ensures forall j :: j in store.records && j !in old(store.records) ==> j.entityType == "address"
      ensures store.localIds == old(store.localIds) && store.byLocal == old(store.byLocal)
      ensures store.children == old(store.children)
    {
      r := CreateAddresses(orderData);
    }

    /** The order record, its link and its items, inside the transaction. */
    method StoreNewOrder(orderData: Value, k: Key, localId: string, attrs: map<string, Value>) returns (error: Option<Thrown>)
      requires Valid() && k.entityType == "order" && k !in store.records
      modifies store
      ensures Valid()
      ensures error.Some? ==> error.value.Exception?
      ensures error.None? ==> k in store.records && store.records[k] == Record(attrs, None)
      ensures error.None? ==> store.LoadLocal("order", k.storeId, localId) == Some(k)
      ensures error.None? ==> forall j :: j in old(store.records) && j.entityType != "stockitem" ==>
        j in store.records && store.records[j] == old(store.records)[j]
      ensures error.None? ==> forall j :: j in store.records && j !in old(store.records) ==>
        j == k || (j.entityType == "orderitem" && store.records[j].parent == Some(k))
    {
      var created := store.Create(k, attrs, None);
      if created.Threw? {
        return Some(created.error);
      }
      // The order was just stored and its key is not refused, so the link
      // succeeds.
      var _ := store.Link(k, localId);
      error := CreateItems(orderData, k);
    }

    /** The customer part as the order paths rely on it: it keeps every
        attribute but the email and the customer, keeps every record, adds
        only a customer and links nothing. */
    method OrderCustomer(orderData: Value, uniqueId: string, data: map<string, Value>) returns (r: Outcome<map<string, Value>>)
      requires Valid()
      modifies this, store
      ensures Valid() && cursor == old(cursor)
      ensures r == CustomerStep(old(store.records), store.refused, LookupsFrom(old(memo), old(ticks), AddressesOf(orderData)),
                                orderData, uniqueId, data)
      ensures r.Ok? ==> forall c :: c in data && c != "customer_email" && c != "customer" ==> c in r.value && r.value[c] == data[c]
      ensures OnlyAdded(old(store.records), store.records, {"customer"})
      ensures store.localIds == old(store.localIds) && store.byLocal == old(store.byLocal)
      ensures store.children == old(store.children)
    {
      ghost var a := LookupsFrom(memo, ticks, AddressesOf(orderData));
      ghost var records0 := store.records;
      r := AssignCustomer(orderData, uniqueId, data);
      if r.Ok? {
        CustomerStepKeeps(records0, store.refused, a, orderData, uniqueId, data);
      }
    }

    /** The order found by its local id is updated; a grand total it already
        holds is not overwritten. */
    method UpdateLocalOrder(k: Key, orderData: Value, data: map<string, Value>) returns (error: Option<Thrown>)
      requires Valid() && k in store.records && k.entityType == "order"
      requires "status" in data && data["status"] == OrderStatus(orderData)
      modifies store
      ensures Valid()
      ensures store.records.Keys == old(store.records).Keys
      ensures error.None? ==> StatusOf(store.records[k]) == OrderStatus(orderData)
      ensures forall j :: j in old(store.records) && j != k && j.entityType != "stockitem" ==>
        store.records[j] == old(store.records)[j]
      ensures !StatusMoved(StatusOf(old(store.records)[k]), OrderStatus(orderData)) ==>
        forall j :: j in old(store.records) && j != k ==> store.records[j] == old(store.records)[j]
      ensures Attr(old(store.records)[k], "grand_total", Null) != Null ==>
        Attr(store.records[k], "grand_total", Null) == Attr(old(store.records)[k], "grand_total", Null)
      ensures error.None? ==>
        store.records[k] == Record(old(store.records)[k].attrs
                                     + (if Attr(old(store.records)[k], "grand_total", Null) != Null then data - {"grand_total"} else data),
                                   old(store.records)[k].parent)
      ensures error.None? ==> HoldsData(store.records[k].attrs, data, Attr(old(store.records)[k], "grand_total", Null) != Null)
      ensures store.localIds == old(store.localIds) && store.byLocal == old(store.byLocal)
      ensures store.children == old(store.children)
    {
      var attrs := data;
      if Attr(store.records[k], "grand_total", Null) != Null {
        attrs := data - {"grand_total"};
      }
      error := UpdateOrder(k, orderData, attrs);
    }

    /** The order found by its unique id is linked to the local id, then
        updated; a refused link throws before anything is written. */
    method LinkAndUpdateOrder(k: Key, localId: string, orderData: Value, data: map<string, Value>) returns (error: Option<Thrown>)
      requires Valid() && k in store.records && k.entityType == "order"
      requires "status" in data && data["status"] == OrderStatus(orderData)
      modifies store
      ensures Valid()
      ensures store.records.Keys == old(store.records).Keys
      ensures error.None? ==> store.LoadLocal("order", k.storeId, localId) == Some(k)
      ensures error.None? ==> StatusOf(store.records[k]) == OrderStatus(orderData)
      ensures error.None? ==> store.records[k] == Record(old(store.records)[k].attrs + data, old(store.records)[k].parent)
      ensures error.None? ==> HoldsData(store.records[k].attrs, data, false)
      ensures forall j :: j in old(store.records) && j != k && j.entityType != "stockitem" ==>
        store.records[j] == old(store.records)[j]
      ensures !StatusMoved(StatusOf(old(store.records)[k]), OrderStatus(orderData)) ==>
        forall j :: j in old(store.records) && j != k ==> store.records[j] == old(store.records)[j]
      ensures store.children == old(store.children)
    {
      var linked := store.Link(k, localId);
      if linked.Threw? {
        return Some(linked.error);
      }
      error := UpdateOrder(k, orderData, data);
    }

    /** The lookups and writes of `storeOrderData` once the attributes and
        the customer are known: the order `k` stands for the order under the
        unique id. */
    method StoreOrderRecord(orderData: Value, k: Key, localId: string, data: map<string, Value>) returns (error: Option<Thrown>)
      requires Valid() && k.entityType == "order"
      requires "status" in data && data["status"] == OrderStatus(orderData)
      modifies this, store
      ensures Valid() && cursor == old(cursor)
      ensures OrderSettled(old(store.Save()), store.Save(), k, localId, OrderStatus(orderData), data, error.Some?, {})
    {
      var existing := store.LoadLocal("order", k.storeId, localId);
      if existing.Some? {
        error := UpdateLocalOrder(existing.value, orderData, data);
        return;
      }
      var found := store.Load(k);
      if found.None? {
        error := CreateOrder(orderData, k, localId, data);
        return;
      }
      error := LinkAndUpdateOrder(k, localId, orderData, data);
    }

    /** `storeOrderData($orderData)`: the order attributes, the customer,
        then the order found by its local id (updated, keeping a stored grand
        total), else by its unique id (linked to the local id, then updated),
        else created. */
    method StoreOrderData(orderData: Value) returns (error: Option<Thrown>)
      requires Valid()
      modifies this, store
      ensures Valid() && cursor == old(cursor)
      ensures var step := CustomerStep(old(store.records), store.refused, LookupsFrom(old(memo), old(ticks), AddressesOf(orderData)),
                                       orderData, UniqueIdFromOrderData(orderData), AssembledOrder(orderData, paymentData, placedAt));
        && (error.None? ==> step.Ok?)
        && OrderSettled(old(store.Save()), store.Save(), OrderKey(storePrefix, orderData), LocalOrderId(orderData),
                        OrderStatus(orderData), if step.Ok? then step.value else map[], error.Some?, {"customer"})
      ensures OrderHolds(old(store.Save()), store.Save(), OrderKey(storePrefix, orderData), LocalOrderId(orderData),
                         AssembledOrder(orderData, paymentData, placedAt) - {"customer_email", "customer"}, error.Some?)
    {
      var data := OrderData.AssembleOrder(orderData, paymentData, placedAt);
      OrderStatusStored(orderData, ItemTotals(ItemsOf(orderData)), OrderRate(orderData), FirstShipping(ItemsOf(orderData)),
                        paymentData(Num(CodeTotal(ItemsOf(orderData), "payment", false))),
                        placedAt(Index(orderData, "created_at")));
      error := StoreAssembled(orderData, data);
    }

    /** `storeOrderData` once the order attributes `data` are gathered: the
        customer, then the order. */
    method StoreAssembled(orderData: Value, data: map<string, Value>) returns (error: Option<Thrown>)
      requires Valid()
      requires "status" in data && data["status"] == OrderStatus(orderData)
      modifies this, store
      ensures Valid() && cursor == old(cursor)
      ensures var step := CustomerStep(old(store.records), store.refused, LookupsFrom(old(memo), old(ticks), AddressesOf(orderData)),
                                       orderData, UniqueIdFromOrderData(orderData), data);
        && (error.None? ==> step.Ok?)
        && OrderSettled(old(store.Save()), store.Save(), OrderKey(storePrefix, orderData), LocalOrderId(orderData),
                        OrderStatus(orderData), if step.Ok? then step.value else map[], error.Some?, {"customer"})
      ensures OrderHolds(old(store.Save()), store.Save(), OrderKey(storePrefix, orderData), LocalOrderId(orderData),
                         data - {"customer_email", "customer"}, error.Some?)
    {
      var k := OrderKey(storePrefix, orderData);
      var localId := LocalOrderId(orderData);
      ghost var s0 := store.Save();
      var customerStep := OrderCustomer(orderData, k.uniqueId, data);
      if customerStep.Threw? {
        SettledOnCustomerFailure(s0, store.Save(), k, localId, OrderStatus(orderData), map[]);
        return Some(customerStep.error);
      }
      ghost var s1 := store.Save();
      error := StoreOrderRecord(orderData, k, localId, customerStep.value);
      HoldsAfterCustomer(s0, s1, store.Save(), k, localId, OrderStatus(orderData), data, customerStep.value, error.Some?);
    }

    /** The `foreach` of `retrieveEntities`: each order's details are
        fetched and, when the order is to be retrieved, stored; the first
        exception ends the loop. */
    method StoreRetrieved(rest: RestCurl.RestClient, ids: seq<Value>, sinceId: Value, timestamp: int, nonce: string,
                          send: RestCurl.Request -> Outcome<Value>) returns (error: Option<Thrown>)
      requires Valid() && rest.Valid()
      modifies this, store, rest
      ensures Valid() && rest.Valid() && cursor == old(cursor)
      ensures ids == [] ==> error.None? && store.Save() == old(store.Save())
    {
      var i := 0;
      while i < |ids|
        invariant 0 <= i <= |ids|
        invariant Valid() && rest.Valid() && cursor == old(cursor)
        invariant i == 0 ==> store.Save() == old(store.Save())
      {
        error := StoreRetrievedOne(rest, ids[i], sinceId, timestamp, nonce, send);
        if error.Some? {
          return;
        }
        i := i + 1;
      }
      error := None;
    }

    /** One turn of that `foreach`: the order's details, stored when the
        order is to be retrieved. */
    method StoreRetrievedOne(rest: RestCurl.RestClient, id: Value, sinceId: Value, timestamp: int, nonce: string,
                             send: RestCurl.Request -> Outcome<Value>) returns (error: Option<Thrown>)
      requires Valid() && rest.Valid()
      modifies this, store, rest
      ensures Valid() && rest.Valid() && cursor == old(cursor)
    {
      var details := RestV1.GetOrderDetailsById(rest, id, Arr([]), timestamp, nonce, send);
      if details.Threw? {
        return Some(details.error);
      }
      if !details.value.Arr? {
        return Some(FatalError(DetailsNotAnArray));
      }
      error := None;
      if IsOrderToBeRetrieved(details.value, sinceId) {
        error := StoreOrderData(details.value);
      }
    }

    /** `retrieveEntities()`: one poll cycle. Without a client it throws at
        once. Otherwise it asks for the order ids since the cursor, fetches
        each order's details and stores those that are to be retrieved; any
        exception is rethrown with its message before the cursor is written.
        A cycle that completes moves the cursor to the new since id (kept when
        none is set) and returns `count($results)`, which counts the two keys
        of the cursor result, not the orders. */
    method RetrieveEntities(rest: RestCurl.RestClient?, timestamp: int, nonce: string,
                            send: RestCurl.Request -> Outcome<Value>) returns (r: Outcome<nat>)
      requires Valid() && (rest != null ==> rest.Valid())
      modifies this, store, rest
      ensures Valid() && (rest != null ==> rest.Valid())
      ensures rest == null ==> r == Threw(Exception("No valid API available for sync")) && store.Save() == old(store.Save())
      ensures r.Threw? ==> cursor == old(cursor)
      ensures rest != null ==> CycleEnded(old(RestV1.SinceCall(rest, cursor, timestamp, nonce, send)), old(cursor), cursor,
                                          old(store.Save()), store.Save(), r)
    {
      if rest == null {
        return Threw(Exception("No valid API available for sync"));
      }
      r := RetrieveWith(rest, timestamp, nonce, send);
    }

    /** `retrieveEntities()` with a client. */
    method RetrieveWith(rest: RestCurl.RestClient, timestamp: int, nonce: string,
                        send: RestCurl.Request -> Outcome<Value>) returns (r: Outcome<nat>)
      requires Valid() && rest.Valid()
      modifies this, store, rest
      ensures Valid() && rest.Valid()
      ensures r.Threw? ==> cursor == old(cursor)
      ensures CycleEnded(old(RestV1.SinceCall(rest, cursor, timestamp, nonce, send)), old(cursor), cursor,
                         old(store.Save()), store.Save(), r)
    {
      var sinceId := cursor;
      var results := RestV1.GetOrderIdsSinceResult(rest, sinceId, timestamp, nonce, send);
      if results.Threw? {
        return Threw(results.error);
      }
      if !Isset(results.value, "localOrderIds") {
        return Threw(Exception(MissingOrderIds));
      }
      var stored := StoreRetrieved(rest, Elements(Index(results.value, "localOrderIds")), sinceId, timestamp, nonce, send);
      if stored.Some? {
        return Threw(stored.value);
      }
      cursor := NextSinceId(sinceId, results.value);
      r := Ok(Count(results.value));
    }
  }
}
