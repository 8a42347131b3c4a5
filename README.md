# MMS connector core, modelled in Dafny

The MMS connector links a marketplace order and inventory API ("MMS") to the
entity hub. It pulls new orders from MMS with a persisted cursor and stores
each order once, together with its items, customer and addresses. When an
order becomes shippable or closed, it moves the stock counters of the ordered
items. It also pushes stock levels back to MMS and reads the bundle
quantities of products. Every call to MMS goes through a signed REST client.

The model is written in Dafny and covers these parts:

- `PhpStrings` and `PhpValues` (`php_strings.dfy`, `php_values.dfy`) give the
  PHP 7 built-ins the code relies on. This covers `trim`, `explode`/`implode`,
  `strtolower`, `str_replace`, `urlencode`, `preg_replace('#\W+#')` and
  `intval`. It also covers PHP arrays as ordered key/value lists, loose `==`,
  `in_array`, truthiness, and PHP 7's split between a catchable `\Exception`
  and a fatal `Error`.
- `EntityStore` (`entity_store.dfy`) is the entity service the gateways write
  through. It is a class with these parts:
  - records keyed by entity type, store id and unique id;
  - the table that links entities to their MMS local ids;
  - the order items of each order;
  - snapshots, which serve as the creation transaction.

  Writes to a chosen set of keys fail, so that every error path is reachable.
- `RestCurl` (`rest_curl.dfy`) is the REST client base class. It covers the
  signed `Authorization` value, which is computed once per client. It covers
  header completion and URL building. It covers the query encoding of GET and
  DELETE filters and the JSON body of POST and PUT. It covers the
  classification of the decoded response envelope, including the
  `success` flag.
- `RestV1` (`rest_v1.dfy`) holds the version-1 calls: order ids since a
  cursor, order details, order completion and the stock push.
- `StockGateway` (`stock_gateway.dfy`) pushes the `available` quantity of a
  stock item. It tries the local id first and falls back to the SKU.
  `setStockBySku` is defined on no client (`RestV1.php` has none), and once a
  base URL is set, the push by id always ends in the fatal error of the
  undefined `setPatchfields` (`RestV1.SetStock`,
  `StockGateway.FatalByIdEscapes`). So in the wiring as shipped,
  `writeUpdates` never succeeds.
- `ProductGateway` (`product_gateway.dfy`) gives the sanitised `tmall_bundles`
  attribute and its quantities.
- `MmsConfig` (`mms_config.dfy`) is the store map lookup `getMapByStoreId`.
- `OrderRules` and `OrderData` (`order_rules.dfy`, `order_data.dfy`) are the
  pure rules of the order gateway:
  - the status classes;
  - the unique ids and store ids;
  - bundle SKUs and their multipliers;
  - the name and street splitting;
  - the synthesised e-mail address;
  - the assembly of the order's attribute array from the MMS order data, with
    its totals and exchange rates.
- `OrderGateway` (`order_gateway.dfy`) is the order gateway as a class over the
  store. It covers these operations:
  - the poll cycle `retrieveEntities`;
  - `storeOrderData`, which finds or creates the order, its customer and its
    addresses inside a transaction, updates the order, and moves stock on
    status transitions;
  - `createItems`, which stores the order items and relinks the catalogue
    products and stock items;
  - `updateStockQuantities`.

Side effects the code has no control over are parameters of the model:

- the current timestamp and the nonce;
- the HTTP transport, which is a function from the prepared request to the
  decoded response or an error;
- the cryptographic and JSON primitives;
- the configuration values.

Money amounts are `real`.

## Model

| member | source | states |
|---|---|---|
| PhpStrings.LTrim | src/Mms/Gateway/OrderGateway.php:810 | `ltrim`: the result is a suffix of the input; everything cut is in the character set; the result does not start with one |
| PhpStrings.RTrim | src/Mms/Gateway/OrderGateway.php:989 | `rtrim`: the result is a prefix; everything cut is in the set; the result does not end with one |
| PhpStrings.TrimIsSlice | src/Mms/Gateway/OrderGateway.php:1045 | `trim` yields a slice of the input, only set characters are cut on either side, and the result neither starts nor ends with one |
| PhpStrings.Lower | src/Mms/Api/RestCurl.php:323 | `strtolower` keeps the length and lowers every character |
| PhpStrings.IndexOf | src/Mms/Api/RestCurl.php:160 | `strpos`: -1 exactly when the needle does not occur, otherwise the first position where it occurs |
| PhpStrings.ImplodeExplode | src/Mms/Gateway/ProductGateway.php:47 | `implode($sep, explode($sep, $s)) == $s` for every string |
| PhpStrings.ExplodePiecesAreSeparatorFree | src/Mms/Gateway/ProductGateway.php:47 | no piece of `explode` contains the separator |
| PhpStrings.ExplodeCount | src/Mms/Gateway/OrderGateway.php:802-805 | `explode` on a one-character separator gives one piece more than there are separators |
| PhpStrings.ExplodeImplode | src/Mms/Gateway/OrderGateway.php:802-814 | pieces free of the separator survive `explode(implode(...))` unchanged |
| PhpStrings.StrReplaceAbsent | src/Mms/Api/RestCurl.php:408 | `str_replace` leaves a string without the search text unchanged |
| PhpStrings.StrReplaceOnce | src/Mms/Api/RestCurl.php:408 | a single occurrence of the search text is replaced and nothing else changes |
| PhpStrings.NatToString | src/Mms/Api/RestV1.php:45 | `(string)` of a natural number: a non-empty digit string without a leading zero whose value is the number |
| PhpStrings.LTrimZeros | src/Mms/Gateway/OrderGateway.php:810 | `ltrim($digits, '0')` keeps the digits' value and leaves no leading zero |
| PhpStrings.NatToStringOfDigits | src/Mms/Gateway/OrderGateway.php:810 | a digit string without a leading zero is `(string)` of its own value |
| PhpStrings.IntToStringInjective | src/Mms/Api/RestV1.php:45 | two integers with the same decimal text are equal |
| PhpStrings.ByteLength | src/Mms/Gateway/OrderGateway.php:1101 | `strlen` counts at least one byte per character and is 0 only for the empty string |
| PhpStrings.StripNonWord | src/Mms/Gateway/OrderGateway.php:1119 | `preg_replace('#\W+#', '', $s)` keeps only word characters and never lengthens the string |
| PhpStrings.StripNonWordAppend | src/Mms/Gateway/OrderGateway.php:1119 | stripping distributes over concatenation |
| PhpStrings.StripNonWordKeepsWords | src/Mms/Gateway/OrderGateway.php:1134 | a string of word characters is kept as it is |
| PhpStrings.StripSpace | src/Mms/Gateway/ProductGateway.php:27 | `preg_replace('#\s+#', '', $s)` leaves no white space and never lengthens the string |
| PhpStrings.StripSpaceKeeps | src/Mms/Gateway/ProductGateway.php:27 | a string without white space is kept as it is |
| PhpStrings.Utf8Bytes | src/Mms/Api/RestCurl.php:323 | the UTF-8 encoding of a character is 1 to 4 bytes, one byte exactly for ASCII |
| PhpStrings.UrlencodeChar | src/Mms/Api/RestCurl.php:503-504 | `urlencode` keeps a character exactly when it is URL-safe; a space becomes `+` |
| PhpStrings.UrlencodeFixpoint | src/Mms/Api/RestCurl.php:515 | `urlencode($s) == $s` exactly when every character of `$s` is URL-safe |
| PhpValues.LookupMeaning | src/Mms/Gateway/OrderGateway.php:333 | `$a[$k]` is NULL when no entry has the key, and otherwise the value of an entry with that key |
| PhpValues.LookupFirst | src/Mms/Gateway/OrderGateway.php:333 | the lookup finds the first entry with the key |
| PhpValues.Replace | src/Mms/Gateway/OrderGateway.php:457 | `$a[$k] = $x` makes the key read `$x`, keeps every other key, and appends only a new key |
| PhpValues.ReplaceKeys | src/Mms/Gateway/OrderGateway.php:457 | the assignment adds only its own key and keeps keys distinct |
| PhpValues.LookupDistinct | src/Mms/Gateway/OrderGateway.php:333 | in an array with distinct keys every key reads its own entry |
| PhpValues.Set | src/Mms/Api/RestCurl.php:424-428 | `$v[$k] = $x` on an array, NULL or FALSE makes the key read `$x` and keeps the other keys; any other scalar is unchanged |
| PhpValues.Elements | src/Mms/Gateway/OrderGateway.php:727 | `foreach` visits the values of an array in order, and nothing for a scalar |
| PhpValues.List | src/Mms/Api/RestV1.php:108-111 | an appended list holds exactly the given values |
| PhpValues.TruthyString | src/Mms/Gateway/ProductGateway.php:37 | `(bool)` of a string is true exactly when it is neither empty nor "0" |
| PhpValues.Clamp | src/Mms/Api/RestV1.php:45 | integers saturate at PHP_INT_MIN and PHP_INT_MAX and are kept in range |
| PhpValues.StrIntval | src/Mms/Api/RestV1.php:45 | `intval` of a string lies within the 64-bit range |
| PhpValues.DecimalTextIsNumeric | src/Mms/Api/RestV1.php:45 | a decimal integer text is numeric, reads as its value, and `intval` gives that value saturated |
| PhpValues.DigitsIntval | src/Mms/Gateway/OrderGateway.php:810-811 | `intval` of a digit string is the digits' value, saturated |
| PhpValues.LooseEqReflexive | src/Mms/Gateway/StockGateway.php:95 | every value is loosely equal (`==`) to itself |
| PhpValues.TrailingDashNotNumeric | src/Mms/Gateway/OrderGateway.php:989 | a string ending in `-` is not numeric |
| PhpValues.LooseEqStrings | src/Mms/Api/RestCurl.php:515 | a non-numeric string is loosely equal to another string exactly when they are identical |
| PhpValues.InArrayStrings | src/Mms/Gateway/OrderGateway.php:118 | `in_array` of a non-numeric string over strings is plain membership |
| EntityStore.Attr | src/Mms/Gateway/OrderGateway.php:383 | `getData($code, $default)` is the attribute when it is set and not NULL, and the default otherwise |
| EntityStore.RelinkKeepsTable | src/Mms/Gateway/OrderGateway.php:602 | linking keeps the link table a bijection and links the entity to the new local id |
| EntityStore.RelinkKeepsOthers | src/Mms/Gateway/OrderGateway.php:602 | linking keeps every other link that did not hold that local id for that type |
| EntityStore.Store.Load | src/Mms/Gateway/OrderGateway.php:373-377 | `loadEntity` finds the record exactly when one is stored under the key |
| EntityStore.Store.LoadLocal | src/Mms/Gateway/OrderGateway.php:570-575 | `loadEntityLocal` returns the entity linked to the local id, and only when it belongs to the requested store |
| EntityStore.Store.LocalId | src/Mms/Gateway/OrderGateway.php:855 | `getLocalId` is the linked local id, or none |
| EntityStore.Store.LocalIdValue | src/Mms/Api/RestCurl.php:620-627 | the local id as PHP sees it: the id string, or NULL when the entity is unlinked |
| EntityStore.Store.Items | src/Mms/Gateway/OrderGateway.php:676 | `getOrderitems` lists the items created under the order, in creation order |
| EntityStore.Store.Save | src/Mms/Gateway/OrderGateway.php:587 | the snapshot taken at `beginEntityTransaction` is the whole state |
| EntityStore.Store.Restore | src/Mms/Gateway/OrderGateway.php:616 | `rollbackEntityTransaction` restores exactly the snapshot |
| EntityStore.Store.Create | src/Mms/Gateway/OrderGateway.php:594-600 | `createEntity` succeeds exactly for a new, writable key; it stores the record, appends it to its parent's items, and changes nothing on failure |
| EntityStore.Store.Update | src/Mms/Gateway/OrderGateway.php:671 | `updateEntity` merges the data over the stored attributes of an existing writable entity; it changes nothing on failure |
| EntityStore.Store.Link | src/Mms/Gateway/OrderGateway.php:602 | `linkEntity` links an existing writable entity, takes the local id from the entity of the same type that held it, keeps every other link, and changes nothing on failure |
| EntityStore.Store.Unlink | src/Mms/Gateway/OrderGateway.php:857 | `unlinkEntity` removes exactly the entity's link and its reverse entry |
| RestCurl.VerbNameInjective | src/Mms/Api/RestCurl.php:437-486 | the five verbs have distinct `Request::METHOD_*` names |
| RestCurl.UcFirst | src/Mms/Api/RestCurl.php:369 | `ucfirst` keeps the length |
| RestCurl.EncoderFor | src/Mms/Api/RestCurl.php:369 | the encoder `call` reaches exists exactly when the built setter name is one the class declares: the URL-parameter encoder for GET and DELETE, the JSON body for POST and PUT, none for PATCH |
| RestCurl.SetterNameGet | src/Mms/Api/RestCurl.php:571-574 | GET reaches `setGetfields` |
| RestCurl.SetterNamePost | src/Mms/Api/RestCurl.php:580-584 | POST reaches `setPostfields` |
| RestCurl.SetterNamePut | src/Mms/Api/RestCurl.php:590-594 | PUT reaches `setPutfields` |
| RestCurl.SetterNameDelete | src/Mms/Api/RestCurl.php:562-565 | DELETE reaches `setDeletefields` |
| RestCurl.SetterNamePatch | src/Mms/Api/RestCurl.php:369 | PATCH builds `setPatchfields`, which the class does not declare |
| RestCurl.GetHeaders | src/Mms/Api/RestCurl.php:155-170 | the header list is returned unchanged when a line names `cache-control:` (in any case), and otherwise gets `Cache-Control: no-cache` appended |
| RestCurl.SignatureData | src/Mms/Api/RestCurl.php:323-328 | the signed text starts with the app id, the verb and the lower-cased, URL-encoded URL |
| RestCurl.AuthorisationValue | src/Mms/Api/RestCurl.php:336 | the cached value starts with `Authorization: mms ` followed by the app id and a colon |
| RestCurl.AuthorisationTimestamp | src/Mms/Api/RestCurl.php:324-336 | the last colon-separated field of the value is the timestamp |
| RestCurl.AuthorisationDistinguishesTimestamps | src/Mms/Api/RestCurl.php:324-336 | values computed at different timestamps differ |
| RestCurl.AuthorisationFields | src/Mms/Api/RestCurl.php:328-336 | with colon-free app id, signature and nonce, the value splits on `:` into the header name, ` mms ` plus the app id, the signature, the nonce and the timestamp |
| RestCurl.Placeholder | src/Mms/Api/RestCurl.php:406 | each parameter's placeholder `"%n"` is non-empty |
| RestCurl.SubstituteOne | src/Mms/Api/RestCurl.php:403-409 | a message with one placeholder and one parameter gets the parameter's text in backquotes in its place |
| RestCurl.SubstituteNothing | src/Mms/Api/RestCurl.php:403-409 | a message without placeholders is kept as it is |
| RestCurl.MarkSuccess | src/Mms/Api/RestCurl.php:424-428 | `success` is set TRUE exactly when `StatusCode` is set and loosely equals 200; every other key is kept |
| RestCurl.Classify | src/Mms/Api/RestCurl.php:400-428 | an envelope with `items` returns them marked; one with `message` throws a GatewayException with the prefix and the substituted message; anything else is returned marked |
| RestCurl.ClassifyPlainEnvelope | src/Mms/Api/RestCurl.php:424-428 | a plain envelope is returned, with `success` as its status code says and every other key kept |
| RestCurl.Stored | src/Mms/Api/RestCurl.php:523-534 | the value stored for a filter pair is the value itself or its escaped form |
| RestCurl.KeyAcceptedPlain | src/Mms/Api/RestCurl.php:503-515 | a non-numeric key is accepted exactly when `urlencode` leaves it unchanged |
| RestCurl.StoredPlain | src/Mms/Api/RestCurl.php:523-529 | a non-numeric string value is stored URL-encoded, and it is unchanged exactly when it is URL-safe |
| RestCurl.RunPairsRejects | src/Mms/Api/RestCurl.php:502-522 | one filter throws exactly when one of its keys is rejected, with the message `<verb> field key-value pair is not valid.` |
| RestCurl.Positions | src/Mms/Api/RestCurl.php:534 | the query positions of a filter are exactly its filter key paired with each of its keys |
| RestCurl.RunPairsPositions | src/Mms/Api/RestCurl.php:502-534 | an accepted filter adds exactly its positions and keeps the positions of the other filters |
| RestCurl.RunPairsValues | src/Mms/Api/RestCurl.php:534 | with distinct keys, each position holds its pair's stored value |
| RestCurl.RunPairsUntouched | src/Mms/Api/RestCurl.php:534 | a position that no pair of the filter names keeps its value |
| RestCurl.RunGroupsMeaning | src/Mms/Api/RestCurl.php:497-556 | the filters throw exactly when some key of some group is rejected; otherwise the result is TRUE exactly when a query was sent, which happens whenever there is a group |
| RestCurl.RestClient.constructor | src/Mms/Api/RestCurl.php:101-105 | a valid client over the node's configuration, with no authorisation, request type or request yet |
| RestCurl.RestClient.GetUrl | src/Mms/Api/RestCurl.php:177-195 | an empty base throws `No base url defined (…)`; otherwise the base without leading or trailing slashes, a slash and the call type |
| RestCurl.RestClient.Authorise | src/Mms/Api/RestCurl.php:317-355 | the value is computed once: a cached value is kept; otherwise a URL error is passed on, or the value for this verb, URL, timestamp and nonce is cached |
| RestCurl.RestClient.SetUrlParameters | src/Mms/Api/RestCurl.php:493-556 | FALSE before a request type is set; TRUE without a filter; otherwise the outcome of the filter loop, with the last built query placed on the request |
| RestCurl.RestClient.Prepare | src/Mms/Api/RestCurl.php:363-388 | authorises at most once, records the upper-case request type, and builds the request with its URI and headers, or passes on the URL error |
| RestCurl.RestClient.Call | src/Mms/Api/RestCurl.php:363-431 | authorises at most once and returns exactly the outcome of the URL, encoder, transport and envelope steps taken in the state before the call |
| RestV1.NewClient | src/Mms/Api/RestV1.php:20-21 | the version-1 client runs in test mode against the staging base URI |
| RestV1.TestUrl | src/Mms/Api/RestV1.php:21 | in test mode, the URL is the staging host, a slash and the call type |
| RestV1.OrderIdsSinceMeaning | src/Mms/Api/RestV1.php:52-64 | the result always holds `newSinceId` and `localOrderIds`: the response's `new_since_id` and `order_ids` on success, and otherwise the given cursor and an empty list |
| RestV1.OrderIdsSinceWithoutResponse | src/Mms/Api/RestV1.php:45-62 | without a call, the result is the fallback |
| RestV1.IntegerSinceId | src/Mms/Api/RestV1.php:45 | an integer cursor passes the `(string) intval` check |
| RestV1.TrailingLetterSinceId | src/Mms/Api/RestV1.php:45 | `"5x"` does not pass the check |
| RestV1.CopyIds | src/Mms/Api/RestV1.php:56-58 | the copy loop maps `new_since_id` and `order_ids` from `Result` to the two result keys, in that order |
| RestV1.SinceResult | src/Mms/Api/RestV1.php:52-64 | the method computes the specified cursor result |
| RestV1.SinceOutcomeShape | src/Mms/Api/RestV1.php:52-64 | a cursor result always has exactly the two keys, so its count is 2 |
| RestV1.GetOrderIdsSinceResult | src/Mms/Api/RestV1.php:43-65 | a cursor that fails the integer check returns the fallback without a call; otherwise the call's outcome mapped to the cursor result; a result always has two keys |
| RestV1.FieldNames | src/Mms/Api/RestV1.php:77 | the field names are the texts of the parameters, in order |
| RestV1.DetailsFieldsSplit | src/Mms/Api/RestV1.php:76-78 | comma-free field names come back from the `fields` parameter split at commas |
| RestV1.DetailsFieldsNotSent | src/Mms/Api/RestV1.php:76-79 | the GET encoder leaves the request unchanged for the `fields` parameter, so the requested fields never reach MMS |
| RestV1.OrderDetailsMeaning | src/Mms/Api/RestV1.php:81-87 | the details are `Result` when the call succeeded and set it, and otherwise an empty, false array |
| RestV1.GetOrderDetailsById | src/Mms/Api/RestV1.php:72-88 | calls `orders/<id>` and returns the details of the outcome, or the error it threw |
| RestV1.Refs | src/Mms/Api/RestV1.php:108-111 | one item reference per order item |
| RestV1.CompletionParametersMeaning | src/Mms/Api/RestV1.php:108-118 | the completion parameters carry the order's local id, its tracking code, and the local id of each of its items, in order |
| RestV1.PostSendsJson | src/Mms/Api/RestCurl.php:580-584 | POST puts the JSON encoding of the parameters into the request content |
| RestV1.ItemRefs | src/Mms/Api/RestV1.php:108-111 | the loop builds the specified item references |
| RestV1.CompleteOrder | src/Mms/Api/RestV1.php:106-123 | POSTs `fulfillments/complete` with the completion parameters and returns the outcome's `success` |
| RestV1.StockResultMeaning | src/Mms/Api/RestV1.php:130-157 | the parameters carry `available_quantity` and `market_place`; the new stock is the quantity sent on success and NULL otherwise |
| RestV1.PatchAlwaysFails | src/Mms/Api/RestCurl.php:369 | a PATCH exchange always ends in the fatal error of the undefined `setPatchfields()` |
| RestV1.SetStock | src/Mms/Api/RestV1.php:130-157 | PATCHes `variations/<id>/inventory`; the outcome always throws, and it is the fatal undefined-method error once a base URL is configured |
| StockGateway.AvailableAmongCodes | src/Mms/Gateway/StockGateway.php:69 | the update is taken exactly when `available` is among the attribute codes |
| StockGateway.SkippedWithoutAvailable | src/Mms/Gateway/StockGateway.php:122-128 | without `available`, the push is skipped and succeeds with no call |
| StockGateway.FailsWithoutRest | src/Mms/Gateway/StockGateway.php:111-121 | without a REST client the push fails with no call |
| StockGateway.ByIdFirst | src/Mms/Gateway/StockGateway.php:74-92 | with a local id, the push calls by id first, and falls back to the SKU call exactly when the id call gave no matching stock |
| StockGateway.BySkuWithoutLocalId | src/Mms/Gateway/StockGateway.php:83-92 | without a local id, the only call is by SKU |
| StockGateway.SuccessMeaning | src/Mms/Gateway/StockGateway.php:72-110 | the push succeeds exactly when the final stock loosely equals `available`; it throws exactly when a call reached raised a fatal error, and only then |
| StockGateway.FatalByIdEscapes | src/Mms/Gateway/StockGateway.php:75-77 | a fatal error of the call by id escapes both `catch (\Exception)` blocks, after that one call |
| ProductGateway.SanitisedTmallBundles | src/Mms/Gateway/ProductGateway.php:25-29 | the sanitised attribute holds no white space |
| ProductGateway.SanitisedIsStable | src/Mms/Gateway/ProductGateway.php:27 | sanitising is idempotent |
| ProductGateway.IsMmsEntityMeaning | src/Mms/Gateway/ProductGateway.php:35-39 | a product is an MMS bundle exactly when the sanitised string is neither empty nor "0" |
| ProductGateway.TmallQuantitiesMeaning | src/Mms/Gateway/ProductGateway.php:45-49 | one quantity more than commas; no quantity holds a comma; the quantities join back to the sanitised string |
| ProductGateway.UnsetBundles | src/Mms/Gateway/ProductGateway.php:27-47 | a product without the attribute is no bundle and has the single empty quantity |
| ProductGateway.SingleQuantity | src/Mms/Gateway/ProductGateway.php:47 | a comma-free string is one quantity, as it stands |
| MmsConfig.FlipIntoBound | src/Mms/Service/MmsConfigService.php:49 | `array_flip` never has more entries than its input |
| MmsConfig.FlipIntoCount | src/Mms/Service/MmsConfigService.php:49-51 | flipping adds one entry per entry exactly when every value flips to a new key |
| MmsConfig.FlipCount | src/Mms/Service/MmsConfigService.php:51 | `count($map) == count(array_flip($map))` exactly when the map is invertible |
| MmsConfig.FlipIntoOthers | src/Mms/Service/MmsConfigService.php:49 | keys that no value names are untouched by the flip |
| MmsConfig.FlipInverts | src/Mms/Service/MmsConfigService.php:49 | an invertible map flips into its inverse: each value leads back to its key |
| MmsConfig.FlipIntoDistinct | src/Mms/Service/MmsConfigService.php:49 | the flipped array has distinct keys |
| MmsConfig.ReplaceRecursiveOthers | src/Mms/Service/MmsConfigService.php:58-60 | `array_replace_recursive` keeps the base's entry for keys the replacement does not name |
| MmsConfig.ReplaceRecursiveScalars | src/Mms/Service/MmsConfigService.php:58-60 | a scalar entry of the replacement ends up as it is |
| MmsConfig.ReplaceRecursiveDistinct | src/Mms/Service/MmsConfigService.php:58-60 | the merge keeps keys distinct |
| MmsConfig.StoreStep | src/Mms/Service/MmsConfigService.php:44-61 | one turn of the `foreach` computes the specified step |
| MmsConfig.GetMapByStoreId | src/Mms/Service/MmsConfigService.php:35-67 | the loop returns the specified store map |
| MmsConfig.NonNumericStoreId | src/Mms/Service/MmsConfigService.php:40-41 | a non-numeric store id, when reading from Magento, gives the empty map |
| MmsConfig.StoreMatching | src/Mms/Service/MmsConfigService.php:44-47 | FALSE matches every store; otherwise, when not reading from Magento, an integer id matches the absolute store id of a store that has the entity type |
| MmsConfig.ContributionMeaning | src/Mms/Service/MmsConfigService.php:48-61 | a store contributes exactly when its entity map is an invertible array: as it is when reading from Magento, inverted otherwise |
| MmsConfig.StepMeaning | src/Mms/Service/MmsConfigService.php:43-62 | one store keeps the keys distinct, keeps every scalar entry already gathered, and adds its contribution for new keys |
| MmsConfig.MergeKeepsEarlier | src/Mms/Service/MmsConfigService.php:43-64 | over the remaining stores, a scalar entry gathered earlier is never overwritten |
| OrderRules.InArrayWords | src/Mms/Gateway/OrderGateway.php:118-121 | `in_array` over the status lists, which hold words starting with a letter, is plain membership |
| OrderRules.RetrievedStatus | src/Mms/Gateway/OrderGateway.php:116-128 | an order is retrieved exactly when its status is not `shipped`, `completed` or `closed`, and it is not `partially shipped` while the cursor loosely equals 1 |
| OrderRules.MissingStatusRetrieved | src/Mms/Gateway/OrderGateway.php:154-169 | an order without a status is always retrieved |
| OrderRules.StatusClasses | src/Mms/Gateway/OrderGateway.php:134-138 | a status is shippable exactly when it is one of the four shippable statuses, and closed exactly when it is `closed`; no status is both |
| OrderRules.MmsOrderIds | src/Mms/Gateway/OrderGateway.php:144-148 | `isMmsOrder` holds exactly for unique ids starting with `M`, so it holds for every unique id built from order data |
| OrderRules.UniqueIdInjective | src/Mms/Gateway/OrderGateway.php:432-436 | two orders get the same unique id exactly when their marketplace order references read the same |
| OrderRules.StoreIdsDistinct | src/Mms/Gateway/OrderGateway.php:232-240 | a scalar marketplace id gives the prefix followed by the id, so different ids give different store ids |
| OrderRules.EntityStores | src/Mms/Gateway/OrderGateway.php:212-226 | the global store is "0"; otherwise an order's own store, an integer's decimal text, or none for anything else |
| OrderRules.ShippingMethodMeaning | src/Mms/Gateway/OrderGateway.php:331-340 | an item has a shipping method exactly when its `shipping_type` is `direct_mail`, and then it is the tracked EMS method |
| OrderRules.SplitBundleSku | src/Mms/Gateway/OrderGateway.php:799-820 | the bundle multiplier is always at least 1 (its meaning is stated by `SplitPiecesMeaning`) |
| OrderRules.SplitPiecesMeaning | src/Mms/Gateway/OrderGateway.php:802-820 | with more than one piece and a last piece that is an unsigned positive integer, the SKU is the rest rejoined and the multiplier is that integer; otherwise the raw SKU with multiplier 1 |
| OrderRules.MultiplierAccepted | src/Mms/Gateway/OrderGateway.php:810-813 | an accepted multiplier text passes the `(string) intval(...) === ltrim(..., '0')` test with a positive value equal to its digits |
| OrderRules.MultiplierOnly | src/Mms/Gateway/OrderGateway.php:810-813 | only digit texts with a positive value pass the test |
| OrderRules.MultiplierCheck | src/Mms/Gateway/OrderGateway.php:810-813 | the test holds exactly for digit texts of positive value, and the multiplier is then the digits' value |
| OrderRules.BundleSkuRoundTrip | src/Mms/Gateway/OrderGateway.php:802-814 | for a one-character separator that is not a digit, base + separator + multiplier text splits back into the base and the multiplier |
| OrderRules.PlainSkuKept | src/Mms/Gateway/OrderGateway.php:803-816 | a SKU without the separator is kept with multiplier 1 |
| OrderRules.NoDigitEndKept | src/Mms/Gateway/OrderGateway.php:810-816 | a SKU that does not end in a digit is kept with multiplier 1 |
| OrderRules.FallbackSkuKept | src/Mms/Gateway/OrderGateway.php:829 | the fallback SKU `<undefined on mms>`, when it carries over, splits into itself with multiplier 1 |
| OrderRules.ItemSku | src/Mms/Gateway/OrderGateway.php:791-830 | every item ends with a SKU, and with a multiplier whenever it or an earlier item named a SKU |
| OrderRules.LaterItemsInherit | src/Mms/Gateway/OrderGateway.php:791-799 | after the first item a SKU is always set, and an item that names none splits the SKU carried over from the item before |
| OrderRules.SpreadBack | src/Mms/Gateway/OrderGateway.php:909-918 | a row amount spread over a positive bundle quantity multiplies back to itself, and over no quantity stays whole |
| OrderRules.AmountsMeaning | src/Mms/Gateway/OrderGateway.php:909-931 | with a multiplier, the quantity is ordered × multiplier; tax and discount are spread per unit; the total price is payment plus discount; the item price is price / multiplier plus the unit discount |
| OrderRules.AmountsWithoutMultiplier | src/Mms/Gateway/OrderGateway.php:909-931 | with no multiplier ever set, the quantity is 0, the amounts stay whole, and the item price is left out exactly when a price is given |
| OrderRules.TrimAll | src/Mms/Gateway/OrderGateway.php:1045 | `array_map('trim', ...)` trims every piece and keeps their number |
| OrderRules.TrimKeeps | src/Mms/Gateway/OrderGateway.php:1045 | `trim` keeps an already trimmed string |
| OrderRules.TrimIsTrimmed | src/Mms/Gateway/OrderGateway.php:1045 | the result of `trim` is trimmed |
| OrderRules.NameRoundTrip | src/Mms/Gateway/OrderGateway.php:1043-1053 | a name of clean words joined by spaces splits into its last word, its first word when there are two or more, and the middle words rejoined when there are three or more |
| OrderRules.StreetLinesTrimmed | src/Mms/Gateway/OrderGateway.php:1217-1227 | both street lines are trimmed |
| OrderRules.StreetLinesBack | src/Mms/Gateway/OrderGateway.php:1217-1232 | with two non-empty lines free of newlines, the street is the two lines joined by a newline, and it splits back into them |
| OrderRules.StreetOneLine | src/Mms/Gateway/OrderGateway.php:1228-1232 | with an empty second line, the street is the first line, or NULL when that is empty too |
| OrderRules.AddressAttrsParts | src/Mms/Gateway/OrderGateway.php:1230-1238 | the address attributes carry the street and the split name |
| OrderRules.AddressNameBack | src/Mms/Gateway/OrderGateway.php:1230 | an address name of clean words gives its last word as the last name and its first word as the first name (NULL for one word) |
| OrderRules.AddressStreetBack | src/Mms/Gateway/OrderGateway.php:1217-1232 | the stored street splits back into the two street lines |
| OrderRules.CustomerNameBack | src/Mms/Gateway/OrderGateway.php:1147-1153 | a customer name of clean words gives its last word as the last name and its first word as the first name (NULL for one word) |
| OrderRules.CustomerAttrsParts | src/Mms/Gateway/OrderGateway.php:1151-1153 | the customer attributes are the split name and the type `MMS customer` |
| OrderRules.Take | src/Mms/Gateway/OrderGateway.php:1134 | `substr($s, 0, $n)` is the prefix of at most `n` characters, and the whole string when it is short enough |
| OrderRules.LocalPartShape | src/Mms/Gateway/OrderGateway.php:1134 | the stripped and cut local part keeps its word-character prefix, holds only word characters, and stays within the bound |
| OrderRules.LowerShape | src/Mms/Gateway/OrderGateway.php:1134 | lower-casing the local part and the domain keeps the domain and leaves no upper-case letter |
| OrderRules.EmailShapeOf | src/Mms/Gateway/OrderGateway.php:1134 | the synthesised address ends in the domain, and its local part starts with the prefix, is within the bound, and holds lower-case word characters only |
| OrderRules.SynthesizedShapeOf | src/Mms/Gateway/OrderGateway.php:1101-1134 | the same shape, and the synthesised address is long enough never to need synthesis again |
| OrderRules.SynthesizedEmailShape | src/Mms/Gateway/OrderGateway.php:1101-1134 | every synthesised address ends in `@noemail.healthpost.co.nz` and has a local part of 3 to 103 lower-case word characters starting with `tm_`, so it never needs synthesis again |
| OrderRules.FirstSetMeaning | src/Mms/Gateway/OrderGateway.php:453-461 | the first address that sets the key gives the value, and there is none exactly when no address sets it |
| OrderRules.OrderShipsTracked | src/Mms/Gateway/OrderGateway.php:499-501 | when the items give no shipping method or the tracked one, the order's `shipping_method` is the tracked EMS method |
| OrderRules.OrderTotalsStored | src/Mms/Gateway/OrderGateway.php:508-536 | `grand_total` is the summed payment, `shipping_total` is 0, and neither `price_total` nor `payment_total` is stored |
| OrderRules.OrderStatusStored | src/Mms/Gateway/OrderGateway.php:534 | the order's status attribute is the status of the order data |
| OrderRules.FirstShippingIsMapped | src/Mms/Gateway/OrderGateway.php:499-501 | the shipping method taken from the items is NULL or the tracked EMS method |
| OrderData.FirstSetAppend | src/Mms/Gateway/OrderGateway.php:453-461 | one more address changes the first set value only when none was set before |
| OrderData.CopyAddressFields | src/Mms/Gateway/OrderGateway.php:453-461 | the nested loops copy, for each mapped field, the value of the first address that sets it, and nothing else |
| OrderData.CopyAddress | src/Mms/Gateway/OrderGateway.php:455-459 | one address extends the copy without overwriting a field already copied |
| OrderData.FirstShippingAppend | src/Mms/Gateway/OrderGateway.php:499-501 | the shipping method is taken from a later item only while none is set |
| OrderData.CodeTotalAppend | src/Mms/Gateway/OrderGateway.php:470-484 | one more item adds its counted row amount to each code's total |
| OrderData.SumItems | src/Mms/Gateway/OrderGateway.php:463-503 | the item loop yields each code's total (quantity × price for `price`, raw values otherwise, only over items with quantity and financials), the rate base (the price sum when the rate is positive, else 0), the weighted rate sum, and the first shipping method |
| OrderData.AddItem | src/Mms/Gateway/OrderGateway.php:469-502 | one item keeps the sums equal to the reference totals over the items seen |
| OrderData.AddRate | src/Mms/Gateway/OrderGateway.php:486-496 | one item keeps the rate base and the weighted sum in step with the price sum |
| OrderData.AddShipping | src/Mms/Gateway/OrderGateway.php:499-501 | one item keeps the first shipping method |
| OrderData.PriceSumAppend | src/Mms/Gateway/OrderGateway.php:494-495 | the price sum grows by the row price of a counted item only |
| OrderData.AddItemTotals | src/Mms/Gateway/OrderGateway.php:473-484 | one item adds its row to every code's total and yields its price row |
| OrderData.AddWeighted | src/Mms/Gateway/OrderGateway.php:493-496 | adding a price keeps the weighted sum equal to rate × base |
| OrderData.AddRow | src/Mms/Gateway/OrderGateway.php:473-484 | each code's total grows by that code's row amount, 0 when unset |
| OrderData.RateDivided | src/Mms/Gateway/OrderGateway.php:505-507 | the division gives the specified base-to-currency rate |
| OrderData.TotalsWrittenAll | src/Mms/Gateway/OrderGateway.php:510-513 | the loop writes every `<code>_total` |
| OrderData.WriteTotals | src/Mms/Gateway/OrderGateway.php:510-513 | each code's total is stored under `<code>_total` |
| OrderData.DefaultedAll | src/Mms/Gateway/OrderGateway.php:528-532 | the defaults loop gives the specified defaults |
| OrderData.DefaultsMeaning | src/Mms/Gateway/OrderGateway.php:528-532 | `customer_email` and `shipping_method` are always set, each keeping its set value or taking its default; nothing else changes |
| OrderData.DefaultsCommute | src/Mms/Gateway/OrderGateway.php:528-532 | writing another attribute before or after the defaults gives the same array |
| OrderData.ApplyDefaults | src/Mms/Gateway/OrderGateway.php:528-532 | the loop applies the specified defaults |
| OrderData.CopiedAddressPart | src/Mms/Gateway/OrderGateway.php:453-461 | the copied fields are exactly the first address name and e-mail |
| OrderData.StoreTotals | src/Mms/Gateway/OrderGateway.php:510-526 | the totals are written, `shipping_total` is 0, and `price_total` and `payment_total` give way to `payment_method` |
| OrderData.DefaultsAfterTotals | src/Mms/Gateway/OrderGateway.php:510-532 | the defaults do not interfere with the totals |
| OrderData.AddressDefaults | src/Mms/Gateway/OrderGateway.php:453-532 | the order's name, e-mail and shipping method are the first set ones, or the defaults |
| OrderData.FinishOrder | src/Mms/Gateway/OrderGateway.php:505-537 | the remaining steps give the specified order attributes |
| OrderData.AssembleOrder | src/Mms/Gateway/OrderGateway.php:447-537 | the order's attribute array is the reference assembly of the order data's items, rate, shipping, payment and time of placing |
| OrderGateway.FirstMatchIsFirst | src/Mms/Gateway/OrderGateway.php:993-1002 | the address the lookup loop stops at matches the language, and no earlier address does |
| OrderGateway.MatchesMeaning | src/Mms/Gateway/OrderGateway.php:994-996 | an address matches when it has a `language_code` whose lower-cased prefix of the key's length loosely equals the key, or when no language is asked for |
| OrderGateway.MemoKeepsEntries | src/Mms/Gateway/OrderGateway.php:1006 | a lookup adds or replaces only its own memo entry |
| OrderGateway.MemoIdempotent | src/Mms/Gateway/OrderGateway.php:991-1009 | once an answer is memoised, asking again for the same language gives the same address, draws no new id, and leaves the memo as it is, whatever addresses are passed later |
| OrderGateway.MemoFirst | src/Mms/Gateway/OrderGateway.php:991-1006 | a first lookup gives `[]` without drawing an id when no address matches; otherwise the first matching address with a fresh `address_id` (one id drawn), every other field copied |
| OrderGateway.StockAttribute | src/Mms/Gateway/OrderGateway.php:361-367 | the stock attribute is `qty_pre_transit` for a shippable status, `available` for a closed one, and none otherwise |
| OrderGateway.StockUpdateMeaning | src/Mms/Gateway/OrderGateway.php:347-430 | only the item's stock item can change; nothing changes unless the update succeeds, and then the chosen attribute (0 when unset) grows by the item's quantity and no other attribute changes |
| OrderGateway.StockFoldKeeps | src/Mms/Gateway/OrderGateway.php:674-679 | the stock updates over an order's items change no record other than stock items |
| OrderGateway.StockFoldAdds | src/Mms/Gateway/OrderGateway.php:674-679 | after the updates, each writable stock item's counter has grown by the summed quantity of the items that point to it |
| OrderGateway.StockFoldIdle | src/Mms/Gateway/OrderGateway.php:361-367 | for a status that is neither shippable nor closed the updates change nothing |
| OrderGateway.LanguageKeys | src/Mms/Gateway/OrderGateway.php:989 | the memo keys of `en`, `zh` and no language are `en-`, `zh-` and the empty key |
| OrderGateway.ThreeLookups | src/Mms/Gateway/OrderGateway.php:1060-1064 | three lookups under distinct keys each answer as if made on the memo before the others |
| OrderGateway.LookupsInOrder | src/Mms/Gateway/OrderGateway.php:1060-1064 | the English, Chinese and first-address lookups made in that order give the specified addresses, leave the specified memo and draw the specified number of ids |
| OrderGateway.LookupsIdempotent | src/Mms/Gateway/OrderGateway.php:991-1009 | repeating the three address lookups gives the same addresses, draws no id and leaves the memo as it is |
| OrderGateway.FirstSetOfThree | src/Mms/Gateway/OrderGateway.php:1062-1070 | the first set field of English, Chinese and first address is that of the first one that sets it |
| OrderGateway.CustomerNameMeaning | src/Mms/Gateway/OrderGateway.php:1060-1079 | the name is taken from the English, else the Chinese, else the first address; with none set it throws the "no name" exception |
| OrderGateway.CustomerEmailCases | src/Mms/Gateway/OrderGateway.php:1085-1138 | a usable found e-mail is returned as it is; otherwise the synthesised address, or the name's exception when there is no name |
| OrderGateway.CustomerEmailUsable | src/Mms/Gateway/OrderGateway.php:1085-1138 | the e-mail returned never needs synthesis and is truthy; it fails exactly when synthesis is needed and there is no name; a synthesised one ends in the no-e-mail domain with a local part of 3 to 103 characters |
| OrderGateway.HasAddressIdMeaning | src/Mms/Gateway/OrderGateway.php:1209-1211 | an address entity is written exactly when `address_id` is present and not loosely equal to NULL |
| OrderGateway.AddressEntityStored | src/Mms/Gateway/OrderGateway.php:1207-1244 | no `address_id` gives NULL; otherwise the entity `order-<reference>[-<kind>]` is found or created with the attributes; it throws only when it cannot be created; existing records are kept and only that key is added |
| OrderGateway.AddressKindsDistinct | src/Mms/Gateway/OrderGateway.php:1213 | the shared, billing and shipping address entities of an order have distinct unique ids |
| OrderGateway.AddressesFatal | src/Mms/Gateway/OrderGateway.php:1176-1178 | with neither an English nor a Chinese address the call to `getFirstAddressArray()` without its argument is fatal, and it is the only fatal path |
| OrderGateway.SharedWriteThrows | src/Mms/Gateway/OrderGateway.php:1184-1187 | writing one shared address can only throw an ordinary exception |
| OrderGateway.SeparateWriteThrows | src/Mms/Gateway/OrderGateway.php:1188-1192 | writing separate addresses can only throw an ordinary exception |
| OrderGateway.AddressesShared | src/Mms/Gateway/OrderGateway.php:1179-1187 | with only one language present, that address serves as both billing and shipping |
| OrderGateway.SharedWriteAnswers | src/Mms/Gateway/OrderGateway.php:1184-1187 | one shared entity is written and returned as both `billing_address` and `shipping_address` (NULL without `address_id`) |
| OrderGateway.AddressesSeparate | src/Mms/Gateway/OrderGateway.php:1188-1192 | with billing and shipping data that differ, the billing entity is written first and the shipping entity second |
| OrderGateway.AddressesOnlyAdd | src/Mms/Gateway/OrderGateway.php:1168-1198 | writing addresses keeps every record and adds only the order's shared, billing or shipping address |
| OrderGateway.SharedWriteKeeps | src/Mms/Gateway/OrderGateway.php:1184-1187 | a shared address write keeps every record and adds at most the order's shared address |
| OrderGateway.SeparateWriteKeeps | src/Mms/Gateway/OrderGateway.php:1188-1192 | separate address writes keep every record and add at most the order's billing and shipping addresses |
| OrderGateway.CustomerCreated | src/Mms/Gateway/OrderGateway.php:1145-1161 | a created customer is a new customer entity that was not refused |
| OrderGateway.CustomerCreatedMeaning | src/Mms/Gateway/OrderGateway.php:1145-1161 | the customer is keyed by an e-mail that never needs synthesis; creation throws an ordinary exception exactly when there is no name or the e-mail's customer exists or is refused |
| OrderGateway.MadeUpEmailCustomer | src/Mms/Gateway/OrderGateway.php:540-559 | with no e-mail in the order data, the e-mail found or synthesised is a truthy string, and the customer assigned is the one keyed by it |
| OrderGateway.AssignedCustomerStored | src/Mms/Gateway/OrderGateway.php:544-559 | the customer assigned to an order is either an existing customer stored under the order's e-mail, or one just created under `getCustomerEmail`'s e-mail; the two e-mails may differ, and in that case the order's own key is absent from the store |
| OrderGateway.CreatedUnderEmail | src/Mms/Gateway/OrderGateway.php:1145-1161 | once there is a name, `getCustomerEmail` throws nothing, and the customer is created under its e-mail unless the store already holds or refuses that key |
| OrderGateway.SettledAfterCustomer | src/Mms/Gateway/OrderGateway.php:540-570 | a customer added before the order is stored leaves intact all that storing the order states; the only records added beyond it are customers |
| OrderGateway.HoldsAfterCustomer | src/Mms/Gateway/OrderGateway.php:540-570 | after the customer step and the record, the stored order holds every attribute gathered before the customer step, except the e-mail and the customer (and a `grand_total` the linked order already had) |
| OrderGateway.SettledOnCustomerFailure | src/Mms/Gateway/OrderGateway.php:551-556 | when customer creation throws, no order is stored: the links are unchanged, other records are kept, and at most a customer was added |
| OrderGateway.ItemCreatedMeaning | src/Mms/Gateway/OrderGateway.php:956-976 | a new order item is stored under the order with its data, appended to the order's children, linked to its local id, and its stock updated; no other record except stock items changes |
| OrderGateway.ItemWrittenMeaning | src/Mms/Gateway/OrderGateway.php:832-976 | an item whose unique id exists is skipped; otherwise it is created as above; only order items of the order's store are added |
| OrderGateway.CatalogueLinkedKeeps | src/Mms/Gateway/OrderGateway.php:843-904 | relinking the product and stock item changes no record and no child list |
| OrderGateway.RelinkedKeeps | src/Mms/Gateway/OrderGateway.php:855-867 | one unlink-and-link changes no record and no child list |
| OrderGateway.ItemsWrittenKeeps | src/Mms/Gateway/OrderGateway.php:780-979 | creating the items keeps every record other than stock items |
| OrderGateway.ItemsWrittenAdds | src/Mms/Gateway/OrderGateway.php:780-979 | every record added is an order item of the order's store whose parent is the order |
| OrderGateway.ItemsWrittenStep | src/Mms/Gateway/OrderGateway.php:786-978 | the item loop processes one item at a time, carrying the SKU state from the previous item |
| OrderGateway.ItemsWrittenStops | src/Mms/Gateway/OrderGateway.php:786-978 | once an item fails, the whole loop fails |
| OrderGateway.CatalogueKeepsOrderLinks | src/Mms/Gateway/OrderGateway.php:843-904 | relinking products and stock items keeps every order link |
| OrderGateway.ItemsWrittenKeepOrderLinks | src/Mms/Gateway/OrderGateway.php:780-979 | creating the items keeps every order link |
| OrderGateway.ItemWrittenKeepsOrderLinks | src/Mms/Gateway/OrderGateway.php:832-976 | writing one item keeps every order link |
| OrderGateway.ItemsWrittenSummary | src/Mms/Gateway/OrderGateway.php:780-979 | order links and non-stock records are kept, and only order items of the order are added |
| OrderGateway.NextSinceId | src/Mms/Gateway/OrderGateway.php:762-766 | the next cursor is `newSinceId` when set, else the current cursor |
| OrderGateway.LocalOrder | src/Mms/Gateway/OrderGateway.php:570-575 | the order found by local id is the linked order, and only when it belongs to the order's store |
| OrderGateway.StatusMovedMeaning | src/Mms/Gateway/OrderGateway.php:649-670 | a status change that moves stock has a stock attribute, and moving to `shipped` or `completed` never does |
| OrderGateway.StatusMovedBetweenNames | src/Mms/Gateway/OrderGateway.php:667-670 | stock moves exactly when the order becomes shippable from a non-shippable status, or becomes closed |
| OrderGateway.OrderUpdatedMeaning | src/Mms/Gateway/OrderGateway.php:649-679 | updating keeps the keys, merges the data into the order, sets its status, and changes no other record except stock items; without a status move nothing else changes; with one each writable stock item grows by the order's quantities |
| OrderGateway.CustomerStepKeeps | src/Mms/Gateway/OrderGateway.php:540-559 | the customer step changes no order attribute other than `customer_email` and `customer` |
| OrderGateway.Gateway.constructor | src/Mms/Gateway/OrderGateway.php:98-108 | the gateway starts over its store with an empty address memo and the given cursor |
| OrderGateway.Gateway.AddressByLanguage | src/Mms/Gateway/OrderGateway.php:986-1010 | the address returned is the memoised answer, the memo gains that entry, and the id counter advances by the ids drawn |
| OrderGateway.Gateway.UpdateStockQuantities | src/Mms/Gateway/OrderGateway.php:347-430 | the result and the new records are those of the stock update specification; links and children are unchanged |
| OrderGateway.Gateway.Relink | src/Mms/Gateway/OrderGateway.php:855-867 | unlink then link succeeds exactly as specified and changes only links |
| OrderGateway.Gateway.LinkCatalogue | src/Mms/Gateway/OrderGateway.php:843-904 | the product and stock item relinks succeed exactly as specified and change only links |
| OrderGateway.Gateway.NewItem | src/Mms/Gateway/OrderGateway.php:956-969 | a new order item is created and linked exactly when its key is not refused, leaving the specified store; a failure is an ordinary exception |
| OrderGateway.Gateway.CreateItem | src/Mms/Gateway/OrderGateway.php:832-976 | one item's write succeeds exactly as specified, leaving the specified store; a failure is an ordinary exception |
| OrderGateway.Gateway.CreateItems | src/Mms/Gateway/OrderGateway.php:780-979 | the items are written exactly as specified; on success order links and non-stock records are kept and only order items of the order are added |
| OrderGateway.Gateway.WriteItems | src/Mms/Gateway/OrderGateway.php:786-978 | the loop over the items leaves the store the specification gives |
| OrderGateway.Gateway.LookupAddresses | src/Mms/Gateway/OrderGateway.php:1060-1064 | the three lookups give the specified addresses and leave the memo settled |
| OrderGateway.Gateway.CustomerName | src/Mms/Gateway/OrderGateway.php:1060-1079 | the name is the specified one for the memoised addresses |
| OrderGateway.Gateway.CustomerEmail | src/Mms/Gateway/OrderGateway.php:1085-1138 | the e-mail is the specified one for the memoised addresses |
| OrderGateway.Gateway.CreateCustomer | src/Mms/Gateway/OrderGateway.php:1145-1161 | the result is the specified creation; on success exactly that customer is added with its attributes, otherwise nothing changes |
| OrderGateway.Gateway.CreateNamedCustomer | src/Mms/Gateway/OrderGateway.php:1145-1161 | with the name already known, the creation is the specified one and adds exactly that customer with the given attributes |
| OrderGateway.Gateway.AssignCustomer | src/Mms/Gateway/OrderGateway.php:540-564 | the order data gain the specified e-mail and customer; a customer is added only when one is sought and created |
| OrderGateway.Gateway.FixEmail | src/Mms/Gateway/OrderGateway.php:540-542 | an empty e-mail is replaced by the order's customer e-mail; another is kept and no lookup is made |
| OrderGateway.Gateway.FindCustomer | src/Mms/Gateway/OrderGateway.php:544-559 | an existing customer is reused; otherwise one is created, and only then the store changes |
| OrderGateway.Gateway.CreateAddressEntity | src/Mms/Gateway/OrderGateway.php:1207-1244 | the result and new records are the specified ones; links and children are unchanged |
| OrderGateway.Gateway.FindOrCreateAddress | src/Mms/Gateway/OrderGateway.php:1240-1243 | an existing address is returned; a new one is created, or the creation failure thrown |
| OrderGateway.Gateway.CreateAddresses | src/Mms/Gateway/OrderGateway.php:1168-1198 | without addresses nothing happens; otherwise the specified entities are written; a fatal error changes nothing; only address records are added |
| OrderGateway.Gateway.WriteAddresses | src/Mms/Gateway/OrderGateway.php:1175-1195 | the result and records are those specified; only address records are added |
| OrderGateway.Gateway.WriteShared | src/Mms/Gateway/OrderGateway.php:1184-1187 | the shared write gives the specified result and records |
| OrderGateway.Gateway.WriteSeparate | src/Mms/Gateway/OrderGateway.php:1188-1192 | the separate writes give the specified result and records |
| OrderGateway.Gateway.UpdateItemsStock | src/Mms/Gateway/OrderGateway.php:674-679 | the records become the stock updates folded over the order's items |
| OrderGateway.Gateway.UpdateOrder | src/Mms/Gateway/OrderGateway.php:649-682 | an update that fails throws "Needs update: …" and changes nothing; otherwise the order's attributes gain the data and its status, and stock moves only when the status moves |
| OrderGateway.Gateway.CreateOrder | src/Mms/Gateway/OrderGateway.php:585-622 | on failure the store is rolled back and the error is fatal or prefixed "Rollback of mms-order-…"; on success the order is created with the data, linked to its local id, and only addresses and its own items are added |
| OrderGateway.Gateway.NewOrderAddresses | src/Mms/Gateway/OrderGateway.php:589-592 | the addresses step keeps all records and adds only addresses |
| OrderGateway.Gateway.StoreNewOrder | src/Mms/Gateway/OrderGateway.php:593-616 | the new order is stored with its attributes and linked; only its items are added |
| OrderGateway.Gateway.OrderCustomer | src/Mms/Gateway/OrderGateway.php:540-564 | the result is the specified customer step: the order's other attributes are kept, and at most a customer is added |
| OrderGateway.Gateway.UpdateLocalOrder | src/Mms/Gateway/OrderGateway.php:633-682 | an existing order's attributes become its old ones merged with the data (`array_merge`), leaving out `grand_total` when it already has one; so every data attribute is held except a `grand_total` it already has, and the status is set |
| OrderGateway.Gateway.LinkAndUpdateOrder | src/Mms/Gateway/OrderGateway.php:623-632 | an order found by unique id is linked to its local id; its attributes become its old ones merged with all of the data, so it holds every data attribute |
| OrderGateway.Gateway.StoreOrderRecord | src/Mms/Gateway/OrderGateway.php:566-683 | the order is found by local id, else by unique id, else created. On success it is linked, carries the order's status, and holds every data attribute, except a `grand_total` that an order found by local id already had. Other non-stock records are kept, and stock moves only with a status move |
| OrderGateway.Gateway.StoreOrderData | src/Mms/Gateway/OrderGateway.php:442-702 | it succeeds only when the customer step succeeds. On success, the order is linked to its local id and has the order's status. It holds the assembled attributes: the item totals, the payment method, the rate, the shipping method, `placed_at` and, on creation, `grand_total`. It also holds the e-mail and customer the customer step gives. Other non-stock records are kept and an existing grand total is kept. Unless a new order is stored, only customers are added |
| OrderGateway.Gateway.StoreRetrieved | src/Mms/Gateway/OrderGateway.php:737-760 | with no ids the store is unchanged and nothing is thrown |
| OrderGateway.Gateway.RetrieveEntities | src/Mms/Gateway/OrderGateway.php:710-773 | without a client it throws and changes nothing; a failed cycle keeps the cursor; a completed cycle moves the cursor to the next since id and returns 2; a failed or missing id list changes nothing |
| OrderGateway.Gateway.RetrieveWith | src/Mms/Gateway/OrderGateway.php:722-772 | the same, for a cycle with a client |

## Left out

- Logging: every `logService->log` call, including the one for an order without a customer (src/Mms/Gateway/OrderGateway.php:560-563), is left out because it has no effect on the store or the results.
- Entity comments: the "Initial sync" and "Status change" comments (src/Mms/Gateway/OrderGateway.php:620, 652-655, 685-701) live in the entity service's comment store, which is not part of this model.
- Status propagation to related orders through `getAllOrders()` (src/Mms/Gateway/OrderGateway.php:657-664) is left out: the order family lives in the entity service, so the model updates only the order itself.
- Transactions are modelled only by their effect. A rollback restores the store snapshot taken before the order was created, so nothing from the order persists.
- HTTP transport: the Zend client, the JSON decoding of response bodies and the curl plumbing (`initCurl`, `executeCurl`, `closeCurl`, `getError`) are I/O. A response is a function parameter `send` from request to outcome.
- The Node's cached REST client is not modelled. A `RestClient` is passed in, or null when there is none.
- Crypto and encoding primitives (HMAC-SHA256, base64, `utf8_encode`, `json_encode`) are opaque parameters. `urlencode` is the identity only on unreserved characters.
- Clocks and nonces: `getTimestamp`, `getGuid` and the `date`/`strtotime` of `placed_at` are parameters. `uniqid()` is modelled as a counter of ids drawn, so two ids from one gateway never coincide.
- Money is `real`. PHP float rounding, INF and NAN are not modelled, and no rounding claims are made.
- OrderRules.AmountsOf: with a price but no bundle quantity ever set, PHP divides by the unset `$bundleQuantity` (src/Mms/Gateway/OrderGateway.php:928); the model stores `item_price` as NULL there instead of the PHP warning or error.
- Regular-expression classes: `\W` is taken over ASCII word characters; locale and multibyte behaviour are not modelled.
- Dead code: `writeUpdates`/`writeAction` (return at their first line), `actionShip`, `actionCreditmemo` and `preprocessRequestItems` (they call a SOAP client that does not exist) are not modelled.
- `isOrderShippableOnMms` and `fulfilOrder` (src/Mms/Gateway/OrderGateway.php:185-206) are not modelled; no modelled operation calls them.
- The per-multiplier bundle stock push is not modelled; the code has no such operation.
- Wiring: src/Mms/Node.php, src/Mms/Gateway/AbstractGateway.php, config/module.config.php and src/Mms/Gateway/CreditmemoGateway.php only look up services, hold configuration or have no-op methods, so they are not part of this model.
- OrderGateway.Gateway.RetrieveEntities: the `setTimestamp` write of the cycle's time (src/Mms/Gateway/OrderGateway.php:769) is not modelled; only the cursor is kept on the gateway.
- OrderGateway.Gateway.RetrieveEntities: an exception is rethrown with its message and kind kept; PHP's new `GatewayException` wrapper, its code and the previous-exception chain are not kept.
- OrderGateway.Gateway.StoreRetrieved: passing a non-array to `isOrderToBeRetrieved` is a PHP `TypeError`; the model throws a fatal error whose message is abbreviated.
- OrderGateway.Gateway.StoreRetrieved: its contract states only the empty case; the effect of each order is stated by `StoreOrderData`, and `RetrieveEntities` states the cycle.
- OrderGateway.Gateway.CreateItem: the `GatewayException` wrappers around a failed order-item link and a failed stock update (src/Mms/Gateway/OrderGateway.php:963-976) keep only the failure's kind; a link of a freshly created item cannot fail in the model.
- OrderGateway.Gateway.CreateOrder: the "Rollback of mms-order-…" prefix is stated; the rest of the message is not.
- OrderGateway.Gateway.UpdateOrder: the caller must pass data whose `status` is the order data's status; `storeOrderData` always does (src/Mms/Gateway/OrderGateway.php:534).
- RestCurl.SubstituteFrom numbers its placeholders by position. PHP uses the array key plus one (src/Mms/Api/RestCurl.php:405-408), and the two differ only for parameter arrays that are not lists.
- MmsConfig.FlipInto stores the flipped values as strings. `array_flip` (src/Mms/Service/MmsConfigService.php:49) keeps integer-like keys as integers, which matters only for a later strict comparison.
