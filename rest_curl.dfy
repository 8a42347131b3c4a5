/** The REST client base class of the MMS connector: header completion, URL
    building, the `Authorization` value sent with every request (computed
    once and cached), the dispatch from the HTTP verb to the request-body
    encoder, the classification of a decoded response envelope and the
    encoding of GET/DELETE filters into the query. The transport, the clock,
    the nonce generator and the cryptographic primitives are inputs. */
module RestCurl {
  import opened PhpStrings
  import opened PhpValues

  datatype Verb = GET | POST | PUT | PATCH | DELETE

  /** The `Request::METHOD_*` constant of a verb. */
  function VerbName(v: Verb): string
  {
    match v
    case GET => "GET"
    case POST => "POST"
    case PUT => "PUT"
    case PATCH => "PATCH"
    case DELETE => "DELETE"
  }

  lemma VerbNameInjective(a: Verb, b: Verb)
    requires VerbName(a) == VerbName(b)
    ensures a == b
  {
    assert VerbName(a)[0] == VerbName(b)[0];
    if VerbName(a)[0] == 'P' {
      assert VerbName(a)[1] == VerbName(b)[1];
    }
  }

  // ---------------------------------------------------------------- verb -> encoder table

  function UpperChar(c: char): char
  {
    if 'a' <= c <= 'z' then (c as int - 32) as char else c
  }

  /** `ucfirst`. */
  function UcFirst(s: string): (r: string)
    ensures |r| == |s|
  {
    if |s| == 0 then s else [UpperChar(s[0])] + s[1..]
  }

  /** The name `call` builds for the body encoder: `'set'.ucfirst(strtolower($verb)).'fields'`. */
  function SetterName(v: Verb): string
  {
    "set" + UcFirst(Lower(VerbName(v))) + "fields"
  }

  /** The encoders the client class declares. */
  const DeclaredSetters: set<string> := {"setDeletefields", "setGetfields", "setPostfields", "setPutfields"}

  datatype Encoder = UrlParameters | JsonContent

  /** The encoder `call` reaches for a verb: GET and DELETE put the filters in
      the query, POST and PUT send the parameters as JSON; PATCH names a method
      that does not exist. */
  function EncoderFor(v: Verb): (r: Option<Encoder>)
    ensures r.Some? <==> SetterName(v) in DeclaredSetters
    ensures r == Some(UrlParameters) <==> v == GET || v == DELETE
    ensures r == Some(JsonContent) <==> v == POST || v == PUT
  {
    match v
    case GET => SetterNameGet(); Some(UrlParameters)
    case DELETE => SetterNameDelete(); Some(UrlParameters)
    case POST => SetterNamePost(); Some(JsonContent)
    case PUT => SetterNamePut(); Some(JsonContent)
    case PATCH => SetterNamePatch(); None
  }

  // The name built for each verb.

  lemma SetterNameGet()
    ensures SetterName(GET) == "setGetfields"
  {
    LowerName("GET", "get");
    assert "get"[1..] == "et";
    assert UcFirst("get") == "Get";
    assert SetterName(GET) == "set" + "Get" + "fields";
  }

  lemma SetterNamePost()
    ensures SetterName(POST) == "setPostfields"
  {
    LowerName("POST", "post");
    assert "post"[1..] == "ost";
    assert UcFirst("post") == "Post";
    assert SetterName(POST) == "set" + "Post" + "fields";
  }

  lemma SetterNamePut()
    ensures SetterName(PUT) == "setPutfields"
  {
    LowerName("PUT", "put");
    assert "put"[1..] == "ut";
    assert UcFirst("put") == "Put";
    assert SetterName(PUT) == "set" + "Put" + "fields";
  }

  lemma SetterNameDelete()
    ensures SetterName(DELETE) == "setDeletefields"
  {
    LowerName("DELETE", "delete");
    assert "delete"[1..] == "elete";
    assert UcFirst("delete") == "Delete";
    assert SetterName(DELETE) == "set" + "Delete" + "fields";
  }

  lemma SetterNamePatch()
    ensures SetterName(PATCH) == "setPatchfields"
  {
    LowerName("PATCH", "patch");
    assert "patch"[1..] == "atch";
    assert UcFirst("patch") == "Patch";
    assert SetterName(PATCH) == "set" + "Patch" + "fields";
  }

  lemma LowerName(s: string, l: string)
    requires |s| == |l| && forall i :: 0 <= i < |s| ==> LowerChar(s[i]) == l[i]
    ensures Lower(s) == l
  {
  }

  // ---------------------------------------------------------------- opaque primitives

  /** Byte strings are sequences of integers in 0..255. */
  type Bytes = seq<int>

  /** The primitives the client calls but does not define: `hash_hmac('sha256',
      data, key, TRUE)` (RFC 2104 over FIPS 180-4 SHA-256), `base64_encode` and
      `base64_decode` (section 4 of RFC 4648), `utf8_encode`, and the JSON
      encoder of the request body. */
  datatype Primitives = Primitives(
    hmacSha256: (Bytes, Bytes) -> Bytes,
    base64Encode: Bytes -> string,
    base64Decode: string -> Bytes,
    utf8Encode: string -> Bytes,
    jsonEncode: Value -> string)

  // ---------------------------------------------------------------- headers

  const CacheControlName: string := "Cache-Control"
  const CacheControlLine: string := CacheControlName + ": no-cache"

  /** The needle `getHeaders` looks for, case-insensitively. */
  const CacheControlNeedle: string := Lower(CacheControlName) + ":"

  predicate NamesCacheControl(line: string)
  {
    Contains(Lower(line), CacheControlNeedle)
  }

  /** `getHeaders`: the header list with `Cache-Control: no-cache` appended,
      unless one of the lines already mentions `cache-control:` in any case. */
  method GetHeaders(headers: seq<string>) returns (r: seq<string>)
    ensures (exists i :: 0 <= i < |headers| && NamesCacheControl(headers[i])) ==> r == headers
    ensures (forall i :: 0 <= i < |headers| ==> !NamesCacheControl(headers[i])) ==> r == headers + [CacheControlLine]
  {
    var cacheControl := true;
    var i := 0;
    while i < |headers|
      invariant 0 <= i <= |headers|
      invariant forall j :: 0 <= j < i ==> !NamesCacheControl(headers[j])
    {
      if NamesCacheControl(headers[i]) {
        cacheControl := false;
        break;
      }
      i := i + 1;
    }
    r := headers;
    if cacheControl {
      r := r + [CacheControlLine];
    }
  }

  // ---------------------------------------------------------------- authorisation value

  const AuthorisationPrefix: string := "Authorization: mms "

  /** The signed text: app id, verb, the lower-cased URL-encoded URL, the
      timestamp, the nonce and the (always empty) content part. */
  function SignatureData(appId: string, httpMethod: string, url: string, timestamp: int, nonce: string): (r: string)
    ensures StartsWith(r, appId + httpMethod + Lower(Urlencode(url)))
  {
    appId + httpMethod + Lower(Urlencode(url)) + IntToString(timestamp) + nonce + ""
  }

  /** base64(HMAC-SHA256(base64_decode(appKey), utf8_encode(data))). */
  function Signature(p: Primitives, appId: string, appKey: string, httpMethod: string,
                     url: string, timestamp: int, nonce: string): string
  {
    p.base64Encode(p.hmacSha256(p.utf8Encode(SignatureData(appId, httpMethod, url, timestamp, nonce)),
                                p.base64Decode(appKey)))
  }

  /** The cached `$this->authorisation`: the header line itself, which `call`
      then sends as the value of an `Authorization` header. */
  function AuthorisationValue(p: Primitives, appId: string, appKey: string, httpMethod: string,
                              url: string, timestamp: int, nonce: string): (r: string)
    ensures StartsWith(r, AuthorisationPrefix + appId + ":")
  {
    AuthorisationPrefix + appId + ":" + Signature(p, appId, appKey, httpMethod, url, timestamp, nonce)
      + ":" + nonce + ":" + IntToString(timestamp)
  }

  function Last<T>(xs: seq<T>): T
    requires |xs| > 0
  {
    xs[|xs| - 1]
  }

  lemma IntToStringColonFree(n: int)
    ensures ColonFree(IntToString(n))
  {
    var s := IntToString(n);
    IntToStringHasNoChar(n, ':');
    forall j | 0 <= j < |s| ensures !OccursAt(s, ":", j) {
      assert s[j..j + 1] == [s[j]];
    }
  }

  /** The last colon-separated field of the value is the timestamp, whatever the
      other parts hold. */
  lemma AuthorisationTimestamp(p: Primitives, appId: string, appKey: string, httpMethod: string,
                               url: string, timestamp: int, nonce: string)
    ensures Last(Explode(":", AuthorisationValue(p, appId, appKey, httpMethod, url, timestamp, nonce)))
            == IntToString(timestamp)
  {
    var t := IntToString(timestamp);
    var head := AuthorisationPrefix + appId + ":" + Signature(p, appId, appKey, httpMethod, url, timestamp, nonce)
                + ":" + nonce;
    assert AuthorisationValue(p, appId, appKey, httpMethod, url, timestamp, nonce) == head + [':'] + t;
    ExplodeConcat(':', head, t);
    IntToStringColonFree(timestamp);
  }

  /** Values computed at different timestamps differ. */
  lemma AuthorisationDistinguishesTimestamps(p: Primitives, appId: string, appKey: string, httpMethod: string,
                                             url: string, timestamp: int, nonce: string,
                                             appId': string, appKey': string, httpMethod': string,
                                             url': string, timestamp': int, nonce': string)
    requires timestamp != timestamp'
    ensures AuthorisationValue(p, appId, appKey, httpMethod, url, timestamp, nonce)
            != AuthorisationValue(p, appId', appKey', httpMethod', url', timestamp', nonce')
  {
    AuthorisationTimestamp(p, appId, appKey, httpMethod, url, timestamp, nonce);
    AuthorisationTimestamp(p, appId', appKey', httpMethod', url', timestamp', nonce');
    if IntToString(timestamp) == IntToString(timestamp') {
      IntToStringInjective(timestamp, timestamp');
    }
  }

  predicate ColonFree(s: string)
  {
    !Contains(s, ":")
  }

  /** A colon-free first field comes off as one piece. */
  lemma ExplodeColonFreeHead(head: string, rest: string)
    requires ColonFree(head)
    ensures Explode(":", head + ":" + rest) == [head] + Explode(":", rest)
  {
    assert head + ":" + rest == head + [':'] + rest;
    ExplodeConcat(':', head, rest);
  }

  lemma SpacedIdColonFree(appId: string)
    requires ColonFree(appId)
    ensures ColonFree(" mms " + appId)
  {
    var mms := " mms " + appId;
    forall j ensures !OccursAt(mms, ":", j) {
      if 5 <= j < |mms| {
        assert mms[j..j + 1] == appId[j - 5..j - 4];
        assert !OccursAt(appId, ":", j - 5);
      } else if 0 <= j < 5 {
        assert mms[j..j + 1] == [" mms "[j]];
      }
    }
  }

  lemma AuthorizationWordColonFree()
    ensures ColonFree("Authorization")
  {
    forall j | 0 <= j < 13 ensures !OccursAt("Authorization", ":", j) {
      assert "Authorization"[j..j + 1] == ["Authorization"[j]];
    }
  }

  /** The assembled value is its five fields joined by colons. */
  lemma AssembledFields(appId: string, sig: string, nonce: string, t: string)
    ensures Implode(":", ["Authorization", " mms " + appId, sig, nonce, t])
            == AuthorisationPrefix + appId + ":" + sig + ":" + nonce + ":" + t
  {
    var mms := " mms " + appId;
    var parts := ["Authorization", mms, sig, nonce, t];
    assert Implode(":", parts[4..]) == t;
    assert Implode(":", parts[3..]) == nonce + ":" + t by {
      assert parts[3..][1..] == parts[4..];
    }
    assert Implode(":", parts[2..]) == sig + ":" + nonce + ":" + t by {
      assert parts[2..][1..] == parts[3..];
    }
    assert Implode(":", parts[1..]) == mms + ":" + sig + ":" + nonce + ":" + t by {
      assert parts[1..][1..] == parts[2..];
    }
  }

  /** The split of an assembled value, on plain strings. */
  lemma HeaderFields(v: string, appId: string, sig: string, nonce: string, t: string)
    requires ColonFree(appId) && ColonFree(sig) && ColonFree(nonce) && ColonFree(t)
    requires v == AuthorisationPrefix + appId + ":" + sig + ":" + nonce + ":" + t
    ensures Explode(":", v) == ["Authorization", " mms " + appId, sig, nonce, t]
  {
    var parts := ["Authorization", " mms " + appId, sig, nonce, t];
    AssembledFields(appId, sig, nonce, t);
    SpacedIdColonFree(appId);
    AuthorizationWordColonFree();
    ExplodeImplode(':', parts);
  }

  /** With colon-free app id, signature and nonce, the value splits on `:` into
      exactly its five parts. */
  lemma AuthorisationFields(p: Primitives, appId: string, appKey: string, httpMethod: string,
                            url: string, timestamp: int, nonce: string)
    requires ColonFree(appId) && ColonFree(nonce)
    requires ColonFree(Signature(p, appId, appKey, httpMethod, url, timestamp, nonce))
    ensures Explode(":", AuthorisationValue(p, appId, appKey, httpMethod, url, timestamp, nonce))
            == ["Authorization", " mms " + appId, Signature(p, appId, appKey, httpMethod, url, timestamp, nonce),
                nonce, IntToString(timestamp)]
  {
    IntToStringColonFree(timestamp);
    HeaderFields(AuthorisationValue(p, appId, appKey, httpMethod, url, timestamp, nonce),
                 appId, Signature(p, appId, appKey, httpMethod, url, timestamp, nonce), nonce, IntToString(timestamp));
  }

  // ---------------------------------------------------------------- envelope classification

  const ErrorPrefix: string := "REST ERROR: "

  /** The placeholder for the `n`-th (1-based) error parameter. */
  function Placeholder(n: nat): (r: string)
    ensures |r| > 0
  {
    "\"%" + NatToString(n) + "\""
  }

  /** Replaces `"%i"` by the i-th parameter in backquotes, for i = 1, 2, ... in
      order, each replacement applied to the result of the previous one. */
  function SubstituteFrom(message: string, parameters: seq<Value>, done: nat): string
    decreases |parameters|
  {
    if |parameters| == 0 then message
    else SubstituteFrom(StrReplace(Placeholder(done + 1), "`" + Text(parameters[0]) + "`", message),
                        parameters[1..], done + 1)
  }

  /** The message of an error envelope with its parameters filled in. */
  function ErrorMessage(response: Value): string
  {
    var parameters := Index(response, "parameters");
    var message := Text(Index(response, "message"));
    if parameters.Arr? then SubstituteFrom(message, Elements(parameters), 0) else message
  }

  /** A message with one placeholder and one parameter gets that parameter in
      backquotes in its place, and nothing else changes. */
  lemma SubstituteOne(a: string, b: string, parameter: Value)
    requires !Contains(a, Placeholder(1)) && !Contains(b, Placeholder(1))
    requires !Contains(a + Placeholder(1)[..|Placeholder(1)| - 1], Placeholder(1))
    ensures SubstituteFrom(a + Placeholder(1) + b, [parameter], 0) == a + "`" + Text(parameter) + "`" + b
  {
    var placeholder, replacement := Placeholder(1), "`" + Text(parameter) + "`";
    StrReplaceOnce(placeholder, replacement, a, b);
    assert [parameter][1..] == [];
    assert SubstituteFrom(a + placeholder + b, [parameter], 0) == StrReplace(placeholder, replacement, a + placeholder + b);
    assert a + replacement + b == a + "`" + Text(parameter) + "`" + b;
  }

  /** A message without placeholders is kept as it is. */
  lemma {:induction false} SubstituteNothing(message: string, parameters: seq<Value>, done: nat)
    requires forall i :: done < i <= done + |parameters| ==> !Contains(message, Placeholder(i))
    ensures SubstituteFrom(message, parameters, done) == message
    decreases |parameters|
  {
    if |parameters| > 0 {
      StrReplaceAbsent(Placeholder(done + 1), "`" + Text(parameters[0]) + "`", message);
      SubstituteNothing(message, parameters[1..], done + 1);
    }
  }

  /** `$response['success']` as `call` sets it: TRUE exactly when `StatusCode`
      is set and loosely equal to 200. */
  function MarkSuccess(body: Value): (r: Value)
    ensures var ok := Isset(body, "StatusCode") && LooseEq(Index(body, "StatusCode"), Int(200));
      (body.Arr? || body == Null || body == Bool(false)) ==> Index(r, "success") == Bool(ok)
    ensures body.Arr? ==> forall k :: k != "success" ==> Index(r, k) == Index(body, k)
  {
    Set(body, "success", Bool(Isset(body, "StatusCode") && LooseEq(Index(body, "StatusCode"), Int(200))))
  }

  /** The decoded response as `call` returns it: an envelope with `items` is
      unwrapped to them, one with a `message` becomes an exception, and the
      result gets its `success` flag. */
  function Classify(response: Value): (r: Outcome<Value>)
    ensures response.Arr? && HasKey(response.entries, "items") ==>
              r == Ok(MarkSuccess(Lookup(response.entries, "items")))
    ensures !(response.Arr? && HasKey(response.entries, "items")) && Isset(response, "message") ==>
              r.Threw? && r.error.Exception? && StartsWith(r.error.message, ErrorPrefix)
              && r.error.message[|ErrorPrefix|..] == ErrorMessage(response)
    ensures !(response.Arr? && HasKey(response.entries, "items")) && !Isset(response, "message") ==>
              r == Ok(MarkSuccess(response))
  {
    if response.Arr? && HasKey(response.entries, "items") then Ok(MarkSuccess(Lookup(response.entries, "items")))
    else if Isset(response, "message") then Threw(Exception(ErrorPrefix + ErrorMessage(response)))
    else Ok(MarkSuccess(response))
  }

  /** A plain envelope comes back with `success` set as the status code says
      and every other entry untouched. */
  lemma ClassifyPlainEnvelope(entries: seq<(string, Value)>)
    requires !HasKey(entries, "items") && Lookup(entries, "message") == Null
    ensures Classify(Arr(entries)).Ok?
    ensures Index(Classify(Arr(entries)).value, "success")
            == Bool(Lookup(entries, "StatusCode") != Null && LooseEq(Lookup(entries, "StatusCode"), Int(200)))
    ensures forall k :: k != "success" ==> Index(Classify(Arr(entries)).value, k) == Lookup(entries, k)
  {
  }

  // ---------------------------------------------------------------- filter encoding

  /** `$key != urlencode($key)` rejects the pair. */
  predicate KeyAccepted(key: string)
  {
    LooseEq(Str(key), Str(Urlencode(key)))
  }

  /** `urlencode($value)`: an array (or an object) is no string, so PHP passes
      back NULL. */
  function EscapedValue(v: Value): Value
  {
    if v.Arr? || v.Obj? then Null else Str(Urlencode(Text(v)))
  }

  /** The value stored for a pair: kept when it loosely equals its escaped
      form, replaced by it otherwise. */
  function Stored(v: Value): (r: Value)
    ensures r == v || r == EscapedValue(v)
  {
    var e := EscapedValue(v);
    if LooseEq(v, e) then v else e
  }

  /** For a key that is not a numeric string, the check accepts exactly the
      keys made of `[A-Za-z0-9_.-]`. */
  lemma KeyAcceptedPlain(key: string)
    requires !IsNumericText(key)
    ensures KeyAccepted(key) <==> forall i :: 0 <= i < |key| ==> IsUrlSafe(key[i])
  {
    LooseEqStrings(key, Urlencode(key));
    UrlencodeFixpoint(key);
  }

  /** For a string value that is not numeric, the stored value is its URL
      encoding, which is the value itself exactly when nothing needed escaping. */
  lemma StoredPlain(s: string)
    requires !IsNumericText(s)
    ensures Stored(Str(s)) == Str(Urlencode(s))
    ensures Stored(Str(s)) == Str(s) <==> forall i :: 0 <= i < |s| ==> IsUrlSafe(s[i])
  {
    LooseEqStrings(s, Urlencode(s));
    UrlencodeFixpoint(s);
  }

  const InvalidPairSuffix: string := " field key-value pair is not valid."

  /** A query position: the filter key and the field key, standing for
      `searchCriteria.filterGroups[0].filters[filterKey][key]`. */
  type QueryKey = (string, string)

  /** The entries of the array a `foreach` walks; nothing for a scalar. */
  function Pairs(v: Value): seq<(string, Value)>
  {
    if v.Arr? then v.entries else []
  }

  predicate FilterGiven(urlParameters: Value)
  {
    Isset(urlParameters, "filter") && Index(urlParameters, "filter").Arr?
  }

  function FilterGroups(urlParameters: Value): seq<(string, Value)>
  {
    if FilterGiven(urlParameters) then Index(urlParameters, "filter").entries else []
  }

  /** The inner `foreach` over one filter: every accepted pair stores its value
      at `(filterKey, key)`; the first rejected key throws. */
  function RunPairs(verb: string, filterKey: string, pairs: seq<(string, Value)>, acc: map<QueryKey, Value>)
    : Outcome<map<QueryKey, Value>>
    decreases |pairs|
  {
    if |pairs| == 0 then Ok(acc)
    else if !KeyAccepted(pairs[0].0) then Threw(Exception(verb + InvalidPairSuffix))
    else RunPairs(verb, filterKey, pairs[1..], acc[(filterKey, pairs[0].0) := Stored(pairs[0].1)])
  }

  /** The result of the outer `foreach`: the method's return value and the
      parameters last handed to `setQuery`, if any. */
  datatype FilterRun = FilterRun(result: Outcome<bool>, sent: Option<map<QueryKey, Value>>)

  /** The outer `foreach` over the filter groups: after each group the whole
      parameter set so far becomes the query. */
  function RunGroups(verb: string, groups: seq<(string, Value)>, acc: map<QueryKey, Value>,
                     sent: Option<map<QueryKey, Value>>): FilterRun
    decreases |groups|
  {
    if |groups| == 0 then FilterRun(Ok(sent.Some?), sent)
    else match RunPairs(verb, groups[0].0, Pairs(groups[0].1), acc)
      case Threw(e) => FilterRun(Threw(e), sent)
      case Ok(p) => RunGroups(verb, groups[1..], p, Some(p))
  }


  /** One filter is rejected exactly when one of its keys is, with the
      message naming the request type. */
  lemma {:induction false} RunPairsRejects(verb: string, filterKey: string, pairs: seq<(string, Value)>,
                                           acc: map<QueryKey, Value>)
    ensures RunPairs(verb, filterKey, pairs, acc).Threw? <==> exists i :: 0 <= i < |pairs| && !KeyAccepted(pairs[i].0)
    ensures RunPairs(verb, filterKey, pairs, acc).Threw? ==>
              RunPairs(verb, filterKey, pairs, acc).error == Exception(verb + InvalidPairSuffix)
    decreases |pairs|
  {
    if |pairs| > 0 && KeyAccepted(pairs[0].0) {
      var rest := pairs[1..];
      RunPairsRejects(verb, filterKey, rest, acc[(filterKey, pairs[0].0) := Stored(pairs[0].1)]);
      if exists i :: 0 <= i < |rest| && !KeyAccepted(rest[i].0) {
        var i :| 0 <= i < |rest| && !KeyAccepted(rest[i].0);
        assert rest[i] == pairs[i + 1];
      }
      if exists i :: 0 <= i < |pairs| && !KeyAccepted(pairs[i].0) {
        var i :| 0 <= i < |pairs| && !KeyAccepted(pairs[i].0);
        assert i > 0 && rest[i - 1] == pairs[i];
      }
    }
  }

  /** The query positions the pairs of one filter name. */
  function Positions(filterKey: string, pairs: seq<(string, Value)>): (r: set<QueryKey>)
    ensures forall i :: 0 <= i < |pairs| ==> (filterKey, pairs[i].0) in r
    ensures forall q :: q in r ==> q.0 == filterKey && exists i :: 0 <= i < |pairs| && pairs[i].0 == q.1
    decreases |pairs|
  {
    if |pairs| == 0 then {}
    else
      var rest := Positions(filterKey, pairs[1..]);
      assert forall i :: 1 <= i < |pairs| ==> pairs[i] == pairs[1..][i - 1];
      {(filterKey, pairs[0].0)} + rest
  }

  /** An accepted filter adds exactly the positions of its pairs and leaves
      the positions of other filters alone. */
  lemma {:induction false} RunPairsPositions(verb: string, filterKey: string, pairs: seq<(string, Value)>,
                                             acc: map<QueryKey, Value>)
    requires RunPairs(verb, filterKey, pairs, acc).Ok?
    ensures var p := RunPairs(verb, filterKey, pairs, acc).value;
      p.Keys == acc.Keys + Positions(filterKey, pairs)
      && (forall q :: q in acc && q.0 != filterKey ==> p[q] == acc[q])
    decreases |pairs|
  {
    if |pairs| > 0 {
      var acc' := acc[(filterKey, pairs[0].0) := Stored(pairs[0].1)];
      RunPairsPositions(verb, filterKey, pairs[1..], acc');
      assert acc'.Keys == acc.Keys + {(filterKey, pairs[0].0)};
    }
  }

  /** With distinct keys (as in any PHP array), every pair's position holds its
      stored value. */
  lemma {:induction false} RunPairsValues(verb: string, filterKey: string, pairs: seq<(string, Value)>,
                                          acc: map<QueryKey, Value>)
    requires RunPairs(verb, filterKey, pairs, acc).Ok? && DistinctKeys(pairs)
    ensures var p := RunPairs(verb, filterKey, pairs, acc).value;
      forall i :: 0 <= i < |pairs| ==> (filterKey, pairs[i].0) in p && p[(filterKey, pairs[i].0)] == Stored(pairs[i].1)
    decreases |pairs|
  {
    if |pairs| > 0 {
      var acc' := acc[(filterKey, pairs[0].0) := Stored(pairs[0].1)];
      var rest := pairs[1..];
      assert DistinctKeys(rest) by {
        forall i, j | 0 <= i < j < |rest| ensures rest[i].0 != rest[j].0 {
          assert rest[i] == pairs[i + 1] && rest[j] == pairs[j + 1];
        }
      }
      RunPairsValues(verb, filterKey, rest, acc');
      RunPairsUntouched(verb, filterKey, rest, acc', pairs[0].0);
      var p := RunPairs(verb, filterKey, pairs, acc).value;
      forall i | 0 <= i < |pairs| ensures (filterKey, pairs[i].0) in p && p[(filterKey, pairs[i].0)] == Stored(pairs[i].1) {
        if i == 0 {
          forall j | 0 <= j < |rest| ensures rest[j].0 != pairs[0].0 {
            assert rest[j] == pairs[j + 1];
          }
        } else {
          assert pairs[i] == rest[i - 1];
        }
      }
    }
  }

  /** A position no pair of the filter names keeps its value. */
  lemma {:induction false} RunPairsUntouched(verb: string, filterKey: string, pairs: seq<(string, Value)>,
                                             acc: map<QueryKey, Value>, key: string)
    requires RunPairs(verb, filterKey, pairs, acc).Ok?
    requires (filterKey, key) in acc
    requires forall j :: 0 <= j < |pairs| ==> pairs[j].0 != key
    ensures var p := RunPairs(verb, filterKey, pairs, acc).value;
      (filterKey, key) in p && p[(filterKey, key)] == acc[(filterKey, key)]
    decreases |pairs|
  {
    if |pairs| > 0 {
      assert pairs[0].0 != key;
      var rest := pairs[1..];
      forall j | 0 <= j < |rest| ensures rest[j].0 != key {
        assert rest[j] == pairs[j + 1];
      }
      RunPairsUntouched(verb, filterKey, rest, acc[(filterKey, pairs[0].0) := Stored(pairs[0].1)], key);
    }
  }

  /** The whole filter is rejected exactly when some key of some group is;
      otherwise the result is TRUE exactly when there was a group (or a query
      was already sent). */
  lemma {:induction false} RunGroupsMeaning(verb: string, groups: seq<(string, Value)>, acc: map<QueryKey, Value>,
                                            sent: Option<map<QueryKey, Value>>)
    ensures RunGroups(verb, groups, acc, sent).result.Threw? <==>
              exists g, i :: 0 <= g < |groups| && 0 <= i < |Pairs(groups[g].1)| && !KeyAccepted(Pairs(groups[g].1)[i].0)
    ensures RunGroups(verb, groups, acc, sent).result.Ok? ==>
              RunGroups(verb, groups, acc, sent).result.value == (|groups| > 0 || sent.Some?)
              && (|groups| > 0 ==> RunGroups(verb, groups, acc, sent).sent.Some?)
    ensures RunGroups(verb, groups, acc, sent).result.Threw? ==>
              RunGroups(verb, groups, acc, sent).result.error == Exception(verb + InvalidPairSuffix)
    decreases |groups|
  {
    if |groups| > 0 {
      var pairs := Pairs(groups[0].1);
      RunPairsRejects(verb, groups[0].0, pairs, acc);
      var step := RunPairs(verb, groups[0].0, pairs, acc);
      if step.Ok? {
        var rest := groups[1..];
        RunGroupsMeaning(verb, rest, step.value, Some(step.value));
        assert forall g :: 0 < g < |groups| ==> groups[g] == rest[g - 1];
        if RunGroups(verb, rest, step.value, Some(step.value)).result.Threw? {
          var g, i :| 0 <= g < |rest| && 0 <= i < |Pairs(rest[g].1)| && !KeyAccepted(Pairs(rest[g].1)[i].0);
          assert groups[g + 1] == rest[g];
        } else {
          forall g, i | 0 <= g < |groups| && 0 <= i < |Pairs(groups[g].1)| ensures KeyAccepted(Pairs(groups[g].1)[i].0) {
            if g > 0 { assert groups[g] == rest[g - 1]; }
          }
        }
      } else {
        var i :| 0 <= i < |pairs| && !KeyAccepted(pairs[i].0);
        assert 0 < |groups| && 0 <= i < |Pairs(groups[0].1)| && !KeyAccepted(Pairs(groups[0].1)[i].0);
      }
    }
  }

  // ---------------------------------------------------------------- the client

  /** What `call` builds and hands to the transport. */
  datatype Request = Request(uri: string, httpMethod: string, headers: seq<(string, string)>,
                             query: map<QueryKey, Value>, content: Option<string>)

  function RequestHeaders(authorisation: string): seq<(string, string)>
  {
    [("Authorization", authorisation), ("Accept", "application/json"), ("Content-Type", "application/json")]
  }

  class RestClient {
    /** `static::TEST_MODE` and `static::TEST_BASE_URI` of the concrete API class. */
    const testMode: bool
    const testBaseUri: string
    /** The node configuration entries `web_url`, `app_id`, `app_key` and `marketplace_id`. */
    const webUrl: Value
    const appId: Value
    const appKey: Value
    const marketplaceId: Value
    const primitives: Primitives

    var authorisation: Option<string>
    var requestType: Option<string>
    var request: Option<Request>

    ghost predicate Valid()
      reads this
    {
      (authorisation.Some? ==> |BaseUrl()| > 0)
      && (requestType.Some? ==> request.Some?)
      && (request.Some? ==> authorisation.Some? && request.value.headers == RequestHeaders(authorisation.value))
    }

    constructor (testMode: bool, testBaseUri: string, webUrl: Value, appId: Value, appKey: Value,
                 marketplaceId: Value, primitives: Primitives)
      ensures Valid()
      ensures this.testMode == testMode && this.testBaseUri == testBaseUri && this.webUrl == webUrl
      ensures this.appId == appId && this.appKey == appKey && this.marketplaceId == marketplaceId
      ensures this.primitives == primitives
      ensures authorisation.None? && requestType.None? && request.None?
    {
      this.testMode := testMode;
      this.testBaseUri := testBaseUri;
      this.webUrl := webUrl;
      this.appId := appId;
      this.appKey := appKey;
      this.marketplaceId := marketplaceId;
      this.primitives := primitives;
      authorisation := None;
      requestType := None;
      request := None;
    }

    /** The configured base: the class constant in test mode, `web_url` otherwise. */
    function BaseUrl(): string
    {
      if testMode then testBaseUri else Text(webUrl)
    }

    function NoBaseUrlMessage(): string
    {
      "No base url defined (" + (if testMode then "test" else "production") + ")."
    }

    /** `getUrl`: the base without leading or trailing slashes, a slash and the
        call type; an empty base throws. The parameters play no part. */
    function GetUrl(callType: string): (r: Outcome<string>)
      ensures r.Threw? <==> |BaseUrl()| == 0
      ensures r.Threw? ==> r.error == Exception(NoBaseUrlMessage())
      ensures r.Ok? ==>
                (exists i, j :: 0 <= i <= j <= |BaseUrl()| && r.value == BaseUrl()[i..j] + "/" + callType
                   && (i < j ==> BaseUrl()[i] != '/' && BaseUrl()[j - 1] != '/')
                   && (forall k :: 0 <= k < i ==> BaseUrl()[k] == '/')
                   && (forall k :: j <= k < |BaseUrl()| ==> BaseUrl()[k] == '/'))
    {
      var base := BaseUrl();
      if |base| > 0 then
        TrimIsSlice(base, {'/'});
        Ok(TrimBy(base, {'/'}) + "/" + callType)
      else Threw(Exception(NoBaseUrlMessage()))
    }

    /** The value `authorise` computes for a call. */
    function AuthorisationFor(verb: Verb, url: string, timestamp: int, nonce: string): string
    {
      AuthorisationValue(primitives, Text(appId), Text(appKey), VerbName(verb), url, timestamp, nonce)
    }

    /** `authorise`: computes the value once; later calls keep the cached one
        whatever their verb, URL, timestamp and nonce. */
    method Authorise(verb: Verb, callType: string, timestamp: int, nonce: string) returns (r: Outcome<bool>)
      requires Valid()
      modifies this
      ensures Valid()
      ensures requestType == old(requestType) && request == old(request)
      ensures old(authorisation).Some? ==> r == Ok(true) && authorisation == old(authorisation)
      ensures old(authorisation).None? && GetUrl(callType).Threw? ==>
                r == Threw(GetUrl(callType).error) && authorisation.None?
      ensures old(authorisation).None? && GetUrl(callType).Ok? ==>
                r == Ok(true) && authorisation == Some(AuthorisationFor(verb, GetUrl(callType).value, timestamp, nonce))
    {
      if authorisation.None? {
        var url := GetUrl(callType);
        if url.Threw? {
          return Threw(url.error);
        }
        authorisation := Some(AuthorisationFor(verb, url.value, timestamp, nonce));
      }
      r := Ok(true);
    }

    /** `setUrlParameters`, the encoder of GET and DELETE. */
    method SetUrlParameters(urlParameters: Value) returns (r: Outcome<bool>)
      requires Valid()
      modifies this
      ensures Valid()
      ensures authorisation == old(authorisation) && requestType == old(requestType)
      ensures old(requestType).None? ==> r == Ok(false) && request == old(request)
      ensures old(requestType).Some? && !FilterGiven(urlParameters) ==> r == Ok(true) && request == old(request)
      ensures old(requestType).Some? && FilterGiven(urlParameters) ==>
                var run := RunGroups(old(requestType).value, FilterGroups(urlParameters), map[], None);
                r == run.result
                && request == (if run.sent.Some? then Some(old(request).value.(query := run.sent.value)) else old(request))
    {
      if requestType.None? {
        return Ok(false);
      }
      if !FilterGiven(urlParameters) {
        return Ok(true);
      }
      var verb := requestType.value;
      var groups := FilterGroups(urlParameters);
      ghost var whole := RunGroups(verb, groups, map[], None);
      var parameters: map<QueryKey, Value> := map[];
      var success := false;
      var g := 0;
      while g < |groups|
        invariant 0 <= g <= |groups|
        invariant whole == RunGroups(verb, groups[g..], parameters, if g == 0 then None else Some(parameters))
        invariant request == (if g == 0 then old(request) else Some(old(request).value.(query := parameters)))
        invariant authorisation == old(authorisation) && requestType == old(requestType)
        invariant success == (g > 0)
      {
        var filterKey := groups[g].0;
        var pairs := Pairs(groups[g].1);
        var acc := parameters;
        var i := 0;
        while i < |pairs|
          invariant 0 <= i <= |pairs|
          invariant RunPairs(verb, filterKey, pairs, parameters) == RunPairs(verb, filterKey, pairs[i..], acc)
        {
          var key := pairs[i].0;
          if !KeyAccepted(key) {
            assert groups[g..][0] == groups[g] && pairs[i..][0] == pairs[i];
            return Threw(Exception(verb + InvalidPairSuffix));
          }
          assert pairs[i..][1..] == pairs[i + 1..];
          acc := acc[(filterKey, key) := Stored(pairs[i].1)];
          i := i + 1;
        }
        assert groups[g..][0] == groups[g] && groups[g..][1..] == groups[g + 1..];
        parameters := acc;
        success := true;
        request := Some(request.value.(query := parameters));
        g := g + 1;
      }
      r := Ok(success);
    }

    /** The request as the encoder of the verb leaves it (or the error it raises). */
    function Encode(verb: Verb, parameters: Value, req: Request): Outcome<Request>
    {
      match EncoderFor(verb)
      case None => Threw(FatalError("Call to undefined method " + SetterName(verb) + "()"))
      case Some(JsonContent) => Ok(req.(content := Some(primitives.jsonEncode(parameters))))
      case Some(UrlParameters) =>
        if !FilterGiven(parameters) then Ok(req)
        else
          var run := RunGroups(VerbName(verb), FilterGroups(parameters), map[], None);
          if run.result.Threw? then Threw(run.result.error)
          else if run.sent.Some? then Ok(req.(query := run.sent.value))
          else Ok(req)
    }

    /** The request `call` prepares before the encoder runs. */
    function Prepared(verb: Verb, uri: string, auth: string): Request
    {
      Request(uri, VerbName(verb), RequestHeaders(auth), map[], None)
    }

    /** What one call returns once the request is prepared: the encoder's
        error, the transport's error, or the classified response. */
    function Exchange(verb: Verb, parameters: Value, req: Request, send: Request -> Outcome<Value>): Outcome<Value>
    {
      match Encode(verb, parameters, req)
      case Threw(e) => Threw(e)
      case Ok(sent) =>
        match send(sent)
        case Threw(e) => Threw(e)
        case Ok(response) => Classify(response)
    }

    /** What `call` returns from the current state: the URL error, or the
        exchange of the request carrying the cached value (or, on the first
        call, the value computed now). */
    function CallOutcome(verb: Verb, callType: string, parameters: Value, timestamp: int, nonce: string,
                         send: Request -> Outcome<Value>): Outcome<Value>
      reads this
    {
      match GetUrl(callType)
      case Threw(e) => Threw(e)
      case Ok(uri) =>
        var auth := if authorisation.Some? then authorisation.value else AuthorisationFor(verb, uri, timestamp, nonce);
        Exchange(verb, parameters, Prepared(verb, uri, auth), send)
    }

    /** The first half of `call`: authorise, record the request type and
        prepare the request carrying the cached value. */
    method Prepare(verb: Verb, callType: string, timestamp: int, nonce: string) returns (r: Outcome<Request>)
      requires Valid()
      modifies this
      ensures Valid()
      ensures old(authorisation).Some? ==> authorisation == old(authorisation)
      ensures old(authorisation).None? && |BaseUrl()| > 0 ==>
                authorisation == Some(AuthorisationFor(verb, GetUrl(callType).value, timestamp, nonce))
      ensures |BaseUrl()| == 0 ==> r == Threw(Exception(NoBaseUrlMessage()))
      ensures |BaseUrl()| > 0 ==>
                authorisation.Some? && requestType == Some(VerbName(verb))
                && r == Ok(Prepared(verb, GetUrl(callType).value, authorisation.value)) && request == Some(r.value)
    {
      var authorised := Authorise(verb, callType, timestamp, nonce);
      if authorised.Threw? {
        return Threw(authorised.error);
      }
      requestType := Some(VerbName(verb));
      var uri := GetUrl(callType);
      var req := Prepared(verb, uri.value, authorisation.value);
      request := Some(req);
      r := Ok(req);
    }

    /** `call`: authorise (at most once per client), prepare the request with the
        cached value as its `Authorization` header, encode the parameters, send
        and classify the response. */
    method Call(verb: Verb, callType: string, parameters: Value, timestamp: int, nonce: string,
                send: Request -> Outcome<Value>) returns (r: Outcome<Value>)
      requires Valid()
      requires parameters.Arr?
      modifies this
      ensures Valid()
      ensures old(authorisation).Some? ==> authorisation == old(authorisation)
      ensures old(authorisation).None? && |BaseUrl()| > 0 ==>
                authorisation == Some(AuthorisationFor(verb, GetUrl(callType).value, timestamp, nonce))
      ensures |BaseUrl()| > 0 ==> authorisation.Some? && requestType == Some(VerbName(verb))
      ensures r == old(CallOutcome(verb, callType, parameters, timestamp, nonce, send))
    {
      ghost var outcome := CallOutcome(verb, callType, parameters, timestamp, nonce, send);
      var prepared := Prepare(verb, callType, timestamp, nonce);
      if prepared.Threw? {
        return Threw(prepared.error);
      }
      var req := prepared.value;
      assert outcome == Exchange(verb, parameters, req, send);
      match EncoderFor(verb) {
        case None =>
          return Threw(FatalError("Call to undefined method " + SetterName(verb) + "()"));
        case Some(JsonContent) =>
          request := Some(req.(content := Some(primitives.jsonEncode(parameters))));
        case Some(UrlParameters) =>
          var encoded := SetUrlParameters(parameters);
          if encoded.Threw? {
            assert Encode(verb, parameters, req) == Threw(encoded.error);
            return Threw(encoded.error);
          }
      }
      assert Encode(verb, parameters, req) == Ok(request.value);
      var response := send(request.value);
      if response.Threw? {
        return Threw(response.error);
      }
      r := Classify(response.value);
    }
  }
}
