/** The MMS configuration service's `getMapByStoreId`: the entity maps of the
    configured stores, filtered by store and entity type, inverted unless the
    map is read from Magento's side, and merged so that earlier stores win. */
module MmsConfig {
  import opened PhpValues

  type Entries = seq<(string, Value)>

  /** One entry of `store_map`: a store id and that store's maps by entity type. */
  type StoreEntry = (int, Value)

  // ---------------------------------------------------------------- array_flip

  /** The values `array_flip` can turn into keys. */
  predicate Flippable(v: Value)
  {
    v.Str? || v.Int?
  }

  /** `array_flip` continued from `acc`: each flippable value becomes a key
      holding the entry's key; a repeated value keeps its first place and
      the key of its last occurrence; other values are skipped. */
  function FlipInto(acc: Entries, entries: Entries): Entries
    decreases |entries|
  {
    if |entries| == 0 then acc
    else
      var e := entries[0];
      FlipInto(if Flippable(e.1) then Replace(acc, Text(e.1), Str(e.0)) else acc, entries[1..])
  }

  function Flip(entries: Entries): Entries
  {
    FlipInto([], entries)
  }

  /** Flipping loses nothing: every value flips, and no two values are the
      same key. */
  predicate Invertible(entries: Entries)
  {
    (forall i :: 0 <= i < |entries| ==> Flippable(entries[i].1))
    && forall i, j :: 0 <= i < j < |entries| ==> Text(entries[i].1) != Text(entries[j].1)
  }

  lemma {:induction false} FlipIntoBound(acc: Entries, entries: Entries)
    ensures |FlipInto(acc, entries)| <= |acc| + |entries|
    decreases |entries|
  {
    if |entries| > 0 {
      var e := entries[0];
      FlipIntoBound(if Flippable(e.1) then Replace(acc, Text(e.1), Str(e.0)) else acc, entries[1..]);
    }
  }

  /** The entries are invertible and name no key of `acc`. */
  predicate AllNew(acc: Entries, entries: Entries)
  {
    Invertible(entries) && forall i :: 0 <= i < |entries| ==> !HasKey(acc, Text(entries[i].1))
  }

  /** After the first entry is flipped into `acc`, the rest are all new there
      exactly when all the entries were new in `acc`. */
  lemma AllNewStep(acc: Entries, entries: Entries)
    requires |entries| > 0 && Flippable(entries[0].1) && !HasKey(acc, Text(entries[0].1))
    ensures var acc' := Replace(acc, Text(entries[0].1), Str(entries[0].0));
      AllNew(acc, entries) <==> AllNew(acc', entries[1..])
  {
    var e := entries[0];
    var rest := entries[1..];
    var acc' := Replace(acc, Text(e.1), Str(e.0));
    ReplaceKeys(acc, Text(e.1), Str(e.0));
    if AllNew(acc, entries) {
      AllNewRest(acc, entries);
    }
    if AllNew(acc', rest) {
      AllNewFirst(acc, entries);
    }
  }

  lemma AllNewRest(acc: Entries, entries: Entries)
    requires |entries| > 0 && AllNew(acc, entries)
    requires forall j :: HasKey(Replace(acc, Text(entries[0].1), Str(entries[0].0)), j) <==>
                           HasKey(acc, j) || j == Text(entries[0].1)
    ensures AllNew(Replace(acc, Text(entries[0].1), Str(entries[0].0)), entries[1..])
  {
    var rest := entries[1..];
    forall i | 0 <= i < |rest| ensures Flippable(rest[i].1) {
      assert rest[i] == entries[i + 1];
    }
    forall a, b | 0 <= a < b < |rest| ensures Text(rest[a].1) != Text(rest[b].1) {
      assert rest[a] == entries[a + 1] && rest[b] == entries[b + 1];
    }
    forall i | 0 <= i < |rest| ensures !HasKey(Replace(acc, Text(entries[0].1), Str(entries[0].0)), Text(rest[i].1)) {
      assert rest[i] == entries[i + 1];
    }
  }

  lemma AllNewFirst(acc: Entries, entries: Entries)
    requires |entries| > 0 && Flippable(entries[0].1) && !HasKey(acc, Text(entries[0].1))
    requires AllNew(Replace(acc, Text(entries[0].1), Str(entries[0].0)), entries[1..])
    requires forall j :: HasKey(Replace(acc, Text(entries[0].1), Str(entries[0].0)), j) <==>
                           HasKey(acc, j) || j == Text(entries[0].1)
    ensures AllNew(acc, entries)
  {
    var rest := entries[1..];
    forall i | 0 <= i < |entries| ensures Flippable(entries[i].1) && !HasKey(acc, Text(entries[i].1)) {
      if i > 0 { assert entries[i] == rest[i - 1]; }
    }
    forall a, b | 0 <= a < b < |entries| ensures Text(entries[a].1) != Text(entries[b].1) {
      assert entries[b] == rest[b - 1];
      if a > 0 { assert entries[a] == rest[a - 1]; }
    }
  }

  /** Flipping into `acc` adds one entry per entry exactly when the entries
      are invertible and none of their values is a key of `acc` already. */
  lemma {:induction false} FlipIntoCount(acc: Entries, entries: Entries)
    ensures |FlipInto(acc, entries)| == |acc| + |entries| <==> AllNew(acc, entries)
    decreases |entries|
  {
    if |entries| > 0 {
      var e := entries[0];
      var rest := entries[1..];
      if !Flippable(e.1) {
        FlipIntoBound(acc, rest);
      } else {
        var acc' := Replace(acc, Text(e.1), Str(e.0));
        if HasKey(acc, Text(e.1)) {
          FlipIntoBound(acc', rest);
        } else {
          FlipIntoCount(acc', rest);
          AllNewStep(acc, entries);
        }
      }
    }
  }

  /** `count($map) == count(array_flip($map))` exactly when the map is
      invertible. */
  lemma FlipCount(entries: Entries)
    ensures |Flip(entries)| == |entries| <==> Invertible(entries)
  {
    FlipIntoCount([], entries);
    assert forall k :: !HasKey([], k);
  }

  /** Flipping leaves the keys no entry's value names as they were. */
  lemma {:induction false} FlipIntoOthers(acc: Entries, entries: Entries, k: string)
    requires forall i :: 0 <= i < |entries| ==> !Flippable(entries[i].1) || Text(entries[i].1) != k
    ensures Lookup(FlipInto(acc, entries), k) == Lookup(acc, k)
    decreases |entries|
  {
    if |entries| > 0 {
      var e := entries[0];
      var rest := entries[1..];
      forall i | 0 <= i < |rest| ensures !Flippable(rest[i].1) || Text(rest[i].1) != k {
        assert rest[i] == entries[i + 1];
      }
      FlipIntoOthers(if Flippable(e.1) then Replace(acc, Text(e.1), Str(e.0)) else acc, rest, k);
    }
  }

  /** An invertible map flips into its inverse: each value leads back to its key. */
  lemma {:induction false} FlipIntoInverts(acc: Entries, entries: Entries)
    requires Invertible(entries)
    ensures forall i :: 0 <= i < |entries| ==> Lookup(FlipInto(acc, entries), Text(entries[i].1)) == Str(entries[i].0)
    decreases |entries|
  {
    if |entries| > 0 {
      var e := entries[0];
      var rest := entries[1..];
      var acc' := Replace(acc, Text(e.1), Str(e.0));
      assert Invertible(rest) by {
        forall i | 0 <= i < |rest| ensures Flippable(rest[i].1) {
          assert rest[i] == entries[i + 1];
        }
        forall a, b | 0 <= a < b < |rest| ensures Text(rest[a].1) != Text(rest[b].1) {
          assert rest[a] == entries[a + 1] && rest[b] == entries[b + 1];
        }
      }
      FlipIntoInverts(acc', rest);
      forall i | 0 <= i < |rest| ensures !Flippable(rest[i].1) || Text(rest[i].1) != Text(e.1) {
        assert rest[i] == entries[i + 1];
      }
      FlipIntoOthers(acc', rest, Text(e.1));
      forall i | 0 <= i < |entries|
        ensures Lookup(FlipInto(acc, entries), Text(entries[i].1)) == Str(entries[i].0)
      {
        if i > 0 { assert entries[i] == rest[i - 1]; }
      }
    }
  }

  lemma FlipInverts(entries: Entries)
    requires Invertible(entries)
    ensures forall i :: 0 <= i < |entries| ==> Lookup(Flip(entries), Text(entries[i].1)) == Str(entries[i].0)
  {
    FlipIntoInverts([], entries);
  }

  lemma {:induction false} FlipIntoDistinct(acc: Entries, entries: Entries)
    requires DistinctKeys(acc)
    ensures DistinctKeys(FlipInto(acc, entries))
    decreases |entries|
  {
    if |entries| > 0 {
      var e := entries[0];
      if Flippable(e.1) {
        ReplaceKeys(acc, Text(e.1), Str(e.0));
      }
      FlipIntoDistinct(if Flippable(e.1) then Replace(acc, Text(e.1), Str(e.0)) else acc, entries[1..]);
    }
  }

  // ---------------------------------------------------------------- array_replace_recursive

  /** `array_replace_recursive($base, $repl)` from the `i`-th entry of `repl`
      on: each entry of `repl` replaces the base's entry of the same key or is
      appended; where both are arrays they are merged the same way. */
  function ReplaceRecursive(base: Entries, repl: Value, i: nat): Entries
    requires repl.Arr? && i <= |repl.entries|
    decreases repl, |repl.entries| - i
  {
    if i == |repl.entries| then base
    else
      var k := repl.entries[i].0;
      var v := repl.entries[i].1;
      var cur := Lookup(base, k);
      var nv := if v.Arr? && cur.Arr? then Arr(ReplaceRecursive(cur.entries, v, 0)) else v;
      ReplaceRecursive(Replace(base, k, nv), repl, i + 1)
  }

  /** Keys that `repl` does not name keep the base's entry. */
  lemma {:induction false} ReplaceRecursiveOthers(base: Entries, repl: Value, i: nat, k: string)
    requires repl.Arr? && i <= |repl.entries|
    requires forall j :: i <= j < |repl.entries| ==> repl.entries[j].0 != k
    ensures Lookup(ReplaceRecursive(base, repl, i), k) == Lookup(base, k)
    decreases |repl.entries| - i
  {
    if i < |repl.entries| {
      var key := repl.entries[i].0;
      var v := repl.entries[i].1;
      var cur := Lookup(base, key);
      var nv := if v.Arr? && cur.Arr? then Arr(ReplaceRecursive(cur.entries, v, 0)) else v;
      ReplaceRecursiveOthers(Replace(base, key, nv), repl, i + 1, k);
    }
  }

  /** An entry of `repl` that is no array ends up as it is. */
  lemma {:induction false} ReplaceRecursiveScalars(base: Entries, repl: Value, i: nat)
    requires repl.Arr? && i <= |repl.entries| && DistinctKeys(repl.entries)
    ensures forall j :: i <= j < |repl.entries| && !repl.entries[j].1.Arr? ==>
              Lookup(ReplaceRecursive(base, repl, i), repl.entries[j].0) == repl.entries[j].1
    decreases |repl.entries| - i
  {
    if i < |repl.entries| {
      var key := repl.entries[i].0;
      var v := repl.entries[i].1;
      var cur := Lookup(base, key);
      var nv := if v.Arr? && cur.Arr? then Arr(ReplaceRecursive(cur.entries, v, 0)) else v;
      var base' := Replace(base, key, nv);
      ReplaceRecursiveScalars(base', repl, i + 1);
      if !v.Arr? {
        ReplaceRecursiveOthers(base', repl, i + 1, key);
      }
    }
  }

  lemma {:induction false} ReplaceRecursiveDistinct(base: Entries, repl: Value, i: nat)
    requires repl.Arr? && i <= |repl.entries| && DistinctKeys(base)
    ensures DistinctKeys(ReplaceRecursive(base, repl, i))
    decreases |repl.entries| - i
  {
    if i < |repl.entries| {
      var key := repl.entries[i].0;
      var v := repl.entries[i].1;
      var cur := Lookup(base, key);
      var nv := if v.Arr? && cur.Arr? then Arr(ReplaceRecursive(cur.entries, v, 0)) else v;
      ReplaceKeys(base, key, nv);
      ReplaceRecursiveDistinct(Replace(base, key, nv), repl, i + 1);
    }
  }

  // ---------------------------------------------------------------- getMapByStoreId

  function Abs(n: int): nat
  {
    if n < 0 then -n else n
  }

  /** The store id compared: as configured when reading from Magento, its
      absolute value otherwise. */
  function ComparedId(id: int, readFromMagento: bool): int
  {
    if readFromMagento then id else Abs(id)
  }

  /** `$storeId === FALSE || $storeId == $id && isset($mapPreStore[$entityType])`. */
  predicate Matches(storeId: Value, id: int, readFromMagento: bool, perStore: Value, entityType: string)
  {
    storeId == Bool(false) || (LooseEq(storeId, Int(ComparedId(id, readFromMagento))) && Isset(perStore, entityType))
  }

  /** What a matching store adds: its entity map as it is, or inverted;
      nothing when the map is no array or flipping it loses entries (the
      exception is built but never thrown). */
  function Contribution(entityMap: Value, readFromMagento: bool): Option<Entries>
  {
    if !entityMap.Arr? || |entityMap.entries| != |Flip(entityMap.entries)| then None
    else if readFromMagento then Some(entityMap.entries)
    else Some(Flip(entityMap.entries))
  }

  /** One turn of the `foreach`: the accumulated map after one store. */
  function Step(store: StoreEntry, entityType: string, storeId: Value, readFromMagento: bool, acc: Entries): Entries
  {
    if !Matches(storeId, store.0, readFromMagento, store.1, entityType) then acc
    else
      match Contribution(Index(store.1, entityType), readFromMagento)
      case None => acc
      case Some(c) => ReplaceRecursive(c, Arr(acc), 0)
  }

  /** The rest of the `foreach`, from the accumulated map `acc`. */
  function Merge(stores: seq<StoreEntry>, entityType: string, storeId: Value, readFromMagento: bool, acc: Entries)
    : Entries
    decreases |stores|
  {
    if |stores| == 0 then acc
    else Merge(stores[1..], entityType, storeId, readFromMagento, Step(stores[0], entityType, storeId, readFromMagento, acc))
  }

  /** The map `getMapByStoreId` returns. */
  function MapByStoreId(stores: seq<StoreEntry>, entityType: string, storeId: Value, readFromMagento: bool): Value
  {
    if !IsNumeric(storeId) && readFromMagento then Arr([])
    else Arr(Merge(stores, entityType, storeId, readFromMagento, []))
  }

  /** Entity maps with distinct keys, as PHP arrays from configuration have. */
  predicate WellKeyed(stores: seq<StoreEntry>, entityType: string)
  {
    forall s :: 0 <= s < |stores| && Index(stores[s].1, entityType).Arr? ==>
      DistinctKeys(Index(stores[s].1, entityType).entries)
  }

  /** The body of the `foreach` for one store. */
  method StoreStep(store: StoreEntry, entityType: string, storeId: Value, readFromMagento: bool, acc: Entries)
    returns (acc': Entries)
    ensures acc' == Step(store, entityType, storeId, readFromMagento, acc)
  {
    acc' := acc;
    var id := store.0;
    var perStore := store.1;
    if !readFromMagento {
      id := Abs(id);
    }
    if storeId == Bool(false) || (LooseEq(storeId, Int(id)) && Isset(perStore, entityType)) {
      var entityMap := Index(perStore, entityType);
      var flipped := if entityMap.Arr? then Flip(entityMap.entries) else [];
      // A map that is no array or loses entries when flipped is passed over.
      if entityMap.Arr? && |entityMap.entries| == |flipped| {
        if readFromMagento {
          acc' := ReplaceRecursive(entityMap.entries, Arr(acc), 0);
        } else {
          acc' := ReplaceRecursive(flipped, Arr(acc), 0);
        }
      }
    }
  }

  /** `getMapByStoreId($entityType, $storeId, $readFromMagento)`. */
  method GetMapByStoreId(storeMap: seq<StoreEntry>, entityType: string, storeId: Value, readFromMagento: bool)
    returns (m: Value)
    ensures m == MapByStoreId(storeMap, entityType, storeId, readFromMagento)
  {
    var acc: Entries := [];
    if !IsNumeric(storeId) && readFromMagento {
      return Arr(acc);
    }
    var i := 0;
    while i < |storeMap|
      invariant 0 <= i <= |storeMap|
      invariant Merge(storeMap[i..], entityType, storeId, readFromMagento, acc)
                == Merge(storeMap, entityType, storeId, readFromMagento, [])
    {
      acc := StoreStep(storeMap[i], entityType, storeId, readFromMagento, acc);
      assert storeMap[i..][1..] == storeMap[i + 1..];
      i := i + 1;
    }
    m := Arr(acc);
  }

  // ---------------------------------------------------------------- properties

  /** A store id that is not numeric, when reading from Magento, gives the
      empty map. */
  lemma NonNumericStoreId(stores: seq<StoreEntry>, entityType: string, storeId: Value)
    requires !IsNumeric(storeId)
    ensures MapByStoreId(stores, entityType, storeId, true) == Arr([])
  {
  }

  /** FALSE matches every store; otherwise, when not reading from Magento, an
      integer store id matches the stores whose absolute id it is and which
      have a map for the entity type. */
  lemma StoreMatching(storeId: Value, id: int, perStore: Value, entityType: string)
    ensures storeId == Bool(false) ==> Matches(storeId, id, false, perStore, entityType)
                                        && Matches(storeId, id, true, perStore, entityType)
    ensures storeId.Int? ==>
              (Matches(storeId, id, false, perStore, entityType) <==>
                 storeId.i == Abs(id) && Isset(perStore, entityType))
  {
  }

  /** A matching store adds nothing unless its entity map is an invertible
      array; an invertible one is inverted unless reading from Magento. */
  lemma ContributionMeaning(entityMap: Value, readFromMagento: bool)
    ensures Contribution(entityMap, readFromMagento).Some? <==> entityMap.Arr? && Invertible(entityMap.entries)
    ensures Contribution(entityMap, readFromMagento).Some? && readFromMagento ==>
              Contribution(entityMap, readFromMagento).value == entityMap.entries
    ensures Contribution(entityMap, readFromMagento).Some? && !readFromMagento ==>
              var c := Contribution(entityMap, readFromMagento).value;
              forall i :: 0 <= i < |entityMap.entries| ==>
                Lookup(c, Text(entityMap.entries[i].1)) == Str(entityMap.entries[i].0)
  {
    if entityMap.Arr? {
      FlipCount(entityMap.entries);
      if Invertible(entityMap.entries) {
        FlipInverts(entityMap.entries);
      }
    }
  }

  /** One store keeps every scalar entry accumulated so far, adds the keys of
      its contribution that are new, and keeps the keys distinct. */
  lemma StepMeaning(store: StoreEntry, entityType: string, storeId: Value, readFromMagento: bool, acc: Entries)
    requires DistinctKeys(acc)
    requires Index(store.1, entityType).Arr? ==> DistinctKeys(Index(store.1, entityType).entries)
    ensures var acc' := Step(store, entityType, storeId, readFromMagento, acc);
      var c := Contribution(Index(store.1, entityType), readFromMagento);
      var taken := Matches(storeId, store.0, readFromMagento, store.1, entityType) && c.Some?;
      && DistinctKeys(acc')
      && (!taken ==> acc' == acc)
      && (taken ==> forall j :: 0 <= j < |acc| && !acc[j].1.Arr? ==> Lookup(acc', acc[j].0) == acc[j].1)
      && (taken ==> forall k :: !HasKey(acc, k) ==> Lookup(acc', k) == Lookup(c.value, k))
  {
    var c := Contribution(Index(store.1, entityType), readFromMagento);
    if Matches(storeId, store.0, readFromMagento, store.1, entityType) && c.Some? {
      var m := Index(store.1, entityType);
      if !readFromMagento {
        FlipIntoDistinct([], m.entries);
      }
      ReplaceRecursiveDistinct(c.value, Arr(acc), 0);
      ReplaceRecursiveScalars(c.value, Arr(acc), 0);
      forall k | !HasKey(acc, k)
        ensures Lookup(ReplaceRecursive(c.value, Arr(acc), 0), k) == Lookup(c.value, k)
      {
        ReplaceRecursiveOthers(c.value, Arr(acc), 0, k);
      }
    }
  }

  /** Over the remaining stores, a scalar entry already accumulated is never
      replaced: the first store that supplies a key wins. */
  lemma {:induction false} MergeKeepsEarlier(stores: seq<StoreEntry>, entityType: string, storeId: Value,
                                             readFromMagento: bool, acc: Entries, j: nat)
    requires DistinctKeys(acc) && WellKeyed(stores, entityType)
    requires j < |acc| && !acc[j].1.Arr? && acc[j].1 != Null
    ensures Lookup(Merge(stores, entityType, storeId, readFromMagento, acc), acc[j].0) == acc[j].1
    decreases |stores|
  {
    LookupDistinct(acc, j);
    if |stores| > 0 {
      var acc' := Step(stores[0], entityType, storeId, readFromMagento, acc);
      StepMeaning(stores[0], entityType, storeId, readFromMagento, acc);
      var x := acc[j].1;
      var k := acc[j].0;
      assert Lookup(acc', k) == x;
      LookupMeaning(acc', k);
      var j' :| 0 <= j' < |acc'| && acc'[j'] == (k, x);
      assert WellKeyed(stores[1..], entityType) by {
        forall s | 0 <= s < |stores[1..]| && Index(stores[1..][s].1, entityType).Arr?
          ensures DistinctKeys(Index(stores[1..][s].1, entityType).entries)
        {
          assert stores[1..][s] == stores[s + 1];
        }
      }
      MergeKeepsEarlier(stores[1..], entityType, storeId, readFromMagento, acc', j');
    }
  }
}
