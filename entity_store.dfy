/** The entity service the gateways write through, reduced to what they use:
    records keyed by (entity type, store id, unique id), the table linking an
    entity to its local id on the MMS node, the order items of an order, and
    snapshots for the creation transaction. Writes to the keys in `refused`
    fail with an exception, the way a database error surfaces to the code. */
module EntityStore {
  import opened PhpValues

  datatype Record = Record(attrs: map<string, Value>, parent: Option<Key>)

  /** Everything a rollback restores. */
  datatype Snapshot = Snapshot(records: map<Key, Record>, localIds: map<Key, string>,
                               byLocal: map<(string, string), Key>, children: map<Key, seq<Key>>)

  /** `$entity->getData($code, $default)`: the default when the attribute is
      missing or NULL. */
  function Attr(r: Record, code: string, default: Value): (v: Value)
    ensures code in r.attrs && r.attrs[code] != Null ==> v == r.attrs[code]
    ensures !(code in r.attrs && r.attrs[code] != Null) ==> v == default
  {
    if code in r.attrs && r.attrs[code] != Null then r.attrs[code] else default
  }

  /** The message of an exception the entity service throws about `k`. */
  function Failure(k: Key, what: string): string
  {
    "Entity " + k.uniqueId + " " + what + "."
  }

  /** The link table is a bijection between linked entities and their
      (entity type, local id) pairs, and only stored entities are linked. */
  ghost predicate LinkTable(records: map<Key, Record>, localIds: map<Key, string>,
                            byLocal: map<(string, string), Key>)
  {
    (forall k :: k in localIds ==>
       k in records && (k.entityType, localIds[k]) in byLocal && byLocal[(k.entityType, localIds[k])] == k)
    && (forall e :: e in byLocal ==>
          byLocal[e] in localIds && byLocal[e].entityType == e.0 && localIds[byLocal[e]] == e.1)
  }

  /** Only stored entities have items, and the items are stored order items. */
  ghost predicate ItemTable(records: map<Key, Record>, children: map<Key, seq<Key>>)
  {
    (forall p :: p in children ==> p in records)
    && (forall p, i :: p in children && 0 <= i < |children[p]| ==>
          children[p][i] in records && children[p][i].entityType == "orderitem")
  }

  ghost predicate ValidState(s: Snapshot)
  {
    LinkTable(s.records, s.localIds, s.byLocal) && ItemTable(s.records, s.children)
  }

  /** The local ids after linking `k` to `localId`: the entity of the same type
      holding `localId` loses it, and `k` gets it in place of its old one. */
  function RelinkedIds(localIds: map<Key, string>, byLocal: map<(string, string), Key>, k: Key, localId: string)
    : map<Key, string>
  {
    var slot := (k.entityType, localId);
    (if slot in byLocal then localIds - {byLocal[slot]} else localIds)[k := localId]
  }

  function RelinkedIndex(localIds: map<Key, string>, byLocal: map<(string, string), Key>, k: Key, localId: string)
    : map<(string, string), Key>
  {
    (if k in localIds then byLocal - {(k.entityType, localIds[k])} else byLocal)[(k.entityType, localId) := k]
  }

  /** Relinking keeps the table a bijection and links `k` to `localId`. */
  lemma RelinkKeepsTable(records: map<Key, Record>, localIds: map<Key, string>, byLocal: map<(string, string), Key>,
                         k: Key, localId: string)
    requires LinkTable(records, localIds, byLocal) && k in records
    ensures var ids := RelinkedIds(localIds, byLocal, k, localId);
      var idx := RelinkedIndex(localIds, byLocal, k, localId);
      LinkTable(records, ids, idx) && ids[k] == localId && idx[(k.entityType, localId)] == k
  {
  }

  /** Relinking keeps every other link that did not hold `localId` for the
      same entity type, and adds none. */
  lemma RelinkKeepsOthers(records: map<Key, Record>, localIds: map<Key, string>, byLocal: map<(string, string), Key>,
                          k: Key, localId: string)
    requires LinkTable(records, localIds, byLocal)
    ensures var ids := RelinkedIds(localIds, byLocal, k, localId);
      && (forall j :: j in localIds && j != k && !(j.entityType == k.entityType && localIds[j] == localId) ==>
            j in ids && ids[j] == localIds[j])
      && (forall j :: j in ids ==> j == k || (j in localIds && ids[j] == localIds[j]))
  {
  }

  /** The items of `order` in a child table. */
  function ChildrenOf(children: map<Key, seq<Key>>, order: Key): seq<Key>
  {
    if order in children then children[order] else []
  }

  /** The state after `createEntity` stored `k` under `parent`. */
  function CreatedIn(s: Snapshot, k: Key, attrs: map<string, Value>, parent: Option<Key>): Snapshot
  {
    var children := if parent.Some? then s.children[parent.value := ChildrenOf(s.children, parent.value) + [k]] else s.children;
    Snapshot(s.records[k := Record(attrs, parent)], s.localIds, s.byLocal, children)
  }

  /** The state after `updateEntity` wrote `data` over the attributes of `k`. */
  function UpdatedIn(s: Snapshot, k: Key, data: map<string, Value>): Snapshot
    requires k in s.records
  {
    Snapshot(s.records[k := Record(s.records[k].attrs + data, s.records[k].parent)], s.localIds, s.byLocal, s.children)
  }

  /** The state after `linkEntity` linked `k` to `localId`. */
  function LinkedIn(s: Snapshot, k: Key, localId: string): Snapshot
  {
    Snapshot(s.records, RelinkedIds(s.localIds, s.byLocal, k, localId), RelinkedIndex(s.localIds, s.byLocal, k, localId),
             s.children)
  }

  /** The state after `unlinkEntity` unlinked `k`. */
  function UnlinkedIn(s: Snapshot, k: Key): Snapshot
  {
    if k in s.localIds then Snapshot(s.records, s.localIds - {k}, s.byLocal - {(k.entityType, s.localIds[k])}, s.children)
    else s
  }

  /** The links of every entity type but `t` are as they were. */
  predicate OtherTypesKept(t: string, before: map<(string, string), Key>, after: map<(string, string), Key>)
  {
    forall e :: e in before && e.0 != t ==> e in after && after[e] == before[e]
  }

  class Store {
    var records: map<Key, Record>
    /** Entity -> its local id on the node. */
    var localIds: map<Key, string>
    /** (entity type, local id) -> entity: the reverse of `localIds`. */
    var byLocal: map<(string, string), Key>
    /** Order -> its order items, in creation order. */
    var children: map<Key, seq<Key>>
    /** Keys whose writes the database rejects. */
    const refused: set<Key>

    ghost predicate Valid()
      reads this
    {
      LinkTable(records, localIds, byLocal) && ItemTable(records, children)
    }

    constructor (refused: set<Key>)
      ensures Valid()
      ensures records == map[] && localIds == map[] && byLocal == map[] && children == map[]
      ensures this.refused == refused
    {
      records := map[];
      localIds := map[];
      byLocal := map[];
      children := map[];
      this.refused := refused;
    }

    /** `loadEntity($nodeId, $type, $storeId, $uniqueId)`. */
    function Load(k: Key): (r: Option<Record>)
      reads this
      ensures r.Some? <==> k in records
      ensures r.Some? ==> r.value == records[k]
    {
      if k in records then Some(records[k]) else None
    }

    /** `loadEntityLocal($nodeId, $type, $storeId, $localId)`: the entity of that
        type linked to the local id, provided it belongs to the store. */
    function LoadLocal(entityType: string, storeId: string, localId: string): (r: Option<Key>)
      reads this
      ensures r.Some? ==> (entityType, localId) in byLocal && r.value == byLocal[(entityType, localId)]
                          && r.value.storeId == storeId
      ensures r.None? ==> (entityType, localId) !in byLocal || byLocal[(entityType, localId)].storeId != storeId
    {
      if (entityType, localId) in byLocal && byLocal[(entityType, localId)].storeId == storeId
      then Some(byLocal[(entityType, localId)]) else None
    }

    /** `getLocalId($nodeId, $entity)`. */
    function LocalId(k: Key): (r: Option<string>)
      reads this
      ensures r.Some? <==> k in localIds
      ensures r.Some? ==> r.value == localIds[k]
    {
      if k in localIds then Some(localIds[k]) else None
    }

    /** The local id as PHP sees it: the id string, or NULL when unlinked. */
    function LocalIdValue(k: Key): (r: Value)
      reads this
      ensures k in localIds <==> r.Str?
      ensures k in localIds ==> r == Str(localIds[k])
      ensures k !in localIds ==> r == Null
    {
      if k in localIds then Str(localIds[k]) else Null
    }

    /** `getOrderitems()`: the items created under an order. */
    function Items(order: Key): (r: seq<Key>)
      reads this
      ensures order in children ==> r == children[order]
      ensures order !in children ==> r == []
    {
      if order in children then children[order] else []
    }

    function Save(): (s: Snapshot)
      reads this
      ensures s == Snapshot(records, localIds, byLocal, children)
    {
      Snapshot(records, localIds, byLocal, children)
    }

    /** `rollbackEntityTransaction`: every write since the snapshot is undone. */
    method Restore(s: Snapshot)
      requires ValidState(s)
      modifies this
      ensures Save() == s && Valid()
    {
      records := s.records;
      localIds := s.localIds;
      byLocal := s.byLocal;
      children := s.children;
      assert Save() == s;
    }

    /** `createEntity($nodeId, $type, $storeId, $uniqueId, $data, $parent)`: fails
        on a key that exists already or is refused; otherwise stores the record
        and appends it to its parent's items. */
    method Create(k: Key, attrs: map<string, Value>, parent: Option<Key>) returns (r: Outcome<Key>)
      requires Valid()
      requires parent.Some? ==> parent.value in records && k.entityType == "orderitem"
      modifies this
      ensures Valid()
      ensures r.Ok? <==> k !in old(records) && k !in refused
      ensures r.Ok? ==> r.value == k
      ensures r.Ok? ==> records == old(records)[k := Record(attrs, parent)]
      ensures r.Ok? && parent.Some? ==> children == old(children)[parent.value := old(Items(parent.value)) + [k]]
      ensures r.Ok? && parent.None? ==> children == old(children)
      ensures r.Threw? ==> records == old(records) && children == old(children)
      ensures r.Threw? ==> r.error == Exception(Failure(k, if k in old(records) then "already exists" else "could not be saved"))
      ensures localIds == old(localIds) && byLocal == old(byLocal)
      ensures r.Ok? ==> Save() == CreatedIn(old(Save()), k, attrs, parent)
      ensures r.Threw? ==> Save() == old(Save())
    {
      if k in records {
        return Threw(Exception(Failure(k, "already exists")));
      }
      if k in refused {
        return Threw(Exception(Failure(k, "could not be saved")));
      }
      records := records[k := Record(attrs, parent)];
      if parent.Some? {
        children := children[parent.value := Items(parent.value) + [k]];
      }
      r := Ok(k);
    }

    /** `updateEntity($nodeId, $entity, $data)`: the given attributes overwrite
        the stored ones; all others stay. */
    method Update(k: Key, data: map<string, Value>) returns (r: Outcome<Key>)
      requires Valid()
      modifies this
      ensures Valid()
      ensures r.Ok? <==> k in old(records) && k !in refused
      ensures r.Ok? ==> records == old(records)[k := Record(old(records)[k].attrs + data, old(records)[k].parent)]
      ensures r.Threw? ==> records == old(records) && r.error == Exception(Failure(k, "could not be updated"))
      ensures localIds == old(localIds) && byLocal == old(byLocal) && children == old(children)
      ensures r.Ok? ==> Save() == UpdatedIn(old(Save()), k, data)
      ensures r.Threw? ==> Save() == old(Save())
    {
      if k !in records || k in refused {
        return Threw(Exception(Failure(k, "could not be updated")));
      }
      records := records[k := Record(records[k].attrs + data, records[k].parent)];
      r := Ok(k);
    }

    /** `linkEntity($nodeId, $entity, $localId)`: the entity's local id becomes
        `localId`; its previous local id and any other entity of the same type
        holding `localId` are unlinked. */
    method Link(k: Key, localId: string) returns (r: Outcome<Key>)
      requires Valid()
      modifies this
      ensures Valid()
      ensures r.Ok? <==> k in old(records) && k !in refused
      ensures r.Ok? ==> LocalId(k) == Some(localId) && byLocal[(k.entityType, localId)] == k
      ensures r.Ok? ==> forall j :: j in old(localIds) && j != k && !(j.entityType == k.entityType && old(localIds)[j] == localId) ==>
                          j in localIds && localIds[j] == old(localIds)[j]
      ensures r.Ok? ==> forall j :: j in localIds ==> j == k || (j in old(localIds) && localIds[j] == old(localIds)[j])
      ensures r.Threw? ==> localIds == old(localIds) && byLocal == old(byLocal) && r.error == Exception(Failure(k, "could not be linked"))
      ensures OtherTypesKept(k.entityType, old(byLocal), byLocal)
      ensures records == old(records) && children == old(children)
      ensures r.Ok? ==> Save() == LinkedIn(old(Save()), k, localId)
      ensures r.Threw? ==> Save() == old(Save())
    {
      if k !in records || k in refused {
        return Threw(Exception(Failure(k, "could not be linked")));
      }
      RelinkKeepsTable(records, localIds, byLocal, k, localId);
      RelinkKeepsOthers(records, localIds, byLocal, k, localId);
      localIds, byLocal := RelinkedIds(localIds, byLocal, k, localId), RelinkedIndex(localIds, byLocal, k, localId);
      r := Ok(k);
    }

    /** `unlinkEntity($nodeId, $entity)`. */
    method Unlink(k: Key) returns (r: Outcome<Key>)
      requires Valid()
      modifies this
      ensures Valid()
      ensures r.Ok? <==> k !in refused
      ensures r.Ok? ==> localIds == old(localIds) - {k}
      ensures r.Ok? && k in old(localIds) ==> byLocal == old(byLocal) - {(k.entityType, old(localIds)[k])}
      ensures r.Ok? && k !in old(localIds) ==> byLocal == old(byLocal)
      ensures r.Threw? ==> localIds == old(localIds) && byLocal == old(byLocal) && r.error == Exception(Failure(k, "could not be unlinked"))
      ensures OtherTypesKept(k.entityType, old(byLocal), byLocal)
      ensures records == old(records) && children == old(children)
      ensures r.Ok? ==> Save() == UnlinkedIn(old(Save()), k)
      ensures r.Threw? ==> Save() == old(Save())
    {
      if k in refused {
        return Threw(Exception(Failure(k, "could not be unlinked")));
      }
      if k in localIds {
        byLocal := byLocal - {(k.entityType, localIds[k])};
        localIds := localIds - {k};
      }
      r := Ok(k);
    }
  }
}
