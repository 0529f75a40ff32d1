/** The registry of monitored nodes: one entry object for each runtime tag, found by tag and by node ID.

    Entries are shared objects. Both indexes are changed together, so a lookup by node ID never yields an entry that
    the tag index has dropped or moved. */
module NodeRegistry {
  import opened Basics

  datatype Info = Info(tag: string, nodeId: int, uri: string, name: string)

  // What an entry has measured: history, the evidence of the current outbound, and where it comes from.
  datatype Health = Health(success: nat, failure: nat, blacklisted: bool, lastError: string, probe: int,
                           available: bool, checked: bool, checkedAt: Option<int>, source: string)

  // Another endpoint starts without history.
  const NO_HEALTH := Health(0, 0, false, "", 0, false, false, None, "none")

  /** A replacement outbound keeps the history but has to prove that it works. */
  function Unproven(h: Health): Health {
    h.(available := false, checked := false, checkedAt := None,
       source := if h.source != "none" then "previous_generation" else h.source)
  }

  class Entry {
    var info: Info
    var health: Health
    var generation: nat

    constructor (info: Info, generation: nat)
      ensures this.info == info && this.health == NO_HEALTH && this.generation == generation
    {
      this.info, this.generation, this.health := info, generation, NO_HEALTH;
    }
  }

  class Registry {
    var byTag: map<string, Entry>
    var byId: map<int, Entry>
    var reload: nat
    // The identity of an endpoint, when its URI can be read.
    const identity: string -> Option<string>

    constructor (identity: string -> Option<string>)
      ensures Valid() && byTag == map[] && byId == map[]
    {
      byTag, byId, reload := map[], map[], 0;
      this.identity := identity;
    }

    ghost predicate Valid()
      reads this, byTag.Values, byId.Values
    {
      Agree(byTag, byId)
    }

    /** byTagEntry and byNodeID: what they find bears the tag or the ID asked for, and both agree. */
    method ByTag(tag: string) returns (item: Entry?)
      requires Valid()
      ensures (item != null <==> tag in byTag) && (item != null ==> item.info.tag == tag && byTag[tag] == item)
    {
      item := if tag in byTag then byTag[tag] else null;
    }

    method ByNodeId(nodeId: int) returns (item: Entry?)
      requires Valid()
      ensures item != null <==> nodeId in byId
      ensures item != null ==>
                item.info.nodeId == nodeId && nodeId != 0 && item.info.tag in byTag && byTag[item.info.tag] == item
    {
      if nodeId == 0 {
        return null;
      }
      item := if nodeId in byId then byId[nodeId] else null;
    }

    method BeginReload()
      requires Valid()
      modifies this`reload
      ensures Valid() && reload == old(reload) + 1
    {
      reload := reload + 1;
    }

    // The node index once an entry has new facts: the ID it had leads nowhere, the ID it has leads to it.
    ghost function Reindexed(ids: map<int, Entry>, item: Entry, hadId: int, nodeId: int): map<int, Entry> {
      var left := if hadId != 0 && hadId != nodeId && hadId in ids && ids[hadId] == item then ids - {hadId} else ids;
      if nodeId != 0 then left[nodeId := item] else left
    }

    /** register: the entry of the tag takes the new facts and keeps its history; a new tag gets a new entry. */
    method Register(info: Info) returns (item: Entry)
      requires Valid()
      modifies this, byTag.Values
      ensures Valid() && reload == old(reload)
      ensures item.info == info && item.generation == reload
      ensures byTag == old(byTag)[info.tag := item]
      ensures byId == Reindexed(old(byId), item, if info.tag in old(byTag) then old(byTag[info.tag].info.nodeId)
              else 0, info.nodeId)
      ensures info.tag in old(byTag) ==> item == old(byTag)[info.tag] && item.health == old(byTag[info.tag].health)
      ensures info.tag !in old(byTag) ==> fresh(item) && item.health == NO_HEALTH
      ensures forall e :: e in old(byTag.Values) && e != item ==> unchanged(e)
    {
      if info.tag !in byTag {
        item := new Entry(info, reload);
        byTag := byTag[info.tag := item];
      } else {
        item := byTag[info.tag];
        var oldNodeId := item.info.nodeId;
        item.info := info;
        item.generation := reload;
        if oldNodeId != 0 && oldNodeId != info.nodeId && oldNodeId in byId && byId[oldNodeId] == item {
          byId := byId - {oldNodeId};
        }
      }
      if info.nodeId != 0 {
        byId := byId[info.nodeId := item];
      }
    }

    // Whether an entry now stands for another endpoint.
    function IdentityChanged(had: string, uri: string): bool {
      had != "" && had != uri && (identity(had).None? || identity(uri).None? || identity(had) != identity(uri))
    }

    /** The health of an entry that moves to new facts. */
    function MovedHealth(h: Health, had: Info, info: Info): Health {
      var moved := if had.tag != "" && had.tag != info.tag then Unproven(h) else h;
      if IdentityChanged(had.uri, info.uri) then NO_HEALTH else moved
    }

    /** A moved entry of the same endpoint keeps every counter and loses the evidence of its old outbound; another
        endpoint inherits nothing. */
    predicate KeepsHistory(h: Health, had: Info, info: Info, moved: Health) {
      && (had.uri == info.uri ==>
            moved.success == h.success && moved.failure == h.failure && moved.lastError == h.lastError
            && moved.blacklisted == h.blacklisted && moved.probe == h.probe
            && (had.tag != "" && had.tag != info.tag ==> !moved.available && !moved.checked))
      && (had.uri != "" && identity(had.uri).Some? && identity(info.uri).Some? ==>
            if identity(had.uri) != identity(info.uri) then moved == NO_HEALTH else moved.success == h.success)
      && (had.uri != "" && had.uri != info.uri && (identity(had.uri).None? || identity(info.uri).None?) ==>
            moved.success == 0 && moved.failure == 0 && !moved.blacklisted && moved.lastError == "" && !moved.available
            && !moved.checked && moved.checkedAt.None?)
      && (had.uri == info.uri && had.tag != "" && had.tag != info.tag ==>
            moved.checkedAt.None? && moved.source == if h.source != "none" then "previous_generation" else "none")
      && (had.uri == info.uri && (had.tag == "" || had.tag == info.tag) ==> moved == h)
    }

    lemma MovedHistory(h: Health, had: Info, info: Info)
      ensures KeepsHistory(h, had, info, MovedHealth(h, had, info))
    {
    }

    /** migrate: the entry of the new tag if there is one, else the node's entry moved to the new tag with its history,
        else a new entry. */
    method Migrate(nodeId: int, info: Info) returns (item: Entry)
      requires Valid()
      modifies this, byTag.Values, byId.Values
      ensures Valid() && reload == old(reload)
      ensures item.info == info && item.generation == reload
      ensures info.tag in old(byTag) ==>
                item == old(byTag)[info.tag] && item.health == old(byTag[info.tag].health) && byTag == old(byTag)
                && byId == Reindexed(old(byId), item, old(byTag[info.tag].info.nodeId), info.nodeId)
      ensures info.tag !in old(byTag) && nodeId in old(byId) ==>
                item == old(byId)[nodeId]
                && byTag == (old(byTag) - {old(byId[nodeId].info.tag)})[info.tag := item]
                && byId == Reindexed(old(byId), item, nodeId, info.nodeId)
                && item.health == MovedHealth(old(byId[nodeId].health), old(byId[nodeId].info), info)
                && KeepsHistory(old(byId[nodeId].health), old(byId[nodeId].info), info, item.health)
      ensures info.tag !in old(byTag) && nodeId !in old(byId) ==>
                fresh(item) && item.health == NO_HEALTH && byTag == old(byTag)[info.tag := item]
                && byId == Reindexed(old(byId), item, 0, info.nodeId)
      ensures forall e :: e in old(byTag.Values) && e != item ==> unchanged(e)
    {
      hide MovedHealth;
      if info.tag in byTag || nodeId !in byId {
        item := Register(info);
      } else {
        MovedHistory(byId[nodeId].health, byId[nodeId].info, info);
        item := Move(nodeId, info);
      }
    }

    // The node's entry leaves its tag for a free one.
    method Move(nodeId: int, info: Info) returns (item: Entry)
      requires Valid() && nodeId in byId && info.tag !in byTag
      modifies this, byId[nodeId]
      ensures Valid() && reload == old(reload)
      ensures item == old(byId)[nodeId] && item.info == info && item.generation == reload
      ensures byTag == (old(byTag) - {old(byId[nodeId].info.tag)})[info.tag := item]
      ensures byId == Reindexed(old(byId), item, nodeId, info.nodeId)
      ensures item.health == MovedHealth(old(byId[nodeId].health), old(byId[nodeId].info), info)
    {
      hide Unproven;
      item := byId[nodeId];
      ghost var facts := map e | e in byTag.Values + byId.Values :: e.info;
      var oldTag := item.info.tag;
      byTag := byTag - {oldTag};
      var changed := IdentityChanged(item.info.uri, info.uri);
      item.info := info;
      item.generation := reload;
      if oldTag != "" && oldTag != info.tag {
        item.health := Unproven(item.health);
      }
      if changed {
        item.health := NO_HEALTH;
      }
      byTag := byTag[info.tag := item];
      if nodeId != 0 && nodeId != info.nodeId && nodeId in byId && byId[nodeId] == item {
        byId := byId - {nodeId};
      }
      if info.nodeId != 0 {
        byId := byId[info.nodeId := item];
      }
      Moved(old(byTag), old(byId), facts, nodeId, item);
    }

    // The indexes agree again once only the moved entry has changed its facts.
    lemma Moved(tags: map<string, Entry>, ids: map<int, Entry>, facts: map<Entry, Info>, nodeId: int, item: Entry)
      requires nodeId in ids && ids[nodeId] == item && item.info.tag !in tags
      requires forall t :: t in tags ==> tags[t] in facts && facts[tags[t]].tag == t
      requires forall n :: n in ids ==>
                 n != 0 && ids[n] in facts && facts[ids[n]].nodeId == n && facts[ids[n]].tag in tags
                     && tags[facts[ids[n]].tag] == ids[n]
      requires forall e :: e in facts && e != item ==> e.info == facts[e]
      ensures Agree((tags - {facts[item].tag})[item.info.tag := item], Reindexed(ids, item, nodeId, item.info.nodeId))
    {
    }

    /** unregister: the tag leads nowhere, and neither does the node ID that led to the same entry. */
    method Unregister(tag: string)
      requires Valid()
      modifies this`byTag, this`byId
      ensures Valid()
      ensures tag !in old(byTag) ==> byTag == old(byTag) && byId == old(byId)
      ensures tag in old(byTag) ==>
                byTag == Without(old(byTag), {old(byTag)[tag]}) && byId == Without(old(byId), {old(byTag)[tag]})
                && byTag == old(byTag) - {tag}
    {
      if tag in byTag {
        var item := byTag[tag];
        if item.info.tag == tag {
          WithoutNone(byTag, byId);
          DropOne(byTag, byId, {}, item);
          AgreeWithout(byTag, byId, {item});
          byTag := byTag - {tag};
          if item.info.nodeId != 0 && item.info.nodeId in byId && byId[item.info.nodeId] == item {
            byId := byId - {item.info.nodeId};
          }
        }
      }
    }

    ghost function Stale(): set<Entry>
      reads this, byTag.Values
    {
      set t | t in byTag && byTag[t].generation != reload :: byTag[t]
    }

    /** sweepStale: exactly the entries seen since the reload began stay, in both indexes. */
    method SweepStale()
      requires Valid()
      modifies this`byTag, this`byId
      ensures Valid()
      ensures byTag == Without(old(byTag), old(Stale())) && byId == Without(old(byId), old(Stale()))
      ensures forall t :: t in byTag <==> t in old(byTag) && old(byTag[t].generation) == reload
      ensures forall t :: t in byTag ==> byTag[t] == old(byTag)[t]
    {
      var todo := byTag.Keys;
      ghost var tags, ids := byTag, byId;
      ghost var dropped: set<Entry> := {};
      WithoutNone(tags, ids);
      while todo != {}
        invariant todo <= tags.Keys
        invariant dropped == set t | t in tags && t !in todo && tags[t].generation != reload :: tags[t]
        invariant byTag == Without(tags, dropped) && byId == Without(ids, dropped)
      {
        var tag := Pick(todo);
        StillThere(tags, todo, tag, dropped);
        var item := byTag[tag];
        if item.generation != reload {
          DropOne(tags, ids, dropped, item);
          byTag := byTag - {tag};
          if item.info.nodeId != 0 && item.info.nodeId in byId && byId[item.info.nodeId] == item {
            byId := byId - {item.info.nodeId};
          }
          dropped := dropped + {item};
        }
        todo := todo - {tag};
      }
      assert dropped == old(Stale());
      AgreeWithout(tags, ids, dropped);
    }
  }

  /** Each tag leads to the entry that bears it, and each node ID to an entry of that node that its tag leads to too. */
  ghost predicate Agree(tags: map<string, Entry>, ids: map<int, Entry>)
    reads tags.Values, ids.Values
  {
    (forall t :: t in tags ==> tags[t].info.tag == t)
    && forall n :: n in ids ==>
         n != 0 && ids[n].info.nodeId == n && ids[n].info.tag in tags && tags[ids[n].info.tag] == ids[n]
  }

  lemma WithoutNone(tags: map<string, Entry>, ids: map<int, Entry>)
    ensures Without(tags, {}) == tags && Without(ids, {}) == ids
  {
  }

  lemma StillThere(tags: map<string, Entry>, todo: set<string>, tag: string, dropped: set<Entry>)
    requires tag in todo && todo <= tags.Keys && (forall t :: t in tags ==> tags[t].info.tag == t)
    requires forall e :: e in dropped ==> exists t :: t in tags && t !in todo && tags[t] == e
    ensures tag in Without(tags, dropped)
  {
  }

  // Under its own tag and its own ID an entry is the only thing to remove.
  lemma DropOne(tags: map<string, Entry>, ids: map<int, Entry>, dropped: set<Entry>, item: Entry)
    requires Agree(tags, ids) && item in tags.Values
    ensures Without(tags, dropped + {item}) == Without(tags, dropped) - {item.info.tag}
    ensures Without(ids, dropped + {item}) ==
            if item.info.nodeId != 0 && item.info.nodeId in Without(ids, dropped)
                && Without(ids, dropped)[item.info.nodeId] == item
            then Without(ids, dropped) - {item.info.nodeId} else Without(ids, dropped)
  {
    assert forall n :: n in ids && ids[n] == item ==> n == item.info.nodeId;
    assert forall t :: t in tags && tags[t] == item ==> t == item.info.tag;
  }

  lemma AgreeWithout(tags: map<string, Entry>, ids: map<int, Entry>, dropped: set<Entry>)
    requires Agree(tags, ids)
    ensures Agree(Without(tags, dropped), Without(ids, dropped))
  {
  }

  // An index without some entries.
  function Without<K>(index: map<K, Entry>, dropped: set<Entry>): map<K, Entry> {
    map k | k in index && index[k] !in dropped :: index[k]
  }
}
