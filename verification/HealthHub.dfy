/** The hub's registry of subscriptions and the indexes it routes events by. */
module HealthHub {
  import opened Basics
  import opened HealthDelivery

  // The subscriptions an index lists under a key.
  function At<K>(index: map<K, set<nat>>, k: K): set<nat> {
    if k in index then index[k] else {}
  }

  function Listed<K>(index: map<K, set<nat>>, k: K, id: nat): map<K, set<nat>> {
    index[k := At(index, k) + {id}]
  }

  // Removing the last subscription of a key removes the key.
  function Unlisted<K>(index: map<K, set<nat>>, k: K, id: nat): map<K, set<nat>> {
    var rest := At(index, k) - {id};
    if rest == {} then index - {k} else index[k := rest]
  }

  predicate NoEmptyLists<K(!new)>(index: map<K, set<nat>>) {
    forall k :: k in index ==> index[k] != {}
  }

  /** The subscriptions whose own filter takes the event. */
  function Takers(byId: map<nat, Filter>, event: Row): set<nat> {
    set id | id in byId && Takes(byId[id], event)
  }

  ghost predicate TagsListed(index: map<string, set<nat>>, byId: map<nat, Filter>) {
    forall t, id :: id in At(index, t) <==> id in byId && t in byId[id].tags
  }

  ghost predicate NodesListed(index: map<int, set<nat>>, byId: map<nat, Filter>) {
    forall n, id :: id in At(index, n) <==> id in byId && n in byId[id].nodeIds
  }

  lemma AddedIsListed(tags: map<string, set<nat>>, nodes: map<int, set<nat>>, byId: map<nat, Filter>, id: nat,
                      f: Filter, newTags: map<string, set<nat>>, newNodes: map<int, set<nat>>)
    requires TagsListed(tags, byId) && NodesListed(nodes, byId) && id !in byId
    requires forall t :: At(newTags, t) == if t in f.tags then At(tags, t) + {id} else At(tags, t)
    requires forall n :: At(newNodes, n) == if n in f.nodeIds then At(nodes, n) + {id} else At(nodes, n)
    ensures TagsListed(newTags, byId[id := f]) && NodesListed(newNodes, byId[id := f])
  {
  }

  lemma RemovedIsUnlisted(tags: map<string, set<nat>>, nodes: map<int, set<nat>>, byId: map<nat, Filter>, id: nat,
                          newTags: map<string, set<nat>>, newNodes: map<int, set<nat>>)
    requires TagsListed(tags, byId) && NodesListed(nodes, byId) && id in byId
    requires forall t :: At(newTags, t) == if t in byId[id].tags then At(tags, t) - {id} else At(tags, t)
    requires forall n :: At(newNodes, n) == if n in byId[id].nodeIds then At(nodes, n) - {id} else At(nodes, n)
    ensures TagsListed(newTags, byId - {id}) && NodesListed(newNodes, byId - {id})
  {
  }

  // -------------------------------------------------------------------------------------------
  // What was asked for
  // -------------------------------------------------------------------------------------------

  /** The calls on a hub: what a subscriber asked for under the id it got, and what it gave up. */
  datatype HubCall = Subscribed(id: nat, tags: set<string>, nodeIds: set<int>, all: bool) | Dropped(id: nat)

  function Subscriptions(calls: seq<HubCall>): map<nat, Filter> {
    if calls == [] then map[] else Called(Subscriptions(calls[..|calls| - 1]), calls[|calls| - 1])
  }

  function Called(byId: map<nat, Filter>, call: HubCall): map<nat, Filter> {
    match call
    case Subscribed(id, tags, nodeIds, all) => byId[id := Filter(tags - {""}, nodeIds - {0}, all)]
    case Dropped(id) => byId - {id}
  }

  /** The answer to what somebody asked for: as long as only others subscribe and drop, an event is matched to a
      subscriber if and only if it asked for everything, or for the event's tag unless that is empty, or for the event's
      node unless that is zero. */
  lemma {:induction false} MatchedAsAsked(calls: seq<HubCall>, i: nat, event: Row)
    requires StillSubscribed(calls, i)
    ensures calls[i].id in Takers(Subscriptions(calls), event) <==>
            calls[i].all || (event.tag != "" && event.tag in calls[i].tags)
            || (event.nodeId != 0 && event.nodeId in calls[i].nodeIds)
  {
    if i < |calls| - 1 {
      MatchedAsAsked(calls[..|calls| - 1], i, event);
    }
  }

  /** And nobody who dropped, or never asked, is matched. */
  lemma {:induction false} NobodyElseIsMatched(calls: seq<HubCall>, id: nat, event: Row)
    requires id in Takers(Subscriptions(calls), event)
    ensures exists i: nat :: StillSubscribed(calls, i) && calls[i].id == id
  {
    var init, last := calls[..|calls| - 1], calls[|calls| - 1];
    if last.id == id {
      assert StillSubscribed(calls, |calls| - 1);
    } else {
      NobodyElseIsMatched(init, id, event);
      var i: nat :| StillSubscribed(init, i) && init[i].id == id;
      assert StillSubscribed(calls, i) && calls[i].id == id;
    }
  }

  lemma OneMoreCall(calls: seq<HubCall>, call: HubCall)
    ensures Subscriptions(calls + [call]) == Called(Subscriptions(calls), call)
  {
    assert (calls + [call])[..|calls|] == calls;
  }

  // Nobody named the subscriber since.
  predicate StillSubscribed(calls: seq<HubCall>, i: nat) {
    i < |calls| && calls[i].Subscribed? && forall j :: i < j < |calls| ==> calls[j].id != calls[i].id
  }

  class Hub {
    var nextId: nat
    var byId: map<nat, Filter>
    var everything: set<nat>
    var byTag: map<string, set<nat>>
    var byNodeId: map<int, set<nat>>
    ghost var calls: seq<HubCall>

    /** Every index lists exactly the subscriptions it should, and nothing else. */
    ghost predicate Valid()
      reads this
    {
      byId == Subscriptions(calls)
      && (forall id :: id in byId ==> id <= nextId)
      && (forall id :: id in everything <==> id in byId && byId[id].everything)
      && TagsListed(byTag, byId) && NodesListed(byNodeId, byId)
      && NoEmptyLists(byTag) && NoEmptyLists(byNodeId)
    }

    constructor ()
      ensures Valid() && byId == map[] && calls == []
    {
      nextId, byId, everything, byTag, byNodeId, calls := 0, map[], {}, map[], map[], [];
    }

    /** register: a fresh id under the filter, without the empty tag and the zero node. */
    method Register(tags: set<string>, nodeIds: set<int>, all: bool) returns (id: nat)
      requires Valid()
      modifies this
      ensures Valid()
      ensures id !in old(byId) && calls == old(calls) + [Subscribed(id, tags, nodeIds, all)]
    {
      hide NoEmptyLists, At, TagsListed, NodesListed, Subscriptions;
      var filter := Filter(tags - {""}, nodeIds - {0}, all);
      nextId := nextId + 1;
      id := nextId;
      byId := byId[id := filter];
      if all {
        everything := everything + {id};
      }
      byTag := ListAll(byTag, filter.tags, id);
      byNodeId := ListAll(byNodeId, filter.nodeIds, id);
      OneMoreCall(calls, Subscribed(id, tags, nodeIds, all));
      calls := calls + [Subscribed(id, tags, nodeIds, all)];
      AddedIsListed(old(byTag), old(byNodeId), old(byId), id, filter, byTag, byNodeId);
    }

    static method ListAll<K(!new,==)>(index: map<K, set<nat>>, keys: set<K>, id: nat) returns (result: map<K, set<nat>>)
      requires NoEmptyLists(index)
      ensures forall k :: At(result, k) == if k in keys then At(index, k) + {id} else At(index, k)
      ensures NoEmptyLists(result)
    {
      result := index;
      var todo := keys;
      while todo != {}
        invariant todo <= keys
        invariant forall k :: At(result, k) == if k in keys - todo then At(index, k) + {id} else At(index, k)
        invariant NoEmptyLists(result)
      {
        var k := Pick(todo);
        todo := todo - {k};
        result := Listed(result, k, id);
      }
    }

    static method UnlistAll<K(!new,==)>(index: map<K, set<nat>>, keys: set<K>, id: nat)
                              returns (result: map<K, set<nat>>)
      requires NoEmptyLists(index)
      ensures forall k :: At(result, k) == if k in keys then At(index, k) - {id} else At(index, k)
      ensures NoEmptyLists(result)
    {
      result := index;
      var todo := keys;
      while todo != {}
        invariant todo <= keys
        invariant forall k :: At(result, k) == if k in keys - todo then At(index, k) - {id} else At(index, k)
        invariant NoEmptyLists(result)
      {
        var k := Pick(todo);
        todo := todo - {k};
        result := Unlisted(result, k, id);
      }
    }

    /** unsubscribe: a second call, or an unknown id, changes nothing. */
    method Unsubscribe(id: nat)
      requires Valid()
      modifies this
      ensures Valid() && nextId == old(nextId)
      ensures calls == old(calls) + [Dropped(id)]
    {
      hide Subscriptions;
      OneMoreCall(calls, Dropped(id));
      calls := calls + [Dropped(id)];
      if id !in byId {
        return;
      }
      hide NoEmptyLists, At, TagsListed, NodesListed;
      var filter := byId[id];
      byId := byId - {id};
      everything := everything - {id};
      byTag := UnlistAll(byTag, filter.tags, id);
      byNodeId := UnlistAll(byNodeId, filter.nodeIds, id);
      RemovedIsUnlisted(old(byTag), old(byNodeId), old(byId), id, byTag, byNodeId);
    }

    /** match: the indexes find exactly the subscriptions whose filter takes the event. */
    method Match(event: Row) returns (matched: set<nat>)
      requires Valid()
      ensures matched == Takers(Subscriptions(calls), event)
      ensures forall i: nat :: StillSubscribed(calls, i) ==>
                (calls[i].id in matched <==>
                   calls[i].all || (event.tag != "" && event.tag in calls[i].tags)
                   || (event.nodeId != 0 && event.nodeId in calls[i].nodeIds))
    {
      forall i: nat | StillSubscribed(calls, i)
        ensures calls[i].id in Takers(Subscriptions(calls), event) <==>
                calls[i].all || (event.tag != "" && event.tag in calls[i].tags)
                || (event.nodeId != 0 && event.nodeId in calls[i].nodeIds)
      {
        MatchedAsAsked(calls, i, event);
      }
      matched := everything;
      matched := matched + At(byTag, event.tag);
      if event.nodeId != 0 {
        matched := matched + At(byNodeId, event.nodeId);
      }
      matched := matched * byId.Keys;
    }
  }
}
