/** Merging node facts that changed while a reload was running into the configuration it is about to commit. */
module ReloadRebase {
  import opened Basics

  /** A configured node; `rest` stands for everything the merge leaves alone. */
  datatype Node = Node(key: string, tags: seq<string>, region: string, country: string, rest: string)

  predicate DistinctKeys(nodes: seq<Node>) {
    forall i, j :: 0 <= i < j < |nodes| ==> nodes[i].key != nodes[j].key
  }

  function Keys(nodes: seq<Node>): set<string> {
    set n | n in nodes :: n.key
  }

  // The node a key finds: the last one, as in a map filled in order.
  function Find(nodes: seq<Node>, key: string): Option<Node> {
    if nodes == [] then None
    else if nodes[|nodes| - 1].key == key then Some(nodes[|nodes| - 1])
    else Find(nodes[..|nodes| - 1], key)
  }

  /** The facts a reload window can change. */
  predicate FactsDiffer(a: Node, b: Node) {
    a.region != b.region || a.country != b.country || a.tags != b.tags
  }

  function WithFacts(n: Node, facts: Node): Node {
    n.(tags := facts.tags, region := facts.region, country := facts.country)
  }

  // The facts of a runtime node are not those of the snapshot.
  predicate NewFacts(snapshot: seq<Node>, n: Node) {
    Find(snapshot, n.key).Some? && FactsDiffer(Find(snapshot, n.key).value, n)
  }

  // A node whose facts moved between the snapshot and the runtime configuration.
  predicate Moved(snapshot: seq<Node>, runtime: seq<Node>, key: string) {
    Find(runtime, key).Some? && NewFacts(snapshot, Find(runtime, key).value)
  }

  function Updated(snapshot: seq<Node>, runtime: seq<Node>, n: Node): Node {
    if Moved(snapshot, runtime, n.key) then WithFacts(n, Find(runtime, n.key).value) else n
  }

  function AllUpdated(snapshot: seq<Node>, runtime: seq<Node>, nodes: seq<Node>): seq<Node> {
    seq(|nodes|, i requires 0 <= i < |nodes| => Updated(snapshot, runtime, nodes[i]))
  }

  /** Nodes created in the window, in order. */
  function CreatedIn(snapshot: seq<Node>, runtime: seq<Node>, nodes: seq<Node>): seq<Node> {
    if runtime == [] then []
    else
      var before := CreatedIn(snapshot, runtime[..|runtime| - 1], nodes);
      var n := runtime[|runtime| - 1];
      if n.key !in Keys(snapshot) && n.key !in Keys(nodes) then before + [n] else before
  }

  /** The nodes to commit: the reload's own with the facts that moved, then those created in the window. */
  function Rebased(snapshot: seq<Node>, runtime: seq<Node>, nodes: seq<Node>): seq<Node> {
    AllUpdated(snapshot, runtime, nodes) + CreatedIn(snapshot, runtime, nodes)
  }

  // The runtime nodes that count as a change.
  function Changes(snapshot: seq<Node>, runtime: seq<Node>, nodes: seq<Node>): nat {
    if runtime == [] then 0
    else
      var n := runtime[|runtime| - 1];
      Changes(snapshot, runtime[..|runtime| - 1], nodes)
      + if n.key !in Keys(snapshot) then (if n.key !in Keys(nodes) then 1 else 0)
        else if n.key in Keys(nodes) && NewFacts(snapshot, n) then 1 else 0
  }

  lemma {:induction false} FindIs(nodes: seq<Node>, key: string)
    ensures Find(nodes, key).Some? <==> key in Keys(nodes)
    ensures Find(nodes, key).Some? ==> Find(nodes, key).value in nodes && Find(nodes, key).value.key == key
  {
    if nodes != [] {
      var init, last := nodes[..|nodes| - 1], nodes[|nodes| - 1];
      FindIs(init, key);
      assert nodes == init + [last];
      assert last in nodes;
    }
  }

  lemma KeysAdded(nodes: seq<Node>, n: Node)
    ensures Keys(nodes + [n]) == Keys(nodes) + {n.key}
  {
  }

  /** nodeFactsDiffer, comparing tags one by one. */
  method NodeFactsDiffer(a: Node, b: Node) returns (differ: bool)
    ensures differ == FactsDiffer(a, b)
  {
    if a.region != b.region || a.country != b.country || |a.tags| != |b.tags| {
      return true;
    }
    for i := 0 to |a.tags|
      invariant a.tags[..i] == b.tags[..i]
    {
      if a.tags[i] != b.tags[i] {
        return true;
      }
    }
    assert a.tags[..|a.tags|] == a.tags && b.tags[..|b.tags|] == b.tags;
    return false;
  }

  // Where each key of the new configuration stands.
  predicate Indexes(index: map<string, int>, nodes: seq<Node>) {
    index.Keys == Keys(nodes) && forall k :: k in index ==> 0 <= index[k] < |nodes| && nodes[index[k]].key == k
  }

  lemma RebasedByNone(snapshot: seq<Node>, nodes: seq<Node>)
    ensures Rebased(snapshot, [], nodes) == nodes && Changes(snapshot, [], nodes) == 0
  {
  }

  lemma FreshKey(runtime: seq<Node>, i: nat)
    requires DistinctKeys(runtime) && i < |runtime|
    ensures runtime[i].key !in Keys(runtime[..i])
  {
  }

  lemma {:induction false} CreatedKeys(snapshot: seq<Node>, runtime: seq<Node>, nodes: seq<Node>)
    ensures Keys(CreatedIn(snapshot, runtime, nodes)) == Keys(runtime) - Keys(snapshot) - Keys(nodes)
  {
    if runtime != [] {
      var init, n := runtime[..|runtime| - 1], runtime[|runtime| - 1];
      CreatedKeys(snapshot, init, nodes);
      assert runtime == init + [n];
      KeysAdded(init, n);
      KeysAdded(CreatedIn(snapshot, init, nodes), n);
    }
  }

  /** What is committed: the reload's nodes and those created in the window; what the reload removed stays removed. */
  lemma RebasedKeys(snapshot: seq<Node>, runtime: seq<Node>, nodes: seq<Node>)
    ensures Keys(Rebased(snapshot, runtime, nodes)) == Keys(nodes) + (Keys(runtime) - Keys(snapshot))
  {
    CreatedKeys(snapshot, runtime, nodes);
    var all, created := AllUpdated(snapshot, runtime, nodes), CreatedIn(snapshot, runtime, nodes);
    assert Keys(all) == Keys(nodes) by {
      forall k ensures k in Keys(all) <==> k in Keys(nodes) {
        if k in Keys(nodes) {
          var i :| 0 <= i < |nodes| && nodes[i].key == k;
          assert all[i] in all && all[i].key == k;
        }
      }
    }
    assert Keys(all + created) == Keys(all) + Keys(created);
  }

  // One more runtime node, seen by the merge.
  lemma UpdatedByOne(snapshot: seq<Node>, init: seq<Node>, n: Node, m: Node)
    requires n.key !in Keys(init)
    ensures m.key != n.key ==> Updated(snapshot, init + [n], m) == Updated(snapshot, init, m)
    ensures m.key == n.key ==> Updated(snapshot, init, m) == m
    ensures m.key == n.key ==>
              Updated(snapshot, init + [n], m)
              == if NewFacts(snapshot, n) then WithFacts(m, n) else m
  {
    assert (init + [n])[..|init|] == init;
    FindIs(init, n.key);
  }

  lemma CreatedByOne(snapshot: seq<Node>, init: seq<Node>, n: Node, nodes: seq<Node>)
    ensures CreatedIn(snapshot, init + [n], nodes)
         == CreatedIn(snapshot, init, nodes) + if n.key !in Keys(snapshot) && n.key !in Keys(nodes) then [n] else []
    ensures Changes(snapshot, init + [n], nodes) ==
            Changes(snapshot, init, nodes)
            + if n.key !in Keys(snapshot) then (if n.key !in Keys(nodes) then 1 else 0)
              else if n.key in Keys(nodes) && NewFacts(snapshot, n) then 1 else 0
  {
  }

  lemma AllUpdatedByOne(snapshot: seq<Node>, init: seq<Node>, n: Node, nodes: seq<Node>)
    requires n.key !in Keys(init) && (n.key !in Keys(nodes) || !NewFacts(snapshot, n))
    ensures AllUpdated(snapshot, init + [n], nodes) == AllUpdated(snapshot, init, nodes)
  {
    forall i | 0 <= i < |nodes| ensures Updated(snapshot, init + [n], nodes[i]) == Updated(snapshot, init, nodes[i]) {
      assert nodes[i] in nodes;
      UpdatedByOne(snapshot, init, n, nodes[i]);
    }
    hide Updated;
  }

  lemma UpdatedAt(snapshot: seq<Node>, init: seq<Node>, n: Node, nodes: seq<Node>, at: nat)
    requires n.key !in Keys(init) && DistinctKeys(nodes) && at < |nodes| && nodes[at].key == n.key
             && NewFacts(snapshot, n)
    ensures AllUpdated(snapshot, init, nodes)[at] == nodes[at]
    ensures AllUpdated(snapshot, init + [n], nodes) == AllUpdated(snapshot, init, nodes)[at := WithFacts(nodes[at], n)]
  {
    var before, after := AllUpdated(snapshot, init, nodes), AllUpdated(snapshot, init + [n], nodes);
    UpdatedByOne(snapshot, init, n, nodes[at]);
    forall i | 0 <= i < |nodes| ensures after[i] == before[at := WithFacts(nodes[at], n)][i] {
      UpdatedByOne(snapshot, init, n, nodes[i]);
      assert i != at ==> nodes[i].key != n.key;
    }
    hide Updated;
  }

  lemma RebaseStep(snapshot: seq<Node>, init: seq<Node>, n: Node, nodes: seq<Node>, at: nat)
    requires n.key !in Keys(init) && DistinctKeys(nodes)
    requires var r := Rebased(snapshot, init, nodes); n.key in Keys(r) ==> at < |r| && r[at].key == n.key
    ensures var r, next := Rebased(snapshot, init, nodes), Rebased(snapshot, init + [n], nodes);
            (n.key in Keys(r) <==> n.key in Keys(nodes))
            && next == if n.key !in Keys(snapshot) && n.key !in Keys(r) then r + [n]
                       else if n.key in Keys(snapshot) && n.key in Keys(r)
                           && NewFacts(snapshot, n) then r[at := WithFacts(r[at], n)]
                       else r
  {
    hide AllUpdated, CreatedIn, Changes, Find, Keys, WithFacts, DistinctKeys, FactsDiffer;
    RebasedKeys(snapshot, init, nodes);
    CreatedByOne(snapshot, init, n, nodes);
    FindIs(snapshot, n.key);
    LengthKept(snapshot, init, nodes);
    LengthKept(snapshot, init + [n], nodes);
    if n.key in Keys(nodes) && NewFacts(snapshot, n) {
      InFirstPart(snapshot, init, nodes, n.key, at);
      UpdatedAt(snapshot, init, n, nodes, at);
    } else {
      AllUpdatedByOne(snapshot, init, n, nodes);
    }
  }

  lemma LengthKept(snapshot: seq<Node>, runtime: seq<Node>, nodes: seq<Node>)
    ensures |AllUpdated(snapshot, runtime, nodes)| == |nodes|
  {
  }

  // A key of the reload's own nodes stands among them.
  lemma InFirstPart(snapshot: seq<Node>, runtime: seq<Node>, nodes: seq<Node>, key: string, at: nat)
    requires key in Keys(nodes) && at < |Rebased(snapshot, runtime, nodes)|
             && Rebased(snapshot, runtime, nodes)[at].key == key
    ensures at < |nodes| && nodes[at].key == key
  {
    CreatedKeys(snapshot, runtime, nodes);
    var created := CreatedIn(snapshot, runtime, nodes);
    assert forall j :: 0 <= j < |created| ==> created[j] in created && created[j].key in Keys(created);
  }

  lemma SameKeys(nodes: seq<Node>, at: nat, n: Node)
    requires at < |nodes| && nodes[at].key == n.key
    ensures Keys(nodes[at := n]) == Keys(nodes)
  {
    var changed := nodes[at := n];
    forall k ensures k in Keys(changed) <==> k in Keys(nodes) {
      if k in Keys(nodes) {
        var i :| 0 <= i < |nodes| && nodes[i].key == k;
        assert changed[i] in changed && changed[i].key == k;
      }
      if k in Keys(changed) {
        var i :| 0 <= i < |changed| && changed[i].key == k;
        assert nodes[i] in nodes && nodes[i].key == k;
      }
    }
  }

  // -------------------------------------------------------------------------------------------
  // What it means
  // -------------------------------------------------------------------------------------------

  /** Three-way merge: the new nodes come first, in order, each with everything of its own except that a node in all
      three configurations takes the runtime facts exactly when they moved since the snapshot. */
  lemma NewNodesInOrder(snapshot: seq<Node>, runtime: seq<Node>, nodes: seq<Node>, i: nat)
    requires i < |nodes|
    ensures |Rebased(snapshot, runtime, nodes)| >= |nodes|
    ensures var n, r := nodes[i], Rebased(snapshot, runtime, nodes)[i];
            r.key == n.key && r.rest == n.rest
            && match (Find(snapshot, n.key), Find(runtime, n.key))
               case (Some(had), Some(now)) => if FactsDiffer(had, now) then !FactsDiffer(r, now) else r == n
               case _ => r == n
  {
    FindIs(snapshot, nodes[i].key);
    FindIs(runtime, nodes[i].key);
  }

  /** The same in plain facts: a node that all three configurations have takes tags, region and country of the running
      one if any of the three changed since the snapshot, and keeps its own otherwise. */
  lemma MovedFactsWin(snapshot: seq<Node>, runtime: seq<Node>, nodes: seq<Node>, i: nat, had: Node, now: Node)
    requires i < |nodes| && DistinctKeys(snapshot) && DistinctKeys(runtime)
    requires had in snapshot && now in runtime && had.key == nodes[i].key == now.key
    ensures var n, r := nodes[i], Rebased(snapshot, runtime, nodes)[i];
            var moved := had.tags != now.tags || had.region != now.region || had.country != now.country;
            && r.key == n.key && r.rest == n.rest
            && r.tags == (if moved then now.tags else n.tags)
            && r.region == (if moved then now.region else n.region)
            && r.country == (if moved then now.country else n.country)
  {
    FindIs(snapshot, nodes[i].key);
    FindIs(runtime, nodes[i].key);
  }

  /** A node that the snapshot or the running configuration does not have keeps everything. */
  lemma OtherwiseUnmoved(snapshot: seq<Node>, runtime: seq<Node>, nodes: seq<Node>, i: nat)
    requires i < |nodes|
    requires (forall n :: n in snapshot ==> n.key != nodes[i].key)
             || (forall n :: n in runtime ==> n.key != nodes[i].key)
    ensures |Rebased(snapshot, runtime, nodes)| >= |nodes| && Rebased(snapshot, runtime, nodes)[i] == nodes[i]
  {
    FindIs(snapshot, nodes[i].key);
    FindIs(runtime, nodes[i].key);
  }

  /** Nodes created in the window are kept, as the runtime has them, in its order, after the others. */
  lemma {:induction false} CreatedNodesAre(snapshot: seq<Node>, runtime: seq<Node>, nodes: seq<Node>)
    ensures forall n :: n in CreatedIn(snapshot, runtime, nodes) <==>
            n in runtime && n.key !in Keys(snapshot) && n.key !in Keys(nodes)
    ensures DistinctKeys(runtime) ==> DistinctKeys(CreatedIn(snapshot, runtime, nodes))
  {
    if runtime != [] {
      var init, n := runtime[..|runtime| - 1], runtime[|runtime| - 1];
      CreatedNodesAre(snapshot, init, nodes);
      assert runtime == init + [n];
      var before := CreatedIn(snapshot, init, nodes);
      assert forall i :: 0 <= i < |before| ==> before[i] in before;
      if DistinctKeys(runtime) {
        assert forall m :: m in init ==> m.key != n.key;
      }
    }
  }

  lemma UpdatedTwice(snapshot: seq<Node>, runtime: seq<Node>, n: Node)
    ensures var u := Updated(snapshot, runtime, n); Updated(snapshot, runtime, u) == u
  {
  }

  /** Applying it a second time changes nothing. */
  lemma RebaseIsIdempotent(snapshot: seq<Node>, runtime: seq<Node>, nodes: seq<Node>)
    ensures var r := Rebased(snapshot, runtime, nodes);
            Rebased(snapshot, runtime, r) == r
  {
    var r := Rebased(snapshot, runtime, nodes);
    RebasedKeys(snapshot, runtime, nodes);
    CreatedKeys(snapshot, runtime, r);
    var again := CreatedIn(snapshot, runtime, r);
    assert again != [] ==> again[0].key in Keys(again);
    CreatedNodesAre(snapshot, runtime, nodes);
    forall i | 0 <= i < |r| ensures Updated(snapshot, runtime, r[i]) == r[i] {
      if i < |nodes| {
        assert r[i] == Updated(snapshot, runtime, nodes[i]);
        UpdatedTwice(snapshot, runtime, nodes[i]);
      } else {
        assert CreatedIn(snapshot, runtime, nodes)[i - |nodes|] == r[i];
        FindIs(snapshot, r[i].key);
        FindIs(runtime, r[i].key);
      }
    }
    assert AllUpdated(snapshot, runtime, r) == r;
  }

  /** With nothing changed in the window the reload's nodes are committed as they are, and the count is zero. */
  lemma {:induction false} NothingMovedNothingChanges(snapshot: seq<Node>, runtime: seq<Node>, nodes: seq<Node>)
    requires forall n :: n in runtime ==> n.key in Keys(snapshot) && !NewFacts(snapshot, n)
    ensures Changes(snapshot, runtime, nodes) == 0
    ensures Rebased(snapshot, runtime, nodes) == nodes
  {
    CreatedKeys(snapshot, runtime, nodes);
    var created := CreatedIn(snapshot, runtime, nodes);
    assert created != [] ==> created[0].key in Keys(created);
    forall i | 0 <= i < |nodes| ensures Updated(snapshot, runtime, nodes[i]) == nodes[i] {
      FindIs(runtime, nodes[i].key);
      FindIs(snapshot, nodes[i].key);
    }
    if runtime != [] {
      var init, n := runtime[..|runtime| - 1], runtime[|runtime| - 1];
      assert runtime == init + [n];
      NothingMovedNothingChanges(snapshot, init, nodes);
    }
  }

  // The reload's nodes whose facts moved.
  function MovedKeys(snapshot: seq<Node>, runtime: seq<Node>, nodes: seq<Node>): set<string> {
    set k | k in Keys(nodes) && k in Keys(runtime) && Moved(snapshot, runtime, k)
  }

  lemma MovedKeysByOne(snapshot: seq<Node>, init: seq<Node>, n: Node, nodes: seq<Node>)
    requires n.key !in Keys(init)
    ensures n.key !in MovedKeys(snapshot, init, nodes)
    ensures MovedKeys(snapshot, init + [n], nodes) ==
            MovedKeys(snapshot, init, nodes) + if n.key in Keys(nodes) && NewFacts(snapshot, n) then {n.key} else {}
  {
  }

  /** The count is the number of nodes created in the window plus the number of the reload's nodes whose facts moved. */
  lemma {:induction false} CountIsExact(snapshot: seq<Node>, runtime: seq<Node>, nodes: seq<Node>)
    requires DistinctKeys(runtime)
    ensures Changes(snapshot, runtime, nodes) ==
            |CreatedIn(snapshot, runtime, nodes)| + |MovedKeys(snapshot, runtime, nodes)|
  {
    if runtime == [] {
      assert MovedKeys(snapshot, runtime, nodes) == {};
    } else {
      var init, n := runtime[..|runtime| - 1], runtime[|runtime| - 1];
      CountIsExact(snapshot, init, nodes);
      FreshKey(runtime, |runtime| - 1);
      FindIs(snapshot, n.key);
      hide Keys, Moved, CreatedIn, Changes, MovedKeys, DistinctKeys;
      assert runtime == init + [n];
      MovedKeysByOne(snapshot, init, n, nodes);
      CreatedByOne(snapshot, init, n, nodes);
    }
  }

  class Config {
    var nodes: seq<Node>

    // A map from key to node, filled in order.
    static method ByKey(list: seq<Node>) returns (byKey: map<string, Node>)
      ensures byKey.Keys == Keys(list) && forall k :: k in byKey ==> Find(list, k) == Some(byKey[k])
    {
      byKey := map[];
      for i := 0 to |list|
        invariant byKey.Keys == Keys(list[..i]) && forall k :: k in byKey ==> Find(list[..i], k) == Some(byKey[k])
      {
        assert list[..i + 1][..i] == list[..i] && list[..i + 1] == list[..i] + [list[i]];
        KeysAdded(list[..i], list[i]);
        byKey := byKey[list[i].key := list[i]];
      }
      assert list[..|list|] == list;
    }

    method Positions() returns (index: map<string, int>)
      ensures Indexes(index, nodes)
    {
      index := map[];
      for i := 0 to |nodes|
        invariant Indexes(index, nodes[..i])
      {
        assert nodes[..i + 1] == nodes[..i] + [nodes[i]];
        KeysAdded(nodes[..i], nodes[i]);
        index := index[nodes[i].key := i];
      }
      assert nodes[..|nodes|] == nodes;
    }

    /** rebaseReloadedNodes on this configuration, which is about to be committed. */
    method Rebase(snapshot: seq<Node>, runtime: seq<Node>) returns (mutated: nat)
      requires DistinctKeys(runtime) && DistinctKeys(nodes)
      modifies this
      ensures nodes == Rebased(snapshot, runtime, old(nodes))
      ensures mutated == Changes(snapshot, runtime, old(nodes))
    {
      hide Rebased, Changes, Find, CreatedIn, Keys, DistinctKeys;
      var byKey := ByKey(snapshot);
      var index := Positions();
      mutated := 0;
      RebasedByNone(snapshot, nodes);
      assert runtime[..0] == [];
      for i := 0 to |runtime|
        invariant nodes == Rebased(snapshot, runtime[..i], old(nodes))
        invariant Indexes(index, nodes)
        invariant mutated == Changes(snapshot, runtime[..i], old(nodes))
      {
        var n := runtime[i];
        assert runtime[..i + 1] == runtime[..i] + [n];
        FreshKey(runtime, i);
        FindIs(snapshot, n.key);
        RebaseStep(snapshot, runtime[..i], n, old(nodes), if n.key in index then index[n.key] else 0);
        CreatedByOne(snapshot, runtime[..i], n, old(nodes));
        if n.key !in byKey {
          if n.key !in index {
            index := index[n.key := |nodes|];
            KeysAdded(nodes, n);
            nodes := nodes + [n];
            mutated := mutated + 1;
          }
          continue;
        }
        if n.key !in index {
          continue;
        }
        var differ := NodeFactsDiffer(byKey[n.key], n);
        if differ {
          var at := index[n.key];
          SameKeys(nodes, at, WithFacts(nodes[at], n));
          nodes := nodes[at := WithFacts(nodes[at], n)];
          mutated := mutated + 1;
        }
      }
      assert runtime[..|runtime|] == runtime;
    }
  }
}
