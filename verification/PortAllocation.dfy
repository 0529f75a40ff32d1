/** Listening ports of nodes: kept across reloads, new ones taken upwards from a base port. */
module PortAllocation {
  import opened Basics

  const MAX_PORT := 65535
  const DEFAULT_BASE := 28000

  // A 16-bit port number; 0 stands for none.
  type Port = p: int | 0 <= p <= MAX_PORT witness 0

  datatype Node = Node(key: string, uri: string, port: Port, username: string, password: string)

  datatype Settings = Settings(multiPort: bool, basePort: Port, username: string, password: string,
                               listener: bool, listenerPort: Port)

  datatype PortError = NoNodes | MissingUri(index: nat) | NoPortLeft

  // -------------------------------------------------------------------------------------------
  // What normalising does
  // -------------------------------------------------------------------------------------------

  /** The port a node brings along: from the map, or its own, or none. */
  function Kept(n: Node, ports: map<string, Port>): Port {
    if n.key in ports && ports[n.key] > 0 then ports[n.key] else n.port
  }

  /** Ports that are taken before any new one is given out. */
  function Taken(nodes: seq<Node>, ports: map<string, Port>, st: Settings): set<int> {
    (set i | 0 <= i < |nodes| && Kept(nodes[i], ports) > 0 :: Kept(nodes[i], ports) as int)
    + if st.listener then {st.listenerPort as int} else {}
  }

  /** The free ports from `base` up to (not including) `limit`, in increasing order. */
  function FreePorts(base: int, limit: int, taken: set<int>, available: int -> bool): seq<int>
    decreases limit - base
  {
    if limit <= base then []
    else
      var before := FreePorts(base, limit - 1, taken, available);
      if limit - 1 in taken || !available(limit - 1) then before else before + [limit - 1]
  }

  // How many of the first nodes need a new port.
  function NewCount(nodes: seq<Node>, ports: map<string, Port>): nat {
    if nodes == [] then 0
    else NewCount(nodes[..|nodes| - 1], ports) + if Kept(nodes[|nodes| - 1], ports) == 0 then 1 else 0
  }

  function Base(st: Settings): int {
    if st.basePort == 0 then DEFAULT_BASE else st.basePort
  }

  function Credentialed(n: Node, st: Settings): Node {
    if n.username == "" then n.(username := st.username, password := st.password) else n
  }

  /** The node at a position once ports are given out: the kept port, or the next free one. */
  function Assigned(nodes: seq<Node>, i: nat, ports: map<string, Port>, st: Settings, free: seq<int>): Node
    requires i < |nodes|
  {
    var n := nodes[i];
    var k := NewCount(nodes[..i], ports);
    var port := if Kept(n, ports) > 0 then Kept(n, ports)
                else if k < |free| && 0 <= free[k] <= MAX_PORT then free[k]
                else 0;
    Credentialed(n.(port := port), st)
  }

  lemma {:induction false} FreePortsAre(base: int, limit: int, taken: set<int>, available: int -> bool)
    ensures var free := FreePorts(base, limit, taken, available);
            (forall i, j :: 0 <= i < j < |free| ==> free[i] < free[j])
            && forall p :: p in free <==> base <= p < limit && p !in taken && available(p)
    decreases limit - base
  {
    if base < limit {
      FreePortsAre(base, limit - 1, taken, available);
      var before, free := FreePorts(base, limit - 1, taken, available), FreePorts(base, limit, taken, available);
      assert free == if limit - 1 in taken || !available(limit - 1) then before else before + [limit - 1];
      assert forall i :: 0 <= i < |before| ==> before[i] in before;
      hide FreePorts;
    }
  }

  lemma {:induction false} FreePortsExtend(base: int, mid: int, limit: int, taken: set<int>, available: int -> bool)
    requires base <= mid <= limit
    ensures FreePorts(base, mid, taken, available) <= FreePorts(base, limit, taken, available)
    decreases limit - mid
  {
    if mid < limit {
      FreePortsExtend(base, mid, limit - 1, taken, available);
    }
  }

  lemma NewCountStep(nodes: seq<Node>, ports: map<string, Port>, i: nat)
    requires i < |nodes|
    ensures NewCount(nodes[..i + 1], ports) == NewCount(nodes[..i], ports) + if Kept(nodes[i], ports) == 0 then 1 else 0
  {
    assert nodes[..i + 1][..i] == nodes[..i];
  }

  lemma NoneCounted(nodes: seq<Node>, ports: map<string, Port>)
    ensures NewCount(nodes[..0], ports) == 0
  {
  }

  lemma NoneBelow(base: int, taken: set<int>, available: int -> bool)
    ensures FreePorts(base, base, taken, available) == []
  {
  }

  // A free port is the one after all free ports below it.
  lemma NextFreeIs(base: int, p: int, taken: set<int>, available: int -> bool)
    requires base <= p <= MAX_PORT && p !in taken && available(p)
    ensures var free, k := FreePorts(base, MAX_PORT + 1, taken, available), |FreePorts(base, p, taken, available)|;
            k < |free| && free[k] == p && |FreePorts(base, p + 1, taken, available)| == k + 1
  {
    FreePortsExtend(base, p + 1, MAX_PORT + 1, taken, available);
  }

  lemma {:induction false} NewCountGrows(nodes: seq<Node>, ports: map<string, Port>, i: nat, j: nat)
    requires i <= j <= |nodes|
    ensures NewCount(nodes[..i], ports) <= NewCount(nodes[..j], ports)
    ensures i < j && Kept(nodes[i], ports) == 0 ==> NewCount(nodes[..i], ports) < NewCount(nodes[..j], ports)
    decreases j - i
  {
    if i < j {
      NewCountGrows(nodes, ports, i, j - 1);
      assert nodes[..j][..j - 1] == nodes[..j - 1];
    }
  }

  predicate DistinctKeys(nodes: seq<Node>) {
    forall i, j :: 0 <= i < j < |nodes| ==> nodes[i].key != nodes[j].key
  }

  class Config {
    var nodes: seq<Node>
    const settings: Settings

    constructor (nodes: seq<Node>, settings: Settings)
      ensures this.nodes == nodes && this.settings == settings
    {
      this.nodes, this.settings := nodes, settings;
    }

    /** BuildPortMap: every node with a port, a later node with the same key replacing an earlier one. */
    method BuildPortMap() returns (ports: map<string, Port>)
      ensures ports == PortMapOf(nodes)
    {
      ports := map[];
      for i := 0 to |nodes|
        invariant ports == PortMapOf(nodes[..i])
      {
        assert nodes[..i + 1][..i] == nodes[..i];
        if nodes[i].port > 0 {
          ports := ports[nodes[i].key := nodes[i].port];
        }
      }
      assert nodes[..|nodes|] == nodes;
    }

    // The first pass: kept ports are entered and collected.
    method KeepPorts(ports: map<string, Port>) returns (error: Option<PortError>, used: set<int>)
      requires settings.multiPort
      modifies this
      ensures error.Some? ==> error.value.MissingUri? && FirstWithoutUri(old(nodes), error.value.index)
      ensures error.None? <==> forall i :: 0 <= i < |old(nodes)| ==> old(nodes)[i].uri != ""
      ensures error.None? ==> used == Taken(old(nodes), ports, settings) && |nodes| == |old(nodes)|
      ensures error.None? ==> forall i :: 0 <= i < |nodes| ==>
              nodes[i] == old(nodes)[i].(port := Kept(old(nodes)[i], ports))
    {
      hide Taken;
      TakenNone(old(nodes), ports, settings);
      used := if settings.listener then {settings.listenerPort as int} else {};
      error := None;
      for i := 0 to |nodes|
        invariant |nodes| == |old(nodes)| && error.None?
        invariant used == Taken(old(nodes)[..i], ports, settings)
        invariant forall j :: 0 <= j < i ==>
                  nodes[j] == old(nodes)[j].(port := Kept(old(nodes)[j], ports)) && nodes[j].uri != ""
        invariant forall j :: i <= j < |nodes| ==> nodes[j] == old(nodes)[j]
      {
        var n := nodes[i];
        TakenGrows(old(nodes), i, ports, settings);
        if n.uri == "" {
          error := Some(MissingUri(i));
          return;
        }
        if n.key in ports && ports[n.key] > 0 {
          nodes := nodes[i := n.(port := ports[n.key])];
          used := used + {ports[n.key] as int};
        } else if n.port > 0 {
          used := used + {n.port as int};
        }
      }
      assert old(nodes)[..|nodes|] == old(nodes);
    }

    // The next port at or after the cursor that nobody uses and that is available.
    method Scan(from: int, used: set<int>, available: int -> bool, ghost base: int, ghost given: set<int>)
                returns (cursor: int)
      requires base <= from <= MAX_PORT + 1 && given <= used && forall p :: p in used && p >= from ==> p in given
      ensures from <= cursor <= MAX_PORT + 1
      ensures FreePorts(base, cursor, given, available) == FreePorts(base, from, given, available)
      ensures cursor <= MAX_PORT ==> cursor !in used && available(cursor)
    {
      cursor := from;
      while cursor <= MAX_PORT && (cursor in used || !available(cursor))
        invariant from <= cursor <= MAX_PORT + 1
        invariant FreePorts(base, cursor, given, available) == FreePorts(base, from, given, available)
        decreases MAX_PORT + 1 - cursor
      {
        cursor := cursor + 1;
      }
    }

    // The second pass: the others get the next free ports.
    method GivePorts(given: set<int>, available: int -> bool, ghost before: seq<Node>, ghost ports: map<string, Port>)
        returns (ok: bool)
      requires settings.multiPort && |nodes| == |before|
      requires forall i :: 0 <= i < |nodes| ==> nodes[i] == before[i].(port := Kept(before[i], ports))
      modifies this
      ensures ok <==> NewCount(before, ports) <= |FreePorts(Base(settings), MAX_PORT + 1, given, available)|
      ensures ok ==> |nodes| == |before| && forall i :: 0 <= i < |nodes| ==>
                nodes[i] == Assigned(before, i, ports, settings, FreePorts(Base(settings), MAX_PORT + 1, given,
                    available))
    {
      hide FreePorts, NewCount;
      var used := given;
      var base := if settings.basePort == 0 then DEFAULT_BASE else settings.basePort as int;
      var cursor := base;
      ghost var free := FreePorts(base, MAX_PORT + 1, given, available);
      NoneBelow(base, given, available);
      NoneCounted(before, ports);
      for i := 0 to |nodes|
        invariant |nodes| == |before| && base <= cursor <= MAX_PORT + 1
        invariant |FreePorts(base, cursor, given, available)| == NewCount(before[..i], ports)
        invariant given <= used && forall p :: p in used && p >= cursor ==> p in given
        invariant forall j :: 0 <= j < i ==> nodes[j] == Assigned(before, j, ports, settings, free)
        invariant forall j :: i <= j < |nodes| ==> nodes[j] == before[j].(port := Kept(before[j], ports))
      {
        NewCountStep(before, ports, i);
        Positioned(before, ports, i);
        if nodes[i].port == 0 {
          cursor := Scan(cursor, used, available, base, given);
          if cursor > MAX_PORT {
            return false;
          }
          NextFreeIs(base, cursor, given, available);
          nodes := nodes[i := nodes[i].(port := cursor)];
          used := used + {cursor};
          cursor := cursor + 1;
        }
        nodes := nodes[i := Credentialed(nodes[i], settings)];
      }
      assert before[..|before|] == before;
      FreePortsExtend(base, cursor, MAX_PORT + 1, given, available);
      return true;
    }

    /** NormalizeWithPortMap: the first reason to refuse, or the ports; without several ports the nodes stay as they
        are. */
    method NormalizeWithPortMap(ports: map<string, Port>, available: int -> bool) returns (error: Option<PortError>)
      modifies this
      ensures error == Some(NoNodes) <==> old(nodes) == []
      ensures error.Some? && error.value.MissingUri? <==> exists i :: 0 <= i < |old(nodes)| && old(nodes)[i].uri == ""
      ensures error.Some? && error.value.MissingUri? ==> FirstWithoutUri(old(nodes), error.value.index)
      ensures error == Some(NoPortLeft) <==>
              settings.multiPort && old(nodes) != [] && (forall i :: 0 <= i < |old(nodes)| ==> old(nodes)[i].uri != "")
              && !Fits(old(nodes), ports, settings, available)
      ensures error.None? ==>
                nodes == if settings.multiPort then Normalized(old(nodes), ports, settings, available) else old(nodes)
    {
      hide FreePorts, Taken, Assigned, NewCount;
      if |nodes| == 0 {
        return Some(NoNodes);
      }
      if !settings.multiPort {
        for i := 0 to |nodes|
          invariant nodes == old(nodes) && forall j :: 0 <= j < i ==> nodes[j].uri != ""
        {
          if nodes[i].uri == "" {
            return Some(MissingUri(i));
          }
        }
        return None;
      }
      ghost var before := nodes;
      var used: set<int>;
      error, used := KeepPorts(ports);
      if error.Some? {
        return;
      }
      var ok := GivePorts(used, available, before, ports);
      return if ok then None else Some(NoPortLeft);
    }
  }

  lemma TakenNone(nodes: seq<Node>, ports: map<string, Port>, st: Settings)
    ensures Taken(nodes[..0], ports, st) == if st.listener then {st.listenerPort as int} else {}
  {
  }

  // The node an error about a missing URI names.
  predicate FirstWithoutUri(nodes: seq<Node>, i: nat) {
    i < |nodes| && nodes[i].uri == "" && forall j :: 0 <= j < i ==> nodes[j].uri != ""
  }

  lemma TakenGrows(nodes: seq<Node>, i: nat, ports: map<string, Port>, st: Settings)
    requires i < |nodes|
    ensures Taken(nodes[..i + 1], ports, st) ==
            Taken(nodes[..i], ports, st) + if Kept(nodes[i], ports) > 0 then {Kept(nodes[i], ports) as int} else {}
  {
  }

  function PortMapOf(nodes: seq<Node>): map<string, Port> {
    if nodes == [] then map[]
    else
      var before := PortMapOf(nodes[..|nodes| - 1]);
      var n := nodes[|nodes| - 1];
      if n.port > 0 then before[n.key := n.port] else before
  }

  /** The nodes after a successful normalisation. */
  function Normalized(nodes: seq<Node>, ports: map<string, Port>, st: Settings, available: int -> bool): seq<Node> {
    var free := FreePorts(Base(st), MAX_PORT + 1, Taken(nodes, ports, st), available);
    seq(|nodes|, i requires 0 <= i < |nodes| => Assigned(nodes, i, ports, st, free))
  }

  predicate Fits(nodes: seq<Node>, ports: map<string, Port>, st: Settings, available: int -> bool) {
    NewCount(nodes, ports) <= |FreePorts(Base(st), MAX_PORT + 1, Taken(nodes, ports, st), available)|
  }

  // -------------------------------------------------------------------------------------------
  // What it means
  // -------------------------------------------------------------------------------------------

  /** Every node gets a port; kept ports stay; a new port is available, clear of the listener, of every kept port and of
      every other new port, and no smaller port from the base up would have done. */
  lemma PortsAreSound(nodes: seq<Node>, ports: map<string, Port>, st: Settings, available: int -> bool, i: nat)
    requires Fits(nodes, ports, st, available) && i < |nodes|
    ensures var r := Normalized(nodes, ports, st, available);
            var base := if st.basePort == 0 then 28000 else st.basePort;
            r[i].key == nodes[i].key && 1 <= r[i].port <= 65535
            && (Kept(nodes[i], ports) > 0 ==> r[i].port == Kept(nodes[i], ports))
            && (Kept(nodes[i], ports) == 0 ==>
                  r[i].port >= base && available(r[i].port) && (st.listener ==> r[i].port != st.listenerPort)
                  && (forall j :: 0 <= j < |nodes| && j != i ==> r[j].port != r[i].port)
                  && forall p :: base <= p < r[i].port ==>
                       !available(p) || (st.listener && p == st.listenerPort)
                       || exists j :: 0 <= j < |nodes| && r[j].port == p)
  {
    hide Fits, FreePorts;
    PortInRange(nodes, ports, st, available, i);
    hide Normalized;
    if Kept(nodes[i], ports) == 0 {
      var r := Normalized(nodes, ports, st, available);
      forall j | 0 <= j < |nodes| && j != i ensures r[j].port != r[i].port {
        OthersDiffer(nodes, ports, st, available, i, j);
      }
      forall p | Base(st) <= p < r[i].port
        ensures !available(p) || (st.listener && p == st.listenerPort) || exists j :: 0 <= j < |nodes| && r[j].port == p
      {
        SmallerInUse(nodes, ports, st, available, i, p);
      }
    }
  }

  // A node keeps its port, or its new one is a free port.
  lemma PortInRange(nodes: seq<Node>, ports: map<string, Port>, st: Settings, available: int -> bool, i: nat)
    requires Fits(nodes, ports, st, available) && i < |nodes|
    ensures var r := Normalized(nodes, ports, st, available);
            |r| == |nodes| && r[i].key == nodes[i].key && 1 <= r[i].port <= MAX_PORT
            && (Kept(nodes[i], ports) > 0 ==> r[i].port == Kept(nodes[i], ports))
            && (Kept(nodes[i], ports) == 0 ==>
                  r[i].port >= Base(st) && available(r[i].port) && (st.listener ==> r[i].port != st.listenerPort))
  {
    hide NewCount, FreePorts;
    var taken := Taken(nodes, ports, st);
    var free := FreePorts(Base(st), MAX_PORT + 1, taken, available);
    Positioned(nodes, ports, i);
    assert Normalized(nodes, ports, st, available)[i] == Assigned(nodes, i, ports, st, free);
    if Kept(nodes[i], ports) == 0 {
      var k := NewCount(nodes[..i], ports);
      FreeAt(Base(st), MAX_PORT + 1, taken, available, k);
      assert Base(st) >= 1;
      NewPortIs(nodes, i, ports, st, free, k);
    }
    hide Normalized, Assigned;
  }

  lemma FreeAt(base: int, limit: int, taken: set<int>, available: int -> bool, k: nat)
    requires k < |FreePorts(base, limit, taken, available)|
    ensures var p := FreePorts(base, limit, taken, available)[k]; base <= p < limit && p !in taken && available(p)
  {
    hide FreePorts;
    FreePortsAre(base, limit, taken, available);
    var free := FreePorts(base, limit, taken, available);
    var p := free[k];
    assert p in free;
  }

  lemma NewPortIs(nodes: seq<Node>, i: nat, ports: map<string, Port>, st: Settings, free: seq<int>, k: nat)
    requires i < |nodes| && Kept(nodes[i], ports) == 0 && k == NewCount(nodes[..i], ports) < |free|
    requires 1 <= free[k] <= MAX_PORT
    ensures Assigned(nodes, i, ports, st, free).port == free[k]
    ensures Assigned(nodes, i, ports, st, free).key == nodes[i].key
  {
    hide NewCount;
  }

  /** The rest of a node: a port in the map under its key comes first, its own port second; the group credentials are
      filled in where a node names no user, name and password together; key and URI stay. */
  lemma NodesKeepTheirOwn(nodes: seq<Node>, ports: map<string, Port>, st: Settings, available: int -> bool, i: nat)
    requires Fits(nodes, ports, st, available) && i < |nodes|
    ensures var n, r := nodes[i], Normalized(nodes, ports, st, available);
            && |r| == |nodes| && r[i].key == n.key && r[i].uri == n.uri
            && (n.key in ports && ports[n.key] > 0 ==> r[i].port == ports[n.key])
            && (!(n.key in ports && ports[n.key] > 0) && n.port > 0 ==> r[i].port == n.port)
            && (!(n.key in ports && ports[n.key] > 0) && n.port == 0 ==>
                  r[i].port >= if st.basePort == 0 then 28000 else st.basePort)
            && r[i].username == (if n.username == "" then st.username else n.username)
            && r[i].password == (if n.username == "" then st.password else n.password)
  {
    PortInRange(nodes, ports, st, available, i);
    hide NewCount, FreePorts, Fits, Taken;
  }

  lemma OthersDiffer(nodes: seq<Node>, ports: map<string, Port>, st: Settings, available: int -> bool, i: nat, j: nat)
    requires Fits(nodes, ports, st, available) && i < |nodes| && j < |nodes| && i != j && Kept(nodes[i], ports) == 0
    ensures Normalized(nodes, ports, st, available)[j].port != Normalized(nodes, ports, st, available)[i].port
  {
    hide NewCount, FreePorts;
    var free := FreePorts(Base(st), MAX_PORT + 1, Taken(nodes, ports, st), available);
    FreePortsAre(Base(st), MAX_PORT + 1, Taken(nodes, ports, st), available);
    Positioned(nodes, ports, i);
    Positioned(nodes, ports, j);
    assert free[NewCount(nodes[..i], ports)] in free;
    if Kept(nodes[j], ports) == 0 {
      assert free[NewCount(nodes[..j], ports)] in free;
      if j < i { NewCountGrows(nodes, ports, j, i); } else { NewCountGrows(nodes, ports, i, j); }
    } else {
      assert Kept(nodes[j], ports) as int in Taken(nodes, ports, st);
    }
  }

  lemma SmallerInUse(nodes: seq<Node>, ports: map<string, Port>, st: Settings, available: int -> bool, i: nat, p: int)
    requires Fits(nodes, ports, st, available) && i < |nodes| && Kept(nodes[i], ports) == 0
    requires Base(st) <= p < Normalized(nodes, ports, st, available)[i].port
    ensures !available(p) || (st.listener && p == st.listenerPort)
            || exists j :: 0 <= j < |nodes| && Normalized(nodes, ports, st, available)[j].port == p
  {
    hide NewCount, FreePorts;
    var r, taken := Normalized(nodes, ports, st, available), Taken(nodes, ports, st);
    var free := FreePorts(Base(st), MAX_PORT + 1, taken, available);
    FreePortsAre(Base(st), MAX_PORT + 1, taken, available);
    Positioned(nodes, ports, i);
    if p in free {
      var m :| 0 <= m < |free| && free[m] == p;
      var j := NewAt(nodes, ports, m, i);
      Positioned(nodes, ports, j);
      assert r[j].port == p;
    } else if p in taken && !(st.listener && p == st.listenerPort) {
      var j :| 0 <= j < |nodes| && Kept(nodes[j], ports) > 0 && Kept(nodes[j], ports) as int == p;
      assert r[j].port == p;
    }
  }

  lemma Positioned(nodes: seq<Node>, ports: map<string, Port>, i: nat)
    requires i < |nodes|
    ensures Kept(nodes[i], ports) == 0 ==> NewCount(nodes[..i], ports) < NewCount(nodes, ports)
  {
    NewCountGrows(nodes, ports, i, |nodes|);
    assert nodes[..|nodes|] == nodes;
  }

  // The node that takes a given one of the free ports.
  lemma {:induction false} NewAt(nodes: seq<Node>, ports: map<string, Port>, m: nat, limit: nat) returns (j: nat)
    requires limit <= |nodes| && m < NewCount(nodes[..limit], ports)
    ensures j < limit && Kept(nodes[j], ports) == 0 && NewCount(nodes[..j], ports) == m
  {
    assert nodes[..limit][..limit - 1] == nodes[..limit - 1];
    if Kept(nodes[limit - 1], ports) == 0 && NewCount(nodes[..limit - 1], ports) == m {
      j := limit - 1;
    } else {
      j := NewAt(nodes, ports, m, limit - 1);
    }
  }

  /** Kept ports are pairwise distinct exactly when the map and the nodes bring no port twice: the first pass does not
      look. */
  lemma AllDistinctIff(nodes: seq<Node>, ports: map<string, Port>, st: Settings, available: int -> bool)
    requires Fits(nodes, ports, st, available)
    ensures var r := Normalized(nodes, ports, st, available);
            (forall i, j :: 0 <= i < j < |r| ==> r[i].port != r[j].port)
            <==> (forall i, j :: 0 <= i < j < |nodes| && Kept(nodes[i], ports) > 0 ==>
                Kept(nodes[i], ports) != Kept(nodes[j], ports))
  {
    var r := Normalized(nodes, ports, st, available);
    forall i | 0 <= i < |nodes|
      ensures Kept(nodes[i], ports) > 0 ==> r[i].port == Kept(nodes[i], ports)
      ensures Kept(nodes[i], ports) == 0 ==> forall j :: 0 <= j < |nodes| && j != i ==> r[j].port != r[i].port
    {
      PortsAreSound(nodes, ports, st, available, i);
    }
  }

  /** Failure means that from the base up every port is taken or unavailable, or goes to one of the new nodes and still
      some are left over. */
  lemma FailureMeansNoneLeft(nodes: seq<Node>, ports: map<string, Port>, st: Settings, available: int -> bool)
    requires !Fits(nodes, ports, st, available)
    ensures var free := FreePorts(Base(st), MAX_PORT + 1, Taken(nodes, ports, st), available);
            |free| < NewCount(nodes, ports)
            && forall p :: Base(st) <= p <= MAX_PORT && p !in Taken(nodes, ports, st) && available(p) ==>
                 exists j :: 0 <= j < |nodes| && Kept(nodes[j], ports) == 0
                     && Assigned(nodes, j, ports, st, free).port == p
  {
    var free := FreePorts(Base(st), MAX_PORT + 1, Taken(nodes, ports, st), available);
    FreePortsAre(Base(st), MAX_PORT + 1, Taken(nodes, ports, st), available);
    forall p | Base(st) <= p <= MAX_PORT && p !in Taken(nodes, ports, st) && available(p)
      ensures exists j ::
                0 <= j < |nodes| && Kept(nodes[j], ports) == 0 && Assigned(nodes, j, ports, st, free).port == p
    {
      assert p in free;
      var m :| 0 <= m < |free| && free[m] == p;
      assert nodes[..|nodes|] == nodes;
      var j := NewAt(nodes, ports, m, |nodes|);
      assert Assigned(nodes, j, ports, st, free).port == p;
    }
  }

  lemma {:induction false} PortMapFinds(nodes: seq<Node>, i: nat)
    requires DistinctKeys(nodes) && i < |nodes| && nodes[i].port > 0
    ensures nodes[i].key in PortMapOf(nodes) && PortMapOf(nodes)[nodes[i].key] == nodes[i].port
  {
    if i < |nodes| - 1 {
      PortMapFinds(nodes[..|nodes| - 1], i);
    }
  }

  /** Normalising again with the port map of the result gives the same ports, whatever ports the nodes come with and
      whatever is available meanwhile. */
  lemma PortsSurviveReload(nodes: seq<Node>, ports: map<string, Port>, st: Settings, available: int -> bool,
                           again: seq<Node>, later: int -> bool)
    requires Fits(nodes, ports, st, available) && DistinctKeys(nodes)
    requires |again| == |nodes| && forall i :: 0 <= i < |nodes| ==> again[i].key == nodes[i].key
    ensures var r := Normalized(nodes, ports, st, available);
            Fits(again, PortMapOf(r), st, later)
            && forall i :: 0 <= i < |nodes| ==> Normalized(again, PortMapOf(r), st, later)[i].port == r[i].port
  {
    hide Taken, FreePorts, NewCount, PortMapOf;
    var r := Normalized(nodes, ports, st, available);
    forall i | 0 <= i < |nodes| ensures r[i].key == nodes[i].key && r[i].port > 0 {
      PortsAreSound(nodes, ports, st, available, i);
    }
    hide Normalized;
    forall i | 0 <= i < |nodes| ensures Kept(again[i], PortMapOf(r)) == r[i].port {
      PortMapFinds(r, i);
    }
    NoneNew(again, PortMapOf(r));
    KeptStay(again, PortMapOf(r), st, later);
  }

  // Kept ports stay.
  lemma KeptStay(nodes: seq<Node>, ports: map<string, Port>, st: Settings, available: int -> bool)
    ensures |Normalized(nodes, ports, st, available)| == |nodes|
    ensures forall i :: 0 <= i < |nodes| && Kept(nodes[i], ports) > 0 ==>
              Normalized(nodes, ports, st, available)[i].port == Kept(nodes[i], ports)
  {
  }

  lemma {:induction false} NoneNew(nodes: seq<Node>, ports: map<string, Port>)
    requires forall i :: 0 <= i < |nodes| ==> Kept(nodes[i], ports) > 0
    ensures NewCount(nodes, ports) == 0
  {
    if nodes != [] {
      NoneNew(nodes[..|nodes| - 1], ports);
    }
  }

  // -------------------------------------------------------------------------------------------
  // One free port, with wrap-around
  // -------------------------------------------------------------------------------------------

  const SCAN_BASE := 24000

  // 16-bit increment.
  function Increment(p: Port): Port {
    (p + 1) % 0x1_0000
  }

  // The i-th port of the scan, which skips 0.
  function Scanned(base: Port, i: nat): int
    requires base > 0
  {
    (base - 1 + i) % MAX_PORT + 1
  }

  /** nextUnreservedPortLocked: a free port whenever there is one, the first in the scan from the base. */
  method NextUnreservedPort(basePort: Port, used: set<int>) returns (port: Port)
    ensures (exists p :: 1 <= p <= MAX_PORT && p !in used) ==> 1 <= port <= MAX_PORT && port !in used
    ensures var base: Port := if basePort == 0 then 24000 else basePort;
            port == base || exists n: nat :: n < MAX_PORT && Scanned(base, n) == port && forall m: nat :: m < n ==>
                Scanned(base, m) in used
  {
    var base: Port := if basePort == 0 then SCAN_BASE else basePort;
    port := base;
    ScanRepeats(base);
    for i := 0 to 0x1_0000
      invariant port == Scanned(base, i) && 1 <= port
      invariant forall m: nat :: m < i ==> Scanned(base, m) in used
    {
      if port !in used && port != 0 {
        return;
      }
      port := Increment(port);
      if port == 0 {
        port := 1;
      }
    }
    forall p | 1 <= p <= MAX_PORT ensures p in used {
      var n := ScanReaches(base, p);
      assert Scanned(base, n) in used;
    }
    port := base;
  }

  lemma ScanReaches(base: Port, p: int) returns (n: nat)
    requires base > 0 && 1 <= p <= MAX_PORT
    ensures n < MAX_PORT && Scanned(base, n) == p
  {
    n := if p >= base then p - base else p - base + MAX_PORT;
  }

  lemma ScanRepeats(base: Port)
    requires base > 0
    ensures Scanned(base, MAX_PORT) == Scanned(base, 0)
  {
  }
}
