/** The stored member states, one row for each group and node, and the sets of states waiting to be stored.

    Two writers reach these rows, so each state carries the revision it was made in and a stored row is
    only replaced by a state at least as new. */
module MemberRows {
  import opened Basics

  datatype Key = Key(groupId: int, nodeId: int)

  datatype NodeState = NodeState(groupId: int, nodeId: int, history: seq<int>, evicted: bool, lastError: string,
                                 evictedAt: Option<int>, revision: int)

  type Rows = map<Key, NodeState>

  function KeyOf(s: NodeState): Key {
    Key(s.groupId, s.nodeId)
  }

  // An unversioned state always applies.
  predicate Supersedes(s: NodeState, rows: Rows) {
    KeyOf(s) in rows ==> s.revision == 0 || s.revision >= rows[KeyOf(s)].revision
  }

  /** UpsertGroupNodeState: writes the row unless a newer one is stored. */
  function Upsert(rows: Rows, s: NodeState): Rows {
    if Supersedes(s, rows) then rows[KeyOf(s) := s] else rows
  }

  function UpsertAll(rows: Rows, states: seq<NodeState>): Rows {
    if states == [] then rows else Upsert(UpsertAll(rows, states[..|states| - 1]), states[|states| - 1])
  }

  /** The newest state of each member in a list, later entries replacing earlier ones. */
  function Newest(states: seq<NodeState>): Rows {
    if states == [] then map[]
    else Newest(states[..|states| - 1])[KeyOf(states[|states| - 1]) := states[|states| - 1]]
  }

  predicate UniqueKeys(states: seq<NodeState>) {
    forall i, j :: 0 <= i < j < |states| ==> KeyOf(states[i]) != KeyOf(states[j])
  }

  lemma {:induction false} NewestConcat(a: seq<NodeState>, b: seq<NodeState>)
    ensures Newest(a + b) == Newest(a) + Newest(b)
  {
    if b == [] {
      assert a + b == a;
    } else {
      assert (a + b)[..|a + b| - 1] == a + b[..|b| - 1];
      NewestConcat(a, b[..|b| - 1]);
    }
  }

  lemma {:induction false} NewestKeys(states: seq<NodeState>, k: Key)
    ensures k in Newest(states) <==> exists i :: 0 <= i < |states| && KeyOf(states[i]) == k
    ensures k in Newest(states) ==> Newest(states)[k] in states && KeyOf(Newest(states)[k]) == k
  {
    if states != [] {
      var init := states[..|states| - 1];
      NewestKeys(init, k);
      assert states == init + [states[|states| - 1]];
    }
  }

  lemma {:induction false} NewestUnique(states: seq<NodeState>, i: nat)
    requires UniqueKeys(states) && i < |states|
    ensures KeyOf(states[i]) in Newest(states) && Newest(states)[KeyOf(states[i])] == states[i]
  {
    if i < |states| - 1 {
      NewestUnique(states[..|states| - 1], i);
    }
  }

  /** Writing states that all supersede what is stored is overriding the rows by the newest of each member. */
  lemma {:induction false} UpsertAllOverrides(rows: Rows, states: seq<NodeState>)
    requires UniqueKeys(states)
    requires forall i :: 0 <= i < |states| ==> Supersedes(states[i], rows)
    ensures UpsertAll(rows, states) == rows + Newest(states)
  {
    if states != [] {
      var init, last := states[..|states| - 1], states[|states| - 1];
      assert forall i :: 0 <= i < |init| ==> init[i] == states[i];
      UpsertAllOverrides(rows, init);
      NewestKeys(init, KeyOf(last));
      assert KeyOf(last) !in Newest(init);
      assert Supersedes(last, rows + Newest(init));
    }
  }

  /** What one write does to a row: it replaces it if there is none, if the state carries no revision, or if its
      revision is at least the stored one; no other row changes. */
  lemma WrittenIff(rows: Rows, s: NodeState, groupId: int, nodeId: int)
    ensures var k := Key(groupId, nodeId);
            if groupId == s.groupId && nodeId == s.nodeId then
              k in Upsert(rows, s)
              && Upsert(rows, s)[k] == if k !in rows || s.revision == 0 || s.revision >= rows[k].revision then s
                 else rows[k]
            else (k in Upsert(rows, s) <==> k in rows) && (k in rows ==> Upsert(rows, s)[k] == rows[k])
  {
  }

  /** A stored revision never goes back while every write is versioned. */
  lemma {:induction false} RevisionsNeverGoBack(rows: Rows, states: seq<NodeState>, k: Key)
    requires forall i :: 0 <= i < |states| ==> states[i].revision != 0
    requires k in rows
    ensures k in UpsertAll(rows, states) && UpsertAll(rows, states)[k].revision >= rows[k].revision
  {
    if states != [] {
      RevisionsNeverGoBack(rows, states[..|states| - 1], k);
    }
  }

  /** Two writers of different revisions commute: a stalled write cannot undo the newer one. */
  lemma WritersCommute(rows: Rows, a: NodeState, b: NodeState)
    requires a.revision != 0 && b.revision != 0 && (KeyOf(a) == KeyOf(b) ==> a.revision != b.revision)
    ensures Upsert(Upsert(rows, a), b) == Upsert(Upsert(rows, b), a)
  {
  }

  // -------------------------------------------------------------------------------------------
  // Pending states
  // -------------------------------------------------------------------------------------------

  /** The position of a member in a list, or its length. */
  function Find(states: seq<NodeState>, k: Key): (i: nat)
    ensures i <= |states|
    ensures i < |states| ==> KeyOf(states[i]) == k
    ensures forall j :: 0 <= j < i ==> KeyOf(states[j]) != k
  {
    if states == [] then 0
    else
      var i := Find(states[..|states| - 1], k);
      if i < |states| - 1 then i
      else if KeyOf(states[|states| - 1]) == k then |states| - 1
      else |states|
  }

  // recordStates, one state: it replaces the pending reading of its member.
  function RecordOne(pending: seq<NodeState>, s: NodeState): seq<NodeState> {
    var i := Find(pending, KeyOf(s));
    if i < |pending| then pending[i := s] else pending + [s]
  }

  function Record(pending: seq<NodeState>, states: seq<NodeState>): seq<NodeState> {
    if states == [] then pending
    else RecordOne(Record(pending, states[..|states| - 1]), states[|states| - 1])
  }

  // restoreStates, one state: a reading queued meanwhile is newer and stays.
  function RestoreOne(pending: seq<NodeState>, s: NodeState): seq<NodeState> {
    if Find(pending, KeyOf(s)) < |pending| then pending else pending + [s]
  }

  function Restore(pending: seq<NodeState>, states: seq<NodeState>): seq<NodeState> {
    if states == [] then pending
    else RestoreOne(Restore(pending, states[..|states| - 1]), states[|states| - 1])
  }

  lemma {:induction false} RecordOneNewest(pending: seq<NodeState>, s: NodeState)
    requires UniqueKeys(pending)
    ensures UniqueKeys(RecordOne(pending, s))
    ensures Newest(RecordOne(pending, s)) == Newest(pending)[KeyOf(s) := s]
  {
    var p := RecordOne(pending, s);
    var i := Find(pending, KeyOf(s));
    if i < |pending| {
      forall k ensures k in Newest(p) <==> k in Newest(pending)[KeyOf(s) := s] {
        NewestKeys(p, k);
        NewestKeys(pending, k);
        if k in Newest(pending) {
          var j :| 0 <= j < |pending| && KeyOf(pending[j]) == k;
          assert KeyOf(p[j]) == k;
        }
        if k in Newest(p) {
          var j :| 0 <= j < |p| && KeyOf(p[j]) == k;
          assert KeyOf(pending[j]) == k;
        }
        assert KeyOf(p[i]) == KeyOf(s);
      }
      forall k | k in Newest(p) ensures Newest(p)[k] == Newest(pending)[KeyOf(s) := s][k] {
        NewestKeys(p, k);
        var j :| 0 <= j < |p| && KeyOf(p[j]) == k;
        NewestUnique(p, j);
        NewestUnique(pending, j);
      }
    } else {
      assert p[..|p| - 1] == pending;
    }
  }

  /** Merging the states of a delivery keeps one reading a member, the newest. */
  lemma {:induction false} RecordNewest(pending: seq<NodeState>, states: seq<NodeState>)
    requires UniqueKeys(pending)
    ensures UniqueKeys(Record(pending, states))
    ensures Newest(Record(pending, states)) == Newest(pending) + Newest(states)
  {
    hide RecordOne, UniqueKeys;
    if states != [] {
      var init, last := states[..|states| - 1], states[|states| - 1];
      RecordNewest(pending, init);
      RecordOneNewest(Record(pending, init), last);
    }
  }

  lemma {:induction false} RestoreOneNewest(pending: seq<NodeState>, s: NodeState)
    requires UniqueKeys(pending)
    ensures UniqueKeys(RestoreOne(pending, s))
    ensures Newest(RestoreOne(pending, s)) == map[KeyOf(s) := s] + Newest(pending)
  {
    NewestKeys(pending, KeyOf(s));
    if Find(pending, KeyOf(s)) == |pending| {
      assert RestoreOne(pending, s)[..|pending|] == pending;
    } else {
      assert KeyOf(pending[Find(pending, KeyOf(s))]) == KeyOf(s);
    }
  }

  lemma MergeOne(rest: Rows, pending: Rows, s: NodeState)
    requires KeyOf(s) !in rest
    ensures map[KeyOf(s) := s] + (rest + pending) == rest[KeyOf(s) := s] + pending
  {
  }

  lemma {:induction false} RestoreNewest(pending: seq<NodeState>, states: seq<NodeState>)
    requires UniqueKeys(pending) && UniqueKeys(states)
    ensures UniqueKeys(Restore(pending, states))
    ensures Newest(Restore(pending, states)) == Newest(states) + Newest(pending)
  {
    if states != [] {
      var init, last := states[..|states| - 1], states[|states| - 1];
      RestoreNewest(pending, init);
      RestoreOneNewest(Restore(pending, init), last);
      NewestKeys(init, KeyOf(last));
      MergeOne(Newest(init), Newest(pending), last);
    }
  }

  /** Returning a detached list to an untouched pending set gives the list back. */
  lemma {:induction false} RestoreToEmpty(states: seq<NodeState>)
    requires UniqueKeys(states)
    ensures Restore([], states) == states
  {
    if states != [] {
      var init, last := states[..|states| - 1], states[|states| - 1];
      RestoreToEmpty(init);
      assert states == init + [last];
    }
  }
}
