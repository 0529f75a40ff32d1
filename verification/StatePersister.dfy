/** The background writer of member states and current nodes.

    Observers put the newest state of each member into a pending set; a worker detaches the set, writes it row by
    row and puts back what failed. Shutdown refuses new events, waits for the worker and drains once more. The model
    interleaves the worker's critical sections and writes with observers and with the other writer of the rows.

    Events are announced after the lock under which they were stamped is released, so they may be observed in any
    order. */
module StatePersister {
  import opened Basics
  import opened MemberRows

  /** The worker runs; then shutdown drains the states, then the current nodes, and is done. */
  datatype Mode = Running | FinalStates | FinalCurrent | FinalDone | Finished

  /** Where the draining goroutine is: it detached a batch and writes it, it has the failed part in hand, or it
      writes the current nodes. */
  datatype Pc =
    | Idle
    | Writing(todo: Rows, failed: Rows)
    | Requeue(failed: Rows)
    | Flushing(nodes: map<int, int>)

  /** The accepted states: the last one of each member, and the one with the highest revision. */
  datatype Accepted = Accepted(last: Rows, newest: Rows)

  /** `accepted` and `chosen` record what was accepted, `lost` says that a write failed during the final drain and
      `gone` lists the groups found deleted. */
  datatype State = State(pending: Rows, current: map<int, int>, closed: bool, mode: Mode, pc: Pc,
                         rows: Rows, groups: map<int, int>,
                         accepted: Accepted, chosen: map<int, int>, lost: bool, gone: set<int>)

  datatype Write = Written | NotFound | Broken

  datatype Action =
    | Observe(event: NodeState, isState: bool, isCurrent: bool, node: int)
    | OtherWriter(state: NodeState)
    | Detach
    | WriteRow(k: Key, ok: bool)
    | EndWrites
    | PutBack
    | DetachCurrent
    | WriteCurrent(group: int, w: Write)
    | EndFlush
    | Close
    | WorkerExits
    | Finish

  // Accepted by Observe as a member state.
  predicate Counts(event: NodeState, isState: bool) {
    isState && event.nodeId != 0
  }

  /** A version number identifies one state of a member. */
  predicate SameVersionSameState(rows: Rows, s: NodeState) {
    KeyOf(s) in rows && rows[KeyOf(s)].revision == s.revision ==> rows[KeyOf(s)] == s
  }

  predicate Identified(s: State, event: NodeState) {
    && SameVersionSameState(s.accepted.last, event)
    && SameVersionSameState(s.accepted.newest, event)
    && SameVersionSameState(InHand(s.pc), event)
  }

  predicate Enabled(s: State, a: Action) {
    match a
    case Observe(event, isState, isCurrent, node) =>
      Counts(event, isState) ==>
        event.revision != 0 && Identified(s, event) && SameVersionSameState(s.rows, event)
    case OtherWriter(state) => state.revision != 0 && Identified(s, state)
    case Detach => s.pc.Idle? && (s.mode.Running? || s.mode.FinalStates?)
    case WriteRow(k, ok) => s.pc.Writing? && k in s.pc.todo
    case EndWrites => s.pc.Writing? && s.pc.todo == map[]
    case PutBack => s.pc.Requeue?
    case DetachCurrent => s.pc.Idle? && (s.mode.Running? || s.mode.FinalCurrent?)
    case WriteCurrent(group, w) => s.pc.Flushing? && group in s.pc.nodes
    case EndFlush => s.pc.Flushing? && s.pc.nodes == map[]
    case Close => true
    case WorkerExits => s.closed && s.pc.Idle? && s.mode.Running?
    case Finish => s.mode.FinalDone? && s.pc.Idle?
  }

  function Newer(rows: Rows, event: NodeState): Rows {
    if KeyOf(event) in rows && rows[KeyOf(event)].revision >= event.revision then rows else rows[KeyOf(event) := event]
  }

  function Accept(log: Accepted, event: NodeState): Accepted {
    Accepted(log.last[KeyOf(event) := event], Newer(log.newest, event))
  }

  function Observed(s: State, event: NodeState, isState: bool, isCurrent: bool, node: int): (t: State)
    ensures t.rows == s.rows && t.pc == s.pc
  {
    if s.closed then s
    else
      var g := event.groupId;
      var t := if Counts(event, isState) then
                 s.(pending := s.pending[KeyOf(event) := event], accepted := Accept(s.accepted, event))
               else s;
      if isCurrent then t.(current := t.current[g := node], chosen := t.chosen[g := node], gone := t.gone - {g})
      else t
  }

  function Detached(s: State): (t: State)
    ensures t.rows == s.rows && (t.pc.Writing? ==> t.pc.failed == map[])
  {
    s.(pending := map[], pc := if s.pending == map[] then Idle else Writing(s.pending, map[]),
       mode := if s.mode.FinalStates? then FinalCurrent else s.mode)
  }

  function WroteRow(s: State, k: Key, ok: bool): State
    requires s.pc.Writing? && k in s.pc.todo
  {
    var state := s.pc.todo[k];
    if ok then s.(rows := Upsert(s.rows, state), pc := s.pc.(todo := s.pc.todo - {k}))
    else s.(pc := Writing(s.pc.todo - {k}, s.pc.failed[k := state]), lost := s.lost || !s.mode.Running?)
  }

  function EndedWrites(s: State): (t: State)
    requires s.pc.Writing?
    ensures t.rows == s.rows && !t.pc.Writing?
  {
    s.(pc := if s.pc.failed == map[] then Idle else Requeue(s.pc.failed))
  }

  // A newer event queued meanwhile supersedes the retry.
  function PutBackAll(s: State): (t: State)
    requires s.pc.Requeue?
    ensures t.rows == s.rows && !t.pc.Writing?
  {
    s.(pending := s.pc.failed + s.pending, pc := Idle)
  }

  function DetachedCurrent(s: State): (t: State)
    ensures t.rows == s.rows && !t.pc.Writing?
  {
    s.(current := map[], pc := Flushing(s.current), mode := if s.mode.FinalCurrent? then FinalDone else s.mode)
  }

  function WroteCurrent(s: State, group: int, w: Write): (t: State)
    requires s.pc.Flushing? && group in s.pc.nodes
    ensures t.rows == s.rows && !t.pc.Writing?
  {
    var node := s.pc.nodes[group];
    var t := s.(pc := Flushing(s.pc.nodes - {group}));
    match w
    case Written => t.(groups := s.groups[group := node])
    case NotFound => t.(gone := if group in s.current then s.gone else s.gone + {group})
    case Broken =>
      t.(current := if group in s.current then s.current else s.current[group := node], lost := s.lost
          || !s.mode.Running?)
  }

  function Next(s: State, a: Action): State
    requires Enabled(s, a)
  {
    match a
    case Observe(event, isState, isCurrent, node) => Observed(s, event, isState, isCurrent, node)
    case OtherWriter(state) => s.(rows := Upsert(s.rows, state))
    case Detach => Detached(s)
    case WriteRow(k, ok) => WroteRow(s, k, ok)
    case EndWrites => EndedWrites(s)
    case PutBack => PutBackAll(s)
    case DetachCurrent => DetachedCurrent(s)
    case WriteCurrent(group, w) => WroteCurrent(s, group, w)
    case EndFlush => s.(pc := Idle)
    case Close => s.(closed := true)
    case WorkerExits => s.(mode := FinalStates)
    case Finish => s.(mode := Finished)
  }

  predicate Initial(s: State) {
    s.pending == map[] && s.current == map[] && !s.closed && s.mode == Running && s.pc == Idle
    && s.accepted == Accepted(map[], map[]) && s.chosen == map[] && !s.lost && s.gone == {}
    && forall k :: k in s.rows ==> s.rows[k].revision != 0 && KeyOf(s.rows[k]) == k
  }

  ghost predicate Follows(s: State, t: State) {
    exists a: Action :: Enabled(s, a) && t == Next(s, a)
  }

  ghost predicate Run(trace: seq<State>) {
    |trace| > 0 && Initial(trace[0]) && forall i :: 0 < i < |trace| ==> Follows(trace[i - 1], trace[i])
  }

  // -------------------------------------------------------------------------------------------
  // Nothing accepted is lost
  // -------------------------------------------------------------------------------------------

  // The states the draining goroutine has in hand.
  function InHand(pc: Pc): Rows {
    match pc
    case Writing(todo, failed) => failed + todo
    case Requeue(failed) => failed
    case _ => map[]
  }

  function Get(rows: Rows, k: Key): Option<NodeState> {
    if k in rows then Some(rows[k]) else None
  }

  predicate Versioned(k: Key, x: Option<NodeState>) {
    x.Some? ==> x.value.revision != 0 && KeyOf(x.value) == k
  }

  /** One member: what is pending is the last accepted state, what is in hand was the last one when it was detached,
      and the last accepted state is pending, or in hand, or stored unless a newer one is. */
  predicate Kept(k: Key, pending: Option<NodeState>, inHand: Option<NodeState>, row: Option<NodeState>,
                 accepted: Option<NodeState>) {
    Versioned(k, pending) && Versioned(k, inHand) && Versioned(k, row) && Versioned(k, accepted)
    && (pending.Some? ==> pending == accepted)
    && (inHand.Some? ==> accepted.Some?
                         && (inHand.value.revision == accepted.value.revision ==> inHand == accepted))
    && (inHand.Some? && pending.None? ==> inHand == accepted)
    && (accepted.Some? ==>
          pending.Some? || inHand == accepted || (row.Some? && row.value.revision >= accepted.value.revision))
    && (accepted.Some? && row.Some? && row.value.revision == accepted.value.revision ==> row == accepted)
  }

  predicate KeptIn(s: State, k: Key) {
    Kept(k, Get(s.pending, k), Get(InHand(s.pc), k), Get(s.rows, k), Get(s.accepted.last, k))
  }

  ghost predicate Conserved(s: State) {
    (forall k :: KeptIn(s, k)) && (s.pc.Writing? ==> s.pc.todo.Keys !! s.pc.failed.Keys)
  }

  /** The last chosen node of a group is waiting, or in hand, or stored, or its group is gone. */
  predicate CurrentKept(s: State) {
    forall g :: g in s.chosen ==>
      if g in s.current then s.current[g] == s.chosen[g]
      else if s.pc.Flushing? && g in s.pc.nodes then s.pc.nodes[g] == s.chosen[g]
      else g in s.gone || (g in s.groups && s.groups[g] == s.chosen[g])
  }

  // A shutdown in which no write has failed has nothing left behind it.
  predicate Drained(s: State) {
    (s.mode.Running? || s.closed)
    && (s.lost ==> !s.mode.Running?)
    && (!s.lost ==>
          (s.mode.FinalCurrent? || s.mode.FinalDone? || s.mode.Finished? ==>
             s.pending == map[] && !s.pc.Requeue? && (s.pc.Writing? ==> s.pc.failed == map[]))
          && (s.mode.FinalDone? || s.mode.Finished? ==> s.current == map[] && !s.pc.Writing?))
    && (s.mode.FinalStates? || s.mode.Finished? ==> s.pc.Idle?)
    && (s.mode.FinalCurrent? ==> !s.pc.Flushing?)
  }

  lemma GetUpsert(rows: Rows, state: NodeState, k: Key)
    ensures Get(Upsert(rows, state), k) ==
            if k == KeyOf(state) && Supersedes(state, rows) then Some(state) else Get(rows, k)
  {
  }

  lemma WroteGets(s: State, k: Key, ok: bool, x: Key)
    requires s.pc.Writing? && k in s.pc.todo && s.pc.todo.Keys !! s.pc.failed.Keys
    ensures var t := WroteRow(s, k, ok);
            Get(InHand(s.pc), k) == Some(s.pc.todo[k]) && t.pending == s.pending && t.accepted == s.accepted
            && t.rows == (if ok then Upsert(s.rows, s.pc.todo[k]) else s.rows)
            && Get(InHand(t.pc), x) == if ok && x == k then None else Get(InHand(s.pc), x)
  {
  }

  lemma WriteKeepsOne(s: State, k: Key, ok: bool, x: Key)
    requires KeptIn(s, x) && KeptIn(s, k) && s.pc.Writing? && k in s.pc.todo && s.pc.todo.Keys !! s.pc.failed.Keys
    ensures KeptIn(WroteRow(s, k, ok), x)
  {
    WroteGets(s, k, ok, x);
    GetUpsert(s.rows, s.pc.todo[k], x);
    assert x in s.rows ==> Get(s.rows, x) == Some(s.rows[x]);
    hide Upsert, WroteRow, InHand;
  }

  lemma ObserveKeepsOne(s: State, event: NodeState, isState: bool, isCurrent: bool, node: int, k: Key)
    requires KeptIn(s, k) && Enabled(s, Observe(event, isState, isCurrent, node))
    ensures KeptIn(Observed(s, event, isState, isCurrent, node), k)
  {
  }

  lemma OtherKeepsOne(s: State, state: NodeState, k: Key)
    requires KeptIn(s, k) && state.revision != 0 && SameVersionSameState(s.accepted.last, state)
    ensures KeptIn(s.(rows := Upsert(s.rows, state)), k)
  {
  }

  lemma DetachKeepsOne(s: State, k: Key)
    requires KeptIn(s, k) && s.pc.Idle?
    ensures KeptIn(Detached(s), k)
  {
  }

  lemma EndKeepsOne(s: State, k: Key)
    requires KeptIn(s, k) && s.pc.Writing? && s.pc.todo == map[]
    ensures KeptIn(EndedWrites(s), k)
  {
  }

  lemma PutBackKeepsOne(s: State, k: Key)
    requires KeptIn(s, k) && s.pc.Requeue?
    ensures KeptIn(PutBackAll(s), k)
  {
  }

  lemma FlushKeepsOne(s: State, k: Key)
    requires KeptIn(s, k)
    ensures s.pc.Idle? ==> KeptIn(DetachedCurrent(s), k)
    ensures s.pc.Flushing? ==> KeptIn(s.(pc := Idle), k)
  {
  }

  lemma WroteCurrentSame(s: State, g: int, w: Write, k: Key)
    requires KeptIn(s, k) && s.pc.Flushing? && g in s.pc.nodes
    ensures KeptIn(WroteCurrent(s, g, w), k)
  {
  }

  lemma NextKeepsOne(s: State, a: Action, k: Key)
    requires KeptIn(s, k) && Enabled(s, a)
    requires a.WriteRow? ==> KeptIn(s, a.k) && s.pc.todo.Keys !! s.pc.failed.Keys
    ensures KeptIn(Next(s, a), k)
  {
    hide Kept, Get, Observed, Detached, WroteRow, EndedWrites, PutBackAll, DetachedCurrent, WroteCurrent,
      Upsert, InHand;
    match a
    case Observe(event, isState, isCurrent, node) => ObserveKeepsOne(s, event, isState, isCurrent, node, k);
    case OtherWriter(state) => OtherKeepsOne(s, state, k);
    case WriteRow(x, ok) => WriteKeepsOne(s, x, ok, k);
    case WriteCurrent(g, w) => WroteCurrentSame(s, g, w, k);
    case Detach => DetachKeepsOne(s, k);
    case EndWrites => EndKeepsOne(s, k);
    case PutBack => PutBackKeepsOne(s, k);
    case DetachCurrent => FlushKeepsOne(s, k);
    case EndFlush => FlushKeepsOne(s, k);
    case _ =>
  }

  lemma NextKeepsDisjoint(s: State, a: Action)
    requires Enabled(s, a) && (s.pc.Writing? ==> s.pc.todo.Keys !! s.pc.failed.Keys)
    ensures Next(s, a).pc.Writing? ==> Next(s, a).pc.todo.Keys !! Next(s, a).pc.failed.Keys
  {
    hide Upsert, Counts, SameVersionSameState, Observed, Detached, EndedWrites, PutBackAll, DetachedCurrent,
      WroteCurrent;
    if a.WriteRow? {
      assert Next(s, a) == WroteRow(s, a.k, a.ok);
    } else {
      hide Next;
      SamePcOrNew(s, a);
    }
  }

  lemma SamePcOrNew(s: State, a: Action)
    requires Enabled(s, a) && !a.WriteRow?
    ensures Next(s, a).pc == s.pc || !Next(s, a).pc.Writing? || Next(s, a).pc.failed == map[]
    ensures !a.OtherWriter? ==> Next(s, a).rows == s.rows
  {
  }

  lemma NextKeepsConserved(s: State, a: Action)
    requires Conserved(s) && Enabled(s, a)
    ensures Conserved(Next(s, a))
  {
    hide KeptIn, Next;
    NextKeepsDisjoint(s, a);
    forall k ensures KeptIn(Next(s, a), k) {
      assert a.WriteRow? ==> KeptIn(s, a.k) && s.pc.Writing?;
      NextKeepsOne(s, a, k);
    }
  }

  lemma WriteCurrentKeeps(s: State, g: int, w: Write)
    requires CurrentKept(s) && Drained(s) && s.pc.Flushing? && g in s.pc.nodes
    ensures CurrentKept(WroteCurrent(s, g, w)) && Drained(WroteCurrent(s, g, w))
  {
  }

  lemma ObserveKeepsCurrent(s: State, event: NodeState, isState: bool, isCurrent: bool, node: int)
    requires CurrentKept(s) && Drained(s)
    ensures CurrentKept(Observed(s, event, isState, isCurrent, node))
            && Drained(Observed(s, event, isState, isCurrent, node))
  {
  }

  lemma WriteRowKeepsCurrent(s: State, k: Key, ok: bool)
    requires CurrentKept(s) && Drained(s) && s.pc.Writing? && k in s.pc.todo
    ensures CurrentKept(WroteRow(s, k, ok)) && Drained(WroteRow(s, k, ok))
  {
  }

  lemma DetachKeepsCurrent(s: State)
    requires CurrentKept(s) && Drained(s) && s.pc.Idle?
    ensures s.mode.Running? || s.mode.FinalStates? ==> CurrentKept(Detached(s)) && Drained(Detached(s))
    ensures s.mode.Running? || s.mode.FinalCurrent? ==> CurrentKept(DetachedCurrent(s)) && Drained(DetachedCurrent(s))
  {
  }

  lemma PutBackKeepsCurrent(s: State)
    requires CurrentKept(s) && Drained(s)
    ensures s.pc.Writing? && s.pc.todo == map[] ==> CurrentKept(EndedWrites(s)) && Drained(EndedWrites(s))
    ensures s.pc.Requeue? ==> CurrentKept(PutBackAll(s)) && Drained(PutBackAll(s))
  {
  }

  lemma NextKeepsCurrent(s: State, a: Action)
    requires CurrentKept(s) && Drained(s) && Enabled(s, a)
    ensures CurrentKept(Next(s, a)) && Drained(Next(s, a))
  {
    hide Observed, Detached, WroteRow, EndedWrites, PutBackAll, DetachedCurrent, WroteCurrent, Upsert;
    match a
    case Observe(event, isState, isCurrent, node) => ObserveKeepsCurrent(s, event, isState, isCurrent, node);
    case WriteRow(k, ok) => WriteRowKeepsCurrent(s, k, ok);
    case WriteCurrent(g, w) => WriteCurrentKeeps(s, g, w);
    case Detach => DetachKeepsCurrent(s);
    case DetachCurrent => DetachKeepsCurrent(s);
    case EndWrites => PutBackKeepsCurrent(s);
    case PutBack => PutBackKeepsCurrent(s);
    case _ =>
  }

  ghost predicate Inv(s: State) {
    Conserved(s) && CurrentKept(s) && Drained(s)
  }

  lemma {:induction false} RunKeepsInv(trace: seq<State>)
    requires Run(trace)
    ensures Inv(trace[|trace| - 1])
  {
    hide Conserved, CurrentKept, Drained, Enabled, Next, Initial;
    if |trace| == 1 {
      InitialInv(trace[0]);
    } else {
      var shorter := trace[..|trace| - 1];
      assert forall i :: 0 < i < |shorter| ==> Follows(trace[i - 1], trace[i]);
      RunKeepsInv(shorter);
      var s, t := trace[|trace| - 2], trace[|trace| - 1];
      assert Follows(s, t);
      var a: Action :| Enabled(s, a) && t == Next(s, a);
      NextKeepsConserved(s, a);
      NextKeepsCurrent(s, a);
    }
  }

  lemma InitialInv(s: State)
    requires Initial(s)
    ensures Inv(s)
  {
  }

  /** At every moment the newest accepted state of a member is pending, or in the detached batch, or stored (or the
      other writer has stored a newer one). */
  lemma NewestIsSomewhere(trace: seq<State>, k: Key)
    requires Run(trace) && k in trace[|trace| - 1].accepted.last
    ensures var s := trace[|trace| - 1];
            (k in s.pending && s.pending[k] == s.accepted.last[k])
            || (k in InHand(s.pc) && InHand(s.pc)[k] == s.accepted.last[k])
            || (k in s.rows && (s.rows[k] == s.accepted.last[k] || s.rows[k].revision > s.accepted.last[k].revision))
  {
    RunKeepsInv(trace);
    assert KeptIn(trace[|trace| - 1], k);
  }

  /** No step moves a stored revision back, whatever fails and is retried and whoever writes. */
  lemma StoredNeverGoesBack(trace: seq<State>, a: Action, k: Key)
    requires Run(trace) && Enabled(trace[|trace| - 1], a) && k in trace[|trace| - 1].rows
    ensures var s := trace[|trace| - 1];
            k in Next(s, a).rows && Next(s, a).rows[k].revision >= s.rows[k].revision
  {
    hide Inv, Next, Enabled;
    RunKeepsInv(trace);
    StepForward(trace[|trace| - 1], a, k);
  }

  lemma StepForward(s: State, a: Action, k: Key)
    requires Inv(s) && Enabled(s, a) && k in s.rows
    ensures k in Next(s, a).rows && Next(s, a).rows[k].revision >= s.rows[k].revision
  {
    hide Inv, Upsert, Detached, EndedWrites, PutBackAll, DetachedCurrent, InHand, Observed, WroteCurrent;
    match a
    case WriteRow(x, ok) =>
      InHandVersioned(s, x);
      UpsertForward(s.rows, s.pc.todo[x], k);
    case OtherWriter(state) => UpsertForward(s.rows, state, k);
    case _ => SamePcOrNew(s, a);
  }

  lemma UpsertForward(rows: Rows, state: NodeState, k: Key)
    requires k in rows && state.revision != 0
    ensures k in Upsert(rows, state) && Upsert(rows, state)[k].revision >= rows[k].revision
  {
  }

  lemma InHandVersioned(s: State, k: Key)
    requires Inv(s) && s.pc.Writing? && k in s.pc.todo
    ensures s.pc.todo[k].revision != 0 && KeyOf(s.pc.todo[k]) == k
  {
    assert KeptIn(s, k);
    assert Get(InHand(s.pc), k) == Some(s.pc.todo[k]);
  }

  /** A shutdown whose final writes succeed leaves every row equal to the last accepted event of its member, or newer by
      the other writer, and every group's current node as last chosen. */
  lemma ShutdownIsComplete(trace: seq<State>)
    requires Run(trace) && trace[|trace| - 1].mode.Finished? && !trace[|trace| - 1].lost
    ensures var s := trace[|trace| - 1];
            forall k :: k in s.accepted.last ==>
              k in s.rows && (s.rows[k] == s.accepted.last[k] || s.rows[k].revision > s.accepted.last[k].revision)
    ensures var s := trace[|trace| - 1];
            forall g :: g in s.chosen ==> g in s.gone || (g in s.groups && s.groups[g] == s.chosen[g])
  {
    RunKeepsInv(trace);
    var s := trace[|trace| - 1];
    forall k | k in s.accepted.last
      ensures k in s.rows && (s.rows[k] == s.accepted.last[k] || s.rows[k].revision > s.accepted.last[k].revision)
    {
      assert KeptIn(s, k);
    }
  }

  // -------------------------------------------------------------------------------------------
  // Events out of order
  // -------------------------------------------------------------------------------------------

  // A member's row is at least as new as the newest state accepted for it.
  predicate Stored(s: State, k: Key) {
    k in s.accepted.newest ==> k in s.rows && s.rows[k].revision >= s.accepted.newest[k].revision
  }

  /** The newest state accepted for a member is waiting, or in hand, or the row is at least as new. */
  predicate Survives(s: State, k: Key) {
    Stored(s, k) || Get(s.pending, k) == Get(s.accepted.newest, k) || Get(InHand(s.pc), k) == Get(s.accepted.newest, k)
  }

  predicate Accepts(s: State, a: Action, k: Key) {
    a.Observe? && !s.closed && Counts(a.event, a.isState) && KeyOf(a.event) == k
  }

  /** The two ways to lose the newest state: an older event replaces it while it is only waiting, or its write failed
      and it yields to an older event that waits already. */
  predicate Displaces(s: State, a: Action, k: Key) {
    && k in s.accepted.newest && !Stored(s, k)
    && match a
       case Observe(event, _, _, _) =>
         && Accepts(s, a, k) && event.revision < s.accepted.newest[k].revision
         && Get(s.pending, k) == Get(s.accepted.newest, k) && Get(InHand(s.pc), k) != Get(s.accepted.newest, k)
       case PutBack =>
         && Get(InHand(s.pc), k) == Get(s.accepted.newest, k)
         && k in s.pending && s.pending[k] != s.accepted.newest[k]
       case _ => false
  }

  /** The two ways to make up for a loss: an event at least as new is accepted, or the other writer stores one. */
  predicate Renews(s: State, a: Action, k: Key) {
    match a
    case Observe(event, _, _, _) => Accepts(s, a, k)
      && (k in s.accepted.newest ==> event.revision >= s.accepted.newest[k].revision)
    case OtherWriter(state) => KeyOf(state) == k && k in s.accepted.newest
      && state.revision >= s.accepted.newest[k].revision
    case _ => false
  }

  // What is waiting or in hand was accepted, so it is not newer than the newest.
  predicate Bounded(k: Key, x: Option<NodeState>, newest: Option<NodeState>) {
    && Versioned(k, newest)
    && (x.Some? ==> newest.Some? && Versioned(k, x) && x.value.revision <= newest.value.revision
                    && (x.value.revision == newest.value.revision ==> x == newest))
  }

  predicate BoundedIn(s: State, k: Key) {
    && Bounded(k, Get(s.pending, k), Get(s.accepted.newest, k))
       && Bounded(k, Get(InHand(s.pc), k), Get(s.accepted.newest, k))
    && (k in s.rows ==> s.rows[k].revision != 0 && KeyOf(s.rows[k]) == k)
  }

  ghost predicate Capped(s: State) {
    (forall k :: BoundedIn(s, k)) && (s.pc.Writing? ==> s.pc.todo.Keys !! s.pc.failed.Keys)
  }

  // What a step means for one member: whether it stays capped, and whether its newest state survives.
  ghost predicate Judged(s: State, a: Action, k: Key)
    requires Enabled(s, a)
  {
    && BoundedIn(Next(s, a), k)
    && (Survives(Next(s, a), k) <==> (Survives(s, k) && !Displaces(s, a, k)) || Renews(s, a, k))
    && !(Displaces(s, a, k) && Renews(s, a, k))
  }

  lemma ObservedGets(s: State, a: Action, k: Key)
    requires a.Observe? && Enabled(s, a)
    ensures var t := Next(s, a);
            && t.rows == s.rows && t.pc == s.pc
            && Get(t.pending, k) == (if Accepts(s, a, k) then Some(a.event) else Get(s.pending, k))
            && Get(t.accepted.newest, k) ==
               if Accepts(s, a, k) && (k in s.accepted.newest ==> s.accepted.newest[k].revision < a.event.revision)
               then Some(a.event) else Get(s.accepted.newest, k)
  {
    hide Detached, WroteRow, EndedWrites, PutBackAll, DetachedCurrent, WroteCurrent, Upsert, SameVersionSameState;
  }

  lemma ObserveJudged(s: State, a: Action, k: Key)
    requires BoundedIn(s, k) && Enabled(s, a) && a.Observe?
    ensures Judged(s, a, k)
  {
    ObservedGets(s, a, k);
    var t := Next(s, a);
    assert k in t.accepted.newest <==> Get(t.accepted.newest, k).Some?;
    hide Next, InHand;
  }

  lemma OtherJudged(s: State, a: Action, k: Key)
    requires BoundedIn(s, k) && Enabled(s, a) && a.OtherWriter?
    ensures Judged(s, a, k)
  {
  }

  lemma WriteJudged(s: State, a: Action, k: Key)
    requires BoundedIn(s, k) && Enabled(s, a) && a.WriteRow? && BoundedIn(s, a.k) && s.pc.todo.Keys !! s.pc.failed.Keys
    ensures Judged(s, a, k)
  {
    hide Upsert, InHand, WroteRow, Observed, Detached, EndedWrites, PutBackAll, DetachedCurrent, WroteCurrent;
    WroteGets(s, a.k, a.ok, k);
    GetUpsert(s.rows, s.pc.todo[a.k], k);
    assert Next(s, a) == WroteRow(s, a.k, a.ok) && Next(s, a).accepted.newest == s.accepted.newest;
    assert k in Next(s, a).rows <==> Get(Next(s, a).rows, k).Some?;
    hide Next;
  }

  lemma PutBackJudged(s: State, a: Action, k: Key)
    requires BoundedIn(s, k) && Enabled(s, a) && a.PutBack?
    ensures Judged(s, a, k)
  {
  }

  lemma BatchJudged(s: State, a: Action, k: Key)
    requires BoundedIn(s, k) && Enabled(s, a) && (a.Detach? || a.EndWrites?)
    ensures Judged(s, a, k)
  {
  }

  // Steps that touch no member.
  lemma OtherwiseJudged(s: State, a: Action, k: Key)
    requires BoundedIn(s, k) && Enabled(s, a)
    requires a.DetachCurrent? || a.WriteCurrent? || a.EndFlush? || a.Close? || a.WorkerExits? || a.Finish?
    ensures Judged(s, a, k)
  {
    MembersUntouched(s, a);
    hide Next, InHand;
  }

  lemma MembersUntouched(s: State, a: Action)
    requires Enabled(s, a)
    requires a.DetachCurrent? || a.WriteCurrent? || a.EndFlush? || a.Close? || a.WorkerExits? || a.Finish?
    ensures var t := Next(s, a);
            t.pending == s.pending && InHand(t.pc) == InHand(s.pc) && t.rows == s.rows && t.accepted == s.accepted
  {
    hide Observed, Detached, WroteRow, EndedWrites, PutBackAll, DetachedCurrent, WroteCurrent, Upsert;
    match a
    case DetachCurrent => DetachUntouched(s);
    case WriteCurrent(g, w) => FlushUntouched(s, g, w);
    case _ =>
  }

  lemma DetachUntouched(s: State)
    requires s.pc.Idle?
    ensures var t := DetachedCurrent(s);
            t.pending == s.pending && InHand(t.pc) == InHand(s.pc) && t.accepted == s.accepted
  {
  }

  lemma FlushUntouched(s: State, g: int, w: Write)
    requires s.pc.Flushing? && g in s.pc.nodes
    ensures var t := WroteCurrent(s, g, w);
            t.pending == s.pending && InHand(t.pc) == InHand(s.pc) && t.accepted == s.accepted
  {
  }

  /** Each step, exactly: the newest state survives it iff it survived before and is not displaced, or is renewed. */
  lemma StepJudged(s: State, a: Action, k: Key)
    requires Capped(s) && Enabled(s, a)
    ensures Judged(s, a, k)
  {
    hide Judged, BoundedIn, Enabled;
    assert BoundedIn(s, k);
    match a
    case Observe(_, _, _, _) => ObserveJudged(s, a, k);
    case OtherWriter(_) => OtherJudged(s, a, k);
    case WriteRow(x, _) => WritingJudged(s, a, k);
    case PutBack => PutBackJudged(s, a, k);
    case Detach => BatchJudged(s, a, k);
    case EndWrites => BatchJudged(s, a, k);
    case _ => OtherwiseJudged(s, a, k);
  }

  lemma WritingJudged(s: State, a: Action, k: Key)
    requires Capped(s) && Enabled(s, a) && a.WriteRow?
    ensures Judged(s, a, k)
  {
    hide Judged, BoundedIn;
    assert BoundedIn(s, k) && BoundedIn(s, a.k);
    WriteJudged(s, a, k);
  }

  lemma StepKeepsCapped(s: State, a: Action)
    requires Capped(s) && Enabled(s, a)
    ensures Capped(Next(s, a))
  {
    hide BoundedIn, Next, Enabled, Survives, Displaces, Renews;
    NextKeepsDisjoint(s, a);
    forall k ensures BoundedIn(Next(s, a), k) {
      StepJudged(s, a, k);
    }
  }

  /** A run with the actions it took. */
  ghost predicate Took(trace: seq<State>, acts: seq<Action>) {
    && |trace| == |acts| + 1 && Initial(trace[0])
    && forall i :: 0 <= i < |acts| ==> Enabled(trace[i], acts[i]) && trace[i + 1] == Next(trace[i], acts[i])
  }

  // Every displacement in the first `n` steps was made up for by a later renewal.
  ghost predicate MadeUp(trace: seq<State>, acts: seq<Action>, k: Key, n: nat)
    requires n <= |acts| < |trace|
  {
    forall j :: 0 <= j < n && Displaces(trace[j], acts[j], k) ==> exists i :: j < i < n && Renews(trace[i], acts[i], k)
  }

  /** Over whole runs, with events in any order and batches in hand: the newest accepted state survives if and only if
      no event or retry displaced it without a later one making up for it. */
  lemma {:induction false} NewestSurvivesIff(trace: seq<State>, acts: seq<Action>, k: Key, n: nat)
    requires Took(trace, acts) && n <= |acts|
    ensures Capped(trace[n])
    ensures Survives(trace[n], k) <==> MadeUp(trace, acts, k, n)
  {
    hide Enabled, Next, Survives, Displaces, Renews, BoundedIn, Initial, MadeUp;
    if n == 0 {
      InitialCapped(trace[0], k);
      assert MadeUp(trace, acts, k, 0) by { NothingDisplaced(trace, acts, k); }
    } else {
      NewestSurvivesIff(trace, acts, k, n - 1);
      assert Enabled(trace[n - 1], acts[n - 1]) && trace[n - 1 + 1] == Next(trace[n - 1], acts[n - 1]);
      StepKeepsCapped(trace[n - 1], acts[n - 1]);
      StepJudged(trace[n - 1], acts[n - 1], k);
      MadeUpStep(trace, acts, k, n - 1);
    }
  }

  lemma InitialCapped(s: State, k: Key)
    requires Initial(s)
    ensures Capped(s) && Survives(s, k)
  {
  }

  lemma NothingDisplaced(trace: seq<State>, acts: seq<Action>, k: Key)
    requires |acts| < |trace|
    ensures MadeUp(trace, acts, k, 0)
  {
  }

  lemma MadeUpStep(trace: seq<State>, acts: seq<Action>, k: Key, n: nat)
    requires n < |acts| < |trace| && !(Displaces(trace[n], acts[n], k) && Renews(trace[n], acts[n], k))
    ensures MadeUp(trace, acts, k, n + 1) <==>
              (MadeUp(trace, acts, k, n) && !Displaces(trace[n], acts[n], k)) || Renews(trace[n], acts[n], k)
  {
    hide Displaces, Renews;
  }

  /** What is on disk in the end: after a shutdown whose final writes succeed, a row is at least as new as the newest
      accepted state of its member if and only if every displacement was made up for. */
  lemma ShutdownStoresNewestIff(trace: seq<State>, acts: seq<Action>, k: Key)
    requires Took(trace, acts) && trace[|acts|].mode.Finished? && !trace[|acts|].lost
    ensures Stored(trace[|acts|], k) <==> MadeUp(trace, acts, k, |acts|)
  {
    NewestSurvivesIff(trace, acts, k, |acts|);
    hide MadeUp, Next, Enabled;
    assert Run(trace) by {
      forall i | 0 < i < |trace| ensures Follows(trace[i - 1], trace[i]) {
        assert Enabled(trace[i - 1], acts[i - 1]) && trace[i - 1 + 1] == Next(trace[i - 1], acts[i - 1]);
      }
    }
    RunKeepsInv(trace);
    var s := trace[|acts|];
    assert s.pending == map[] && InHand(s.pc) == map[];
  }

  /** One drain: an event observed while no batch is in hand, and the pending states all written.  The row is then at
      least as new as every state accepted if and only if nothing newer than the event was waiting, or the row held the
      newest one already. */
  lemma DrainStoresNewestIff(s: State, event: NodeState, isCurrent: bool, node: int, rows: Rows)
    requires Capped(s) && s.pc.Idle? && !s.closed && Survives(s, KeyOf(event))
    requires Counts(event, true) && Enabled(s, Observe(event, true, isCurrent, node))
    requires var t := Observed(s, event, true, isCurrent, node); WrittenExcept(t.rows, rows, t.pending, {})
    ensures var k := KeyOf(event);
            Stored(Observed(s, event, true, isCurrent, node).(rows := rows), k) <==>
              (k in s.pending ==> s.pending[k].revision <= event.revision) || (k in s.accepted.newest && Stored(s, k))
  {
    var k := KeyOf(event);
    var t := Observed(s, event, true, isCurrent, node);
    assert BoundedIn(s, k) && t.pending[k] == event;
    GetUpsert(t.rows, event, k);
    assert Get(rows, k) == Get(Upsert(t.rows, event), k);
  }

  // -------------------------------------------------------------------------------------------
  // The object
  // -------------------------------------------------------------------------------------------

  /** One state leads to the other by steps of the protocol. */
  ghost predicate Steps(s: State, t: State) {
    exists trace: seq<State> :: Path(s, trace, t)
  }

  ghost predicate Path(s: State, trace: seq<State>, t: State) {
    |trace| > 0 && trace[0] == s && trace[|trace| - 1] == t && forall i :: 0 < i < |trace| ==>
        Follows(trace[i - 1], trace[i])
  }

  lemma StepsNone(s: State)
    ensures Steps(s, s)
  {
    assert Path(s, [s], s);
  }

  lemma ThenStep(s: State, t: State, a: Action)
    requires Steps(s, t) && Enabled(t, a)
    ensures Steps(s, Next(t, a))
  {
    hide Enabled, Next;
    var trace: seq<State> :| Path(s, trace, t);
    var longer := trace + [Next(t, a)];
    assert forall i :: 0 < i < |trace| ==> Follows(longer[i - 1], longer[i]);
    assert Follows(t, Next(t, a));
    assert Path(s, longer, Next(t, a));
  }

  lemma StepsJoin(s: State, t: State, u: State)
    requires Steps(s, t) && Steps(t, u)
    ensures Steps(s, u)
  {
    hide Follows;
    var a: seq<State> :| Path(s, a, t);
    var b: seq<State> :| Path(t, b, u);
    var c := a + b[1..];
    forall i | 0 < i < |c| ensures Follows(c[i - 1], c[i]) {
      if i >= |a| {
        assert c[i] == b[i - |a| + 1] && c[i - 1] == b[i - |a|];
      }
    }
    assert Path(s, c, u);
  }

  // The part of a batch that failed.
  function Only(rows: Rows, keys: set<Key>): Rows {
    map k | k in rows && k in keys :: rows[k]
  }

  function Part(nodes: map<int, int>, keys: set<int>): map<int, int> {
    map g | g in nodes && g in keys :: nodes[g]
  }

  predicate UnderOwnKeys(rows: Rows) {
    forall k :: k in rows ==> KeyOf(rows[k]) == k
  }

  /** The rows after a batch was written, except for the members whose write failed. */
  ghost predicate WrittenExcept(before: Rows, after: Rows, batch: Rows, failing: set<Key>) {
    forall k :: Get(after, k) == if k in batch && k !in failing then Get(Upsert(before, batch[k]), k)
        else Get(before, k)
  }

  lemma WrittenMore(before: Rows, after: Rows, batch: Rows, left: set<Key>, failing: set<Key>, k: Key)
    requires UnderOwnKeys(batch) && left <= batch.Keys && k in left && k !in failing
    requires WrittenExcept(before, after, batch, failing + left)
    ensures WrittenExcept(before, Upsert(after, batch[k]), batch, failing + (left - {k}))
  {
  }

  lemma OnlyLess(batch: Rows, left: set<Key>, failing: set<Key>, k: Key)
    requires left <= batch.Keys && k in left
    ensures k in Only(batch, left) && Only(batch, left)[k] == batch[k]
    ensures Only(batch, left) - {k} == Only(batch, left - {k})
    ensures k in failing ==> Only(batch, failing - (left - {k})) == Only(batch, failing - left)[k := batch[k]]
    ensures k !in failing ==> Only(batch, failing - (left - {k})) == Only(batch, failing - left)
    ensures k in failing ==> failing + left == failing + (left - {k})
  {
  }

  lemma AfterWrites(first: State, s: State)
    requires Steps(first, s) && s.pc.Writing? && s.pc.todo == map[]
    ensures Steps(first, if s.pc.failed == map[] then s.(pc := Idle)
            else s.(pending := s.pc.failed + s.pending, pc := Idle))
  {
    hide Steps;
    ThenStep(first, s, EndWrites);
    if s.pc.failed != map[] {
      ThenStep(first, EndedWrites(s), PutBack);
    }
  }

  lemma ThenFlush(s: State, t: State, g: int, w: Write)
    requires Steps(s, t) && t.pc.Flushing? && g in t.pc.nodes
    ensures Steps(s, WroteCurrent(t, g, w))
  {
    hide Steps, Upsert, WroteCurrent;
    ThenStep(s, t, WriteCurrent(g, w));
  }

  lemma ThenWrite(s: State, t: State, k: Key, ok: bool)
    requires Steps(s, t) && t.pc.Writing? && k in t.pc.todo
    ensures Steps(s, WroteRow(t, k, ok))
  {
    hide Steps, Upsert, WroteRow;
    ThenStep(s, t, WriteRow(k, ok));
  }

  class Persister {
    var pending: Rows
    var current: map<int, int>
    var closed: bool
    var rows: Rows
    var groups: map<int, int>
    ghost var accepted: Accepted
    ghost var chosen: map<int, int>
    ghost var lost: bool
    ghost var gone: set<int>

    ghost function At(mode: Mode, pc: Pc): State
      reads this
    {
      State(pending, current, closed, mode, pc, rows, groups, accepted, chosen, lost, gone)
    }

    /** Observe: the last event wins for a member, nothing is refused while open. */
    method Observe(event: NodeState, isState: bool, isCurrent: bool, node: int, ghost mode: Mode, ghost pc: Pc)
      requires Enabled(At(mode, pc), Action.Observe(event, isState, isCurrent, node))
      modifies this
      ensures At(mode, pc) == Next(old(At(mode, pc)), Action.Observe(event, isState, isCurrent, node))
      ensures pending == (if !closed && isState && event.nodeId != 0
                          then old(pending)[Key(event.groupId, event.nodeId) := event] else old(pending))
      ensures !closed && isCurrent ==>
                current == old(current)[event.groupId := node] && chosen == old(chosen)[event.groupId := node]
      ensures closed || !isCurrent ==> current == old(current) && chosen == old(chosen)
    {
      if closed {
        return;
      }
      if isState && event.nodeId != 0 {
        pending := pending[KeyOf(event) := event];
        accepted := Accept(accepted, event);
      }
      if isCurrent {
        current := current[event.groupId := node];
        chosen := chosen[event.groupId := node];
        gone := gone - {event.groupId};
      }
    }

    /** drainStates: `failing` are the members whose write fails this time. Every other pending state is written, unless
        a newer row is stored, and the failed ones are pending again. */
    method DrainStates(failing: set<Key>, ghost mode: Mode)
      requires UnderOwnKeys(pending) && (mode.Running? || mode.FinalStates?)
      modifies this
      ensures pending == Only(old(pending), failing)
      ensures WrittenExcept(old(rows), rows, old(pending), failing)
      ensures current == old(current) && closed == old(closed)
      ensures Steps(old(At(mode, Idle)), At(if mode.FinalStates? then FinalCurrent else mode, Idle))
    {
      hide Steps, Upsert, WrittenExcept, Only, Observed, WroteRow, WroteCurrent, DetachedCurrent, EndedWrites,
        PutBackAll;
      ghost var first := At(mode, Idle);
      ghost var after := if mode.FinalStates? then FinalCurrent else mode;
      StepsNone(first);
      ThenStep(first, first, Detach);
      var batch := pending;
      pending := map[];
      BatchStarts(rows, batch, failing);
      if batch == map[] {
        return;
      }
      var failed := WriteBatch(batch, failing, after, first);
      AfterWrites(first, At(after, Writing(map[], failed)));
      if failed == map[] {
        return;
      }
      RequeueAll(failed);
      assert failed + map[] == failed;
    }

    // The writes of one detached batch.
    method WriteBatch(batch: Rows, failing: set<Key>, ghost mode: Mode, ghost first: State) returns (failed: Rows)
      requires UnderOwnKeys(batch) && pending == map[]
      requires Steps(first, At(mode, Writing(batch, map[])))
      modifies this`rows, this`lost
      ensures failed == Only(batch, failing)
      ensures WrittenExcept(old(rows), rows, batch, failing)
      ensures Steps(first, At(mode, Writing(map[], failed)))
    {
      hide Steps, Upsert, WrittenExcept, Only, Follows;
      BatchStarts(rows, batch, failing);
      var left := batch.Keys;
      failed := map[];
      while left != {}
        invariant left <= batch.Keys && failed == Only(batch, failing - left)
        invariant WrittenExcept(old(rows), rows, batch, failing + left)
        invariant Steps(first, At(mode, Writing(Only(batch, left), failed)))
      {
        var k := Pick(left);
        OnlyLess(batch, left, failing, k);
        ThenWrite(first, At(mode, Writing(Only(batch, left), failed)), k, k !in failing);
        if k !in failing {
          WrittenMore(old(rows), rows, batch, left, failing, k);
          rows := Upsert(rows, batch[k]);
        } else {
          failed := failed[k := batch[k]];
          lost := lost || !mode.Running?;
        }
        left := left - {k};
      }
      BatchEnds(batch, failing);
    }

    // One group's current node; a failed write is kept for later unless a newer node was chosen.
    method WriteNode(g: int, node: int, w: Write, ghost nodes: map<int, int>, ghost mode: Mode)
      requires g in nodes && nodes[g] == node
      modifies this`current, this`groups, this`gone, this`lost
      ensures At(mode, Flushing(nodes - {g})) == WroteCurrent(old(At(mode, Flushing(nodes))), g, w)
      ensures current == if w.Broken? && g !in old(current) then old(current)[g := node] else old(current)
    {
      match w
      case Written => groups := groups[g := node];
      case NotFound =>
        if g !in current {
          gone := gone + {g};
        }
      case Broken =>
        if g !in current {
          current := current[g := node];
        }
        lost := lost || !mode.Running?;
    }

    /** flushCurrent: `broken` are the groups whose write fails this time, `missing` those that no longer exist. A
        failed node is written next time unless a newer one was chosen. */
    method FlushCurrent(missing: set<int>, broken: set<int>, ghost mode: Mode, ghost first: State)
      requires mode.Running? || mode.FinalCurrent?
      requires Steps(first, At(mode, Idle))
      modifies this`current, this`groups, this`gone, this`lost
      ensures current == Part(old(current), broken - missing)
      ensures Steps(first, At(if mode.FinalCurrent? then FinalDone else mode, Idle))
    {
      hide Steps, Observed, WroteRow, WroteCurrent, Detached, EndedWrites, PutBackAll, Upsert,
        SameVersionSameState, Part;
      ThenStep(first, At(mode, Idle), DetachCurrent);
      ghost var after := if mode.FinalCurrent? then FinalDone else mode;
      var batch := current;
      current := map[];
      PartEnds(batch, broken - missing);
      var left := batch.Keys;
      while left != {}
        invariant left <= batch.Keys && current == Part(batch, (broken - missing) - left)
        invariant Steps(first, At(after, Flushing(Part(batch, left))))
      {
        var g := Pick(left);
        var w := if g in missing then NotFound else if g in broken then Broken else Written;
        PartLess(batch, left, broken - missing, g);
        ThenFlush(first, At(after, Flushing(Part(batch, left))), g, w);
        WriteNode(g, batch[g], w, Part(batch, left), after);
        left := left - {g};
      }
      ThenStep(first, At(after, Flushing(map[])), EndFlush);
    }

    /** Shutdown once the worker has stopped: nothing more is accepted, and what the last writes store is complete. */
    method Shutdown(failing: set<Key>, missing: set<int>, broken: set<int>)
      requires UnderOwnKeys(pending)
      modifies this
      ensures closed && Steps(old(At(Running, Idle)), At(Finished, Idle))
      ensures failing == {} && broken == {} ==> pending == map[] && current == map[]
      ensures WrittenExcept(old(rows), rows, old(pending), failing)
    {
      hide Steps, Upsert, WrittenExcept, Detached, DetachedCurrent, EndedWrites, PutBackAll, WroteRow, WroteCurrent;
      ghost var first := At(Running, Idle);
      StepsNone(first);
      ThenStep(first, first, Close);
      closed := true;
      ThenStep(first, At(Running, Idle), WorkerExits);
      ghost var second := At(FinalStates, Idle);
      DrainStates(failing, FinalStates);
      StepsJoin(first, second, At(FinalCurrent, Idle));
      FlushCurrent(missing, broken, FinalCurrent, first);
      ThenStep(first, At(FinalDone, Idle), Finish);
    }

    // A newer event queued meanwhile supersedes the retry.
    method RequeueAll(failed: Rows)
      modifies this`pending
      ensures pending == failed + old(pending)
    {
      var left := failed.Keys;
      while left != {}
        invariant left <= failed.Keys
        invariant pending == Only(failed, failed.Keys - left) + old(pending)
      {
        var k := Pick(left);
        if k !in pending {
          pending := pending[k := failed[k]];
        }
        left := left - {k};
      }
      assert Only(failed, failed.Keys) == failed;
    }
  }

  lemma PartLess(nodes: map<int, int>, left: set<int>, kept: set<int>, g: int)
    requires left <= nodes.Keys && g in left
    ensures g in Part(nodes, left) && Part(nodes, left)[g] == nodes[g]
            && Part(nodes, left) - {g} == Part(nodes, left - {g})
    ensures g !in Part(nodes, kept - left)
    ensures Part(nodes, kept - (left - {g})) ==
            if g in kept then Part(nodes, kept - left)[g := nodes[g]] else Part(nodes, kept - left)
  {
  }

  lemma PartEnds(nodes: map<int, int>, kept: set<int>)
    ensures Part(nodes, nodes.Keys) == nodes && Part(nodes, kept - nodes.Keys) == map[]
    ensures Part(nodes, {}) == map[] && kept - {} == kept
  {
  }

  lemma BatchStarts(rows: Rows, batch: Rows, failing: set<Key>)
    ensures WrittenExcept(rows, rows, batch, failing + batch.Keys) && Only(batch, batch.Keys) == batch
    ensures Only(batch, failing - batch.Keys) == map[]
    ensures batch == map[] ==> WrittenExcept(rows, rows, batch, failing) && Only(batch, failing) == map[]
  {
  }

  lemma BatchEnds(batch: Rows, failing: set<Key>)
    ensures Only(batch, {}) == map[] && failing - {} == failing && failing + {} == failing
  {
  }
}
