/** The group runtimes of one process: their members, the global eviction marks, and the revision clock.

    Eviction and recovery are facts about a node, so every operation that evicts or readmits a member in
    one group carries the change to every group holding that node.  `World` is the state as a value, the
    predicates below it specify each operation.  The order in which a loop of the source visits a map is
    left open. */
module GroupWorld {
  import opened Basics
  import opened FailureWindow
  import opened ProbeRing
  import opened GroupMember

  /** Persisted state a member starts from. */
  datatype Initial = Initial(standby: bool, nodeId: int, history: seq<int>, evicted: bool, lastError: string,
                             evictedAt: Option<int>, revision: int)

  datatype Runtime = Runtime(id: int, window: int, threshold: int, policy: Policy, currentTag: Tag,
                             members: map<Tag, Member>)

  /** A change of durable member state announced to the observers. */
  datatype StateEvent = StateEvent(groupId: int, nodeId: int, history: seq<int>, evicted: bool,
                                   lastError: string, evictedAt: Option<int>, revision: int)

  // A revision handed out: taken anew from the clock, or read back from persisted state.
  datatype Stamp = Issued(revision: int) | Restored(revision: int)

  // `stamps` records the revisions in the order in which they were handed out.
  datatype World = World(groups: map<int, Runtime>, marks: set<int>, clock: nat, events: seq<StateEvent>,
                         stamps: seq<Stamp>)

  const DEFAULT_WINDOW := 300 * SECOND
  const DEFAULT_THRESHOLD := 3

  function EventOf(g: int, m: Member): StateEvent {
    StateEvent(g, m.nodeId, m.history, m.evicted, m.lastError, m.evictedAt, m.revision)
  }

  function Max(a: int, b: int): int {
    if a >= b then a else b
  }

  // -------------------------------------------------------------------------------------------
  // Shape and frame
  // -------------------------------------------------------------------------------------------

  ghost predicate OneTagPerNode(members: map<Tag, Member>) {
    forall s, t :: s in members && t in members && members[s].nodeId == members[t].nodeId ==> s == t
  }

  ghost predicate RuntimeShape(g: int, r: Runtime) {
    && r.id == g != 0
    && OneTagPerNode(r.members)
    && forall t :: t in r.members ==> r.members[t].tag == t && r.members[t].nodeId != 0
  }

  ghost predicate Shape(w: World) {
    forall g :: g in w.groups ==> RuntimeShape(g, w.groups[g])
  }

  predicate Holds(w: World, g: int, t: Tag) {
    g in w.groups && t in w.groups[g].members
  }

  // Updates name each node once and never node 0.
  ghost predicate Distinct(members: map<Tag, Initial>) {
    && (forall t :: t in members ==> members[t].nodeId != 0)
    && (forall s, t :: s in members && t in members && members[s].nodeId == members[t].nodeId ==> s == t)
  }

  ghost predicate SameKey(a: StateEvent, b: StateEvent) {
    a.groupId == b.groupId && a.nodeId == b.nodeId
  }

  /** Announcements of one operation: stamped after `lo`, each with a revision of its own, and at most one for
      each group and node. */
  ghost predicate FreshEvents(evs: seq<StateEvent>, lo: int, hi: int) {
    && (forall i :: 0 <= i < |evs| ==> lo < evs[i].revision <= hi)
    && (forall i, j :: 0 <= i < j < |evs| ==> !SameKey(evs[i], evs[j]) && evs[i].revision != evs[j].revision)
  }

  /** Every revision issued is above `lo` and above all that were issued or restored before it. */
  ghost predicate Outranks(stamps: seq<Stamp>, lo: int, hi: int) {
    && (forall i :: 0 <= i < |stamps| ==> stamps[i].revision <= hi && (stamps[i].Issued? ==> lo < stamps[i].revision))
    && (forall i, j :: 0 <= i < j < |stamps| && stamps[j].Issued? ==> stamps[i].revision < stamps[j].revision)
  }

  lemma OutranksConcat(a: seq<Stamp>, b: seq<Stamp>, lo: int, mid: int, hi: int)
    requires Outranks(a, lo, mid) && Outranks(b, mid, hi) && lo <= mid <= hi
    ensures Outranks(a + b, lo, hi)
  {
  }

  // The revisions of a list of announcements, issued in that order.
  function IssuedFor(evs: seq<StateEvent>): seq<Stamp> {
    seq(|evs|, i requires 0 <= i < |evs| => Issued(evs[i].revision))
  }

  function NewStamps(w: World, w': World): seq<Stamp>
    requires |w.stamps| <= |w'.stamps|
  {
    w'.stamps[|w.stamps|..]
  }

  lemma LaterStamps(w: World, mid: World, w': World)
    requires w.stamps <= mid.stamps <= w'.stamps
    ensures NewStamps(w, w') == NewStamps(w, mid) + NewStamps(mid, w')
  {
  }

  function NewEvents(w: World, w': World): seq<StateEvent>
    requires |w.events| <= |w'.events|
  {
    w'.events[|w.events|..]
  }

  /** The clock never runs back, announcements are only added, and what is issued outranks all before it. */
  ghost predicate Advances(w: World, w': World) {
    && w.clock <= w'.clock
    && w.events <= w'.events
    && w.stamps <= w'.stamps
    && Outranks(NewStamps(w, w'), w.clock, w'.clock)
  }

  lemma AdvancesFurther(w: World, mid: World, w': World)
    requires Advances(w, mid) && Advances(mid, w')
    ensures Advances(w, w')
  {
    LaterStamps(w, mid, w');
    OutranksConcat(NewStamps(w, mid), NewStamps(mid, w'), w.clock, mid.clock, w'.clock);
  }

  /** Group `g` becomes `r`, and one change of its members is stamped and announced. */
  function Announced(w: World, g: int, r: Runtime, e: StateEvent): World {
    World(w.groups[g := r], w.marks, w.clock + 1, w.events + [e], w.stamps + [Issued(w.clock + 1)])
  }

  lemma AnnouncedAdvances(w: World, mid: World, g: int, r: Runtime, e: StateEvent)
    requires Advances(w, mid)
    ensures Advances(w, Announced(mid, g, r, e))
  {
    var after := Announced(mid, g, r, e);
    assert NewStamps(mid, after) == [Issued(mid.clock + 1)];
    assert Advances(mid, after);
    AdvancesFurther(w, mid, after);
  }

  // The operation announced exactly what it stamped, in that order.
  ghost predicate StampsAnnounced(w: World, w': World) {
    w.events <= w'.events && w'.stamps == w.stamps + IssuedFor(NewEvents(w, w'))
  }

  lemma AnnouncedWereIssued(w: World, w': World)
    requires StampsAnnounced(w, w')
    ensures w.stamps <= w'.stamps
    ensures forall i :: 0 <= i < |NewEvents(w, w')| ==> Issued(NewEvents(w, w')[i].revision) in NewStamps(w, w')
  {
    var evs := NewEvents(w, w');
    assert NewStamps(w, w') == IssuedFor(evs);
    assert forall i :: 0 <= i < |evs| ==> IssuedFor(evs)[i] == Issued(evs[i].revision);
  }

  lemma StampsAnnouncedFurther(w: World, mid: World, w': World)
    requires StampsAnnounced(w, mid) && StampsAnnounced(mid, w')
    ensures StampsAnnounced(w, w')
  {
    var a, b := NewEvents(w, mid), NewEvents(mid, w');
    assert NewEvents(w, w') == a + b;
    assert IssuedFor(a + b) == IssuedFor(a) + IssuedFor(b);
  }

  lemma AnnouncedIsStamped(w: World, mid: World, g: int, r: Runtime, e: StateEvent)
    requires StampsAnnounced(w, mid) && e.revision == mid.clock + 1
    ensures StampsAnnounced(w, Announced(mid, g, r, e))
  {
    var after := Announced(mid, g, r, e);
    assert NewEvents(mid, after) == [e];
    StampsAnnouncedFurther(w, mid, after);
  }

  // -------------------------------------------------------------------------------------------
  // Propagation of evictions and recoveries
  // -------------------------------------------------------------------------------------------

  datatype Source = Source(at: int, err: string)

  predicate Struck(m: Member, src: map<int, Source>) {
    !m.evicted && m.nodeId in src
  }

  // `m'` is `m` evicted on behalf of its node, stamped in (lo, hi].
  predicate StruckTo(m: Member, m': Member, src: map<int, Source>, lo: int, hi: int) {
    if Struck(m, src) then
      && m' == OnPropagatedEviction(m, src[m.nodeId].at, src[m.nodeId].err, m'.revision)
      && lo < m'.revision <= hi
    else m' == m
  }

  ghost predicate EvictedIn(r: Runtime, r': Runtime, src: map<int, Source>, lo: int, hi: int) {
    && r' == r.(members := r'.members, currentTag := r'.currentTag)
    && r'.members.Keys == r.members.Keys
    && (forall t :: t in r.members ==> StruckTo(r.members[t], r'.members[t], src, lo, hi))
    && r'.currentTag == if r.currentTag in r.members && Struck(r.members[r.currentTag], src) then ""
                        else r.currentTag
  }

  /** Every member of every group whose node is a source is evicted afterwards, and nothing else changes. */
  ghost predicate Propagated(w: World, w': World, src: map<int, Source>) {
    PropagatedBut(w, w', src, {})
  }

  // The same while the groups in `todo` are still to be visited.
  ghost predicate PropagatedBut(w: World, w': World, src: map<int, Source>, todo: set<int>) {
    && Advances(w, w')
    && w'.marks == w.marks
    && w'.groups.Keys == w.groups.Keys
    && (forall g :: g in w.groups ==>
          if g in todo then w'.groups[g] == w.groups[g]
          else EvictedIn(w.groups[g], w'.groups[g], src, w.clock, w'.clock))
    && AnnouncesStruck(w, w', src, todo)
  }

  // The new announcements are exactly the members struck, each once and with the revision it was stamped with.
  ghost predicate AnnouncesStruck(w: World, w': World, src: map<int, Source>, todo: set<int>)
    requires w.events <= w'.events && w'.groups.Keys == w.groups.Keys
  {
    var evs := NewEvents(w, w');
    && FreshEvents(evs, w.clock, w'.clock)
    && StampsAnnounced(w, w')
    && (forall i :: 0 <= i < |evs| ==> evs[i].groupId !in todo && IsStrike(w, w', src, evs[i]))
    && (forall g, t :: g in w.groups && g !in todo && t in w.groups[g].members && t in w'.groups[g].members
                       && Struck(w.groups[g].members[t], src) ==>
          EventOf(g, w'.groups[g].members[t]) in evs)
  }

  // The announcement is that of a member struck.
  ghost predicate IsStrike(w: World, w': World, src: map<int, Source>, e: StateEvent) {
    exists t :: Holds(w, e.groupId, t) && Holds(w', e.groupId, t) && Struck(w.groups[e.groupId].members[t], src)
                && e == EventOf(e.groupId, w'.groups[e.groupId].members[t])
  }

  /** One group with its member `t` evicted. */
  function Strike(r: Runtime, t: Tag, at: int, err: string, stamp: int): Runtime
    requires t in r.members
  {
    r.(members := r.members[t := OnPropagatedEviction(r.members[t], at, err, stamp)],
       currentTag := if r.currentTag == r.members[t].tag then "" else r.currentTag)
  }

  lemma StrikeEvicts(g: int, r: Runtime, t: Tag, n: int, s: Source, lo: int, stamp: int)
    requires RuntimeShape(g, r) && t in r.members && Struck(r.members[t], map[n := s])
    requires lo < stamp
    ensures RuntimeShape(g, Strike(r, t, s.at, s.err, stamp))
    ensures EvictedIn(r, Strike(r, t, s.at, s.err, stamp), map[n := s], lo, stamp)
  {
  }

  lemma StartPropagation(w: World, src: map<int, Source>)
    ensures PropagatedBut(w, w, src, w.groups.Keys)
  {
    NothingStamped(w);
  }

  lemma NothingStamped(w: World)
    ensures NewEvents(w, w) == [] && NewStamps(w, w) == [] && StampsAnnounced(w, w) && Advances(w, w)
  {
    assert w.stamps + IssuedFor([]) == w.stamps;
  }

  lemma Unvisited(w: World, mid: World, src: map<int, Source>, todo: set<int>, g: int)
    requires Shape(w) && PropagatedBut(w, mid, src, todo) && g in todo && todo <= w.groups.Keys
    ensures mid.groups.Keys == w.groups.Keys && mid.groups[g] == w.groups[g] && RuntimeShape(g, mid.groups[g])
  {
  }

  lemma EndPropagation(w: World, w': World, src: map<int, Source>)
    requires PropagatedBut(w, w', src, {})
    ensures Propagated(w, w', src)
  {
  }

  /** One group visited: nothing, or the one member of the node that was not evicted yet. */
  ghost predicate GroupStruck(w: World, w': World, g: int, n: int, s: Source, hit: Option<Tag>)
    requires g in w.groups
  {
    var r := w.groups[g];
    match hit
    case None => w' == w && forall t :: t in r.members ==> !Struck(r.members[t], map[n := s])
    case Some(t) =>
      && t in r.members && Struck(r.members[t], map[n := s])
      && var r' := Strike(r, t, s.at, s.err, w.clock + 1);
         w' == Announced(w, g, r', EventOf(g, r'.members[t]))
  }

  lemma Visit(w: World, mid: World, after: World, n: int, s: Source, todo: set<int>, g: int, hit: Option<Tag>)
    requires Shape(w) && g in todo && todo <= w.groups.Keys && mid.groups.Keys == w.groups.Keys
    requires PropagatedBut(w, mid, map[n := s], todo) && GroupStruck(mid, after, g, n, s, hit)
    ensures after.groups.Keys == w.groups.Keys
    ensures PropagatedBut(w, after, map[n := s], todo - {g})
  {
    if hit.Some? {
      VisitStruck(w, mid, n, s, todo, g, hit.value);
    }
  }

  lemma LaterBound(r: Runtime, r': Runtime, src: map<int, Source>, lo: int, hi: int, hi': int)
    requires EvictedIn(r, r', src, lo, hi) && hi <= hi'
    ensures EvictedIn(r, r', src, lo, hi')
  {
  }

  lemma VisitStruck(w: World, mid: World, n: int, s: Source, todo: set<int>, g: int, t: Tag)
    requires Shape(w)
    requires PropagatedBut(w, mid, map[n := s], todo) && g in todo && g in w.groups
    requires t in w.groups[g].members && Struck(w.groups[g].members[t], map[n := s])
    ensures var r := Strike(mid.groups[g], t, s.at, s.err, mid.clock + 1);
            PropagatedBut(w, Announced(mid, g, r, EventOf(g, r.members[t])), map[n := s], todo - {g})
  {
    hide AnnouncesStruck, EvictedIn, RuntimeShape, Advances;
    var src := map[n := s];
    var r := Strike(mid.groups[g], t, s.at, s.err, mid.clock + 1);
    var e := EventOf(g, r.members[t]);
    var after := Announced(mid, g, r, e);
    AdvancesFacts(w, mid);
    AnnouncedAdvances(w, mid, g, r, e);
    AdvancesFacts(w, after);
    StrikeEvicts(g, w.groups[g], t, n, s, w.clock, after.clock);
    forall h | h in w.groups && h !in todo
      ensures EvictedIn(w.groups[h], after.groups[h], src, w.clock, after.clock)
    {
      LaterBound(w.groups[h], mid.groups[h], src, w.clock, mid.clock, after.clock);
    }
    AnnounceOneMore(w, mid, n, s, todo, g, t, r);
  }

  lemma AdvancesFacts(w: World, w': World)
    requires Advances(w, w')
    ensures w.clock <= w'.clock && w.events <= w'.events && w.stamps <= w'.stamps
  {
  }

  lemma AnnounceOneMore(w: World, mid: World, n: int, s: Source, todo: set<int>, g: int, t: Tag, r: Runtime)
    requires g in w.groups && RuntimeShape(g, w.groups[g]) && g in todo
    requires w.events <= mid.events && mid.groups.Keys == w.groups.Keys && w.clock <= mid.clock
    requires AnnouncesStruck(w, mid, map[n := s], todo) && mid.groups[g] == w.groups[g]
    requires t in w.groups[g].members && Struck(w.groups[g].members[t], map[n := s])
    requires r == Strike(mid.groups[g], t, s.at, s.err, mid.clock + 1)
    ensures AnnouncesStruck(w, Announced(mid, g, r, EventOf(g, r.members[t])), map[n := s], todo - {g})
  {
    hide StampsAnnounced, IsStrike, FreshEvents;
    var e := EventOf(g, r.members[t]);
    var after := Announced(mid, g, r, e);
    var evs, evs' := NewEvents(w, mid), NewEvents(w, after);
    assert evs' == evs + [e];
    PushFresh(evs, e, w.clock, mid.clock);
    AnnouncedIsStamped(w, mid, g, r, e);
    AnnouncedAreStruck(w, mid, after, n, s, todo, g, t);
    forall h, u | h in w.groups && h !in todo - {g} && u in w.groups[h].members && u in after.groups[h].members
                  && Struck(w.groups[h].members[u], map[n := s])
      ensures EventOf(h, after.groups[h].members[u]) in NewEvents(w, after)
    {
      if h == g {
        assert w.groups[g].members[u].nodeId == n == w.groups[g].members[t].nodeId;
        assert u == t;
      } else {
        assert EventOf(h, mid.groups[h].members[u]) in NewEvents(w, mid);
      }
    }
  }

  lemma AnnouncedAreStruck(w: World, mid: World, after: World, n: int, s: Source, todo: set<int>, g: int, t: Tag)
    requires g in w.groups && RuntimeShape(g, w.groups[g]) && g in todo
    requires w.events <= mid.events && mid.groups.Keys == w.groups.Keys
    requires AnnouncesStruck(w, mid, map[n := s], todo) && mid.groups[g] == w.groups[g]
    requires t in w.groups[g].members && Struck(w.groups[g].members[t], map[n := s])
    requires var r := Strike(mid.groups[g], t, s.at, s.err, mid.clock + 1);
             after == Announced(mid, g, r, EventOf(g, r.members[t]))
    ensures var evs := NewEvents(w, after);
            forall i :: 0 <= i < |evs| ==> evs[i].groupId !in todo - {g} && IsStrike(w, after, map[n := s], evs[i])
  {
    hide StampsAnnounced, FreshEvents;
    var evs := NewEvents(w, after);
    forall i | 0 <= i < |evs| ensures evs[i].groupId !in todo - {g} && IsStrike(w, after, map[n := s], evs[i]) {
      if i < |evs| - 1 {
        assert evs[i] == NewEvents(w, mid)[i] && IsStrike(w, mid, map[n := s], evs[i]);
      } else {
        assert Holds(after, g, t);
      }
    }
  }

  lemma PushFresh(evs: seq<StateEvent>, e: StateEvent, lo: int, hi: int)
    requires FreshEvents(evs, lo, hi) && lo <= hi && e.revision == hi + 1
    requires forall i :: 0 <= i < |evs| ==> !SameKey(evs[i], e)
    ensures FreshEvents(evs + [e], lo, hi + 1)
  {
  }

  // Automatic recovery frees the evicted members of a node, a manual restore frees all of them.
  datatype Scope = EvictedOnly | Everyone

  predicate Freed(m: Member, n: int, scope: Scope) {
    m.nodeId == n && (scope.Everyone? || m.evicted)
  }

  predicate FreedTo(m: Member, m': Member, n: int, scope: Scope, lo: int, hi: int) {
    if Freed(m, n, scope) then m' == Cleared(m).(revision := m'.revision) && lo < m'.revision <= hi
    else m' == m
  }

  ghost predicate FreedIn(r: Runtime, r': Runtime, n: int, scope: Scope, lo: int, hi: int) {
    && r' == r.(members := r'.members)
    && r'.members.Keys == r.members.Keys
    && forall t :: t in r.members ==> FreedTo(r.members[t], r'.members[t], n, scope, lo, hi)
  }

  /** The members of node `n` are clean in every group but `origin` (0: in every group). */
  ghost predicate FreedEverywhere(w: World, w': World, n: int, scope: Scope, origin: int) {
    FreedBut(w, w', n, scope, {origin})
  }

  // The same while the groups in `todo` are still to be visited (or are skipped).
  ghost predicate FreedBut(w: World, w': World, n: int, scope: Scope, todo: set<int>) {
    && Advances(w, w')
    && w'.marks == w.marks
    && w'.groups.Keys == w.groups.Keys
    && (forall g :: g in w.groups ==>
          if g in todo then w'.groups[g] == w.groups[g]
          else FreedIn(w.groups[g], w'.groups[g], n, scope, w.clock, w'.clock))
    && AnnouncesFreed(w, w', n, scope, todo)
  }

  function CleanEvent(g: int, n: int, revision: int): StateEvent {
    StateEvent(g, n, [], false, "", None, revision)
  }

  ghost predicate AnnouncesFreed(w: World, w': World, n: int, scope: Scope, todo: set<int>)
    requires w.events <= w'.events && w'.groups.Keys == w.groups.Keys
  {
    var evs := NewEvents(w, w');
    && FreshEvents(evs, w.clock, w'.clock)
    && StampsAnnounced(w, w')
    && (forall i :: 0 <= i < |evs| ==> evs[i].groupId !in todo && IsFreeing(w, w', n, scope, evs[i]))
    && (forall g, t :: g in w.groups && g !in todo && t in w.groups[g].members && t in w'.groups[g].members
                       && Freed(w.groups[g].members[t], n, scope) ==>
          CleanEvent(g, n, w'.groups[g].members[t].revision) in evs)
  }

  // The announcement is that of a member freed.
  ghost predicate IsFreeing(w: World, w': World, n: int, scope: Scope, e: StateEvent) {
    exists t :: Holds(w, e.groupId, t) && Holds(w', e.groupId, t) && Freed(w.groups[e.groupId].members[t], n, scope)
                && e == CleanEvent(e.groupId, n, w'.groups[e.groupId].members[t].revision)
  }

  /** One group with its member `t` returned to the clean state. */
  function Free(r: Runtime, t: Tag, stamp: int): Runtime
    requires t in r.members
  {
    r.(members := r.members[t := Cleared(r.members[t]).(revision := stamp)])
  }

  /** One group visited: nothing to free, or the one member of the node. */
  ghost predicate GroupFreed(w: World, w': World, g: int, n: int, scope: Scope, hit: Option<Tag>)
    requires g in w.groups
  {
    var r := w.groups[g];
    match hit
    case None => w' == w && forall t :: t in r.members ==> !Freed(r.members[t], n, scope)
    case Some(t) =>
      && t in r.members && Freed(r.members[t], n, scope)
      && w' == Announced(w, g, Free(r, t, w.clock + 1), CleanEvent(g, n, w.clock + 1))
  }

  // Some member of the node was in scope outside the groups in `todo`.
  ghost predicate SomeFreed(w: World, n: int, scope: Scope, todo: set<int>) {
    exists g, t :: g in w.groups && g !in todo && t in w.groups[g].members && Freed(w.groups[g].members[t], n, scope)
  }

  lemma StartFreeing(w: World, n: int, scope: Scope, skip: int)
    ensures FreedBut(w, w, n, scope, w.groups.Keys - {skip} + {skip})
    ensures !SomeFreed(w, n, scope, w.groups.Keys - {skip} + {skip})
  {
    NothingStamped(w);
  }

  lemma EndFreeing(w: World, w': World, n: int, scope: Scope, skip: int, todo: set<int>)
    requires FreedBut(w, w', n, scope, todo) && todo == {skip}
    ensures FreedEverywhere(w, w', n, scope, skip)
  {
  }

  lemma UnvisitedFree(w: World, mid: World, n: int, scope: Scope, todo: set<int>, g: int)
    requires Shape(w) && FreedBut(w, mid, n, scope, todo) && g in todo && g in w.groups
    ensures mid.groups.Keys == w.groups.Keys && mid.groups[g] == w.groups[g] && RuntimeShape(g, mid.groups[g])
  {
  }

  lemma LaterFreed(r: Runtime, r': Runtime, n: int, scope: Scope, lo: int, hi: int, hi': int)
    requires FreedIn(r, r', n, scope, lo, hi) && hi <= hi'
    ensures FreedIn(r, r', n, scope, lo, hi')
  {
  }

  lemma VisitFree(w: World, mid: World, after: World, n: int, scope: Scope, todo: set<int>, g: int, hit: Option<Tag>)
    requires Shape(w) && g in todo && g in w.groups && mid.groups.Keys == w.groups.Keys
    requires FreedBut(w, mid, n, scope, todo) && GroupFreed(mid, after, g, n, scope, hit)
    ensures after.groups.Keys == w.groups.Keys
    ensures FreedBut(w, after, n, scope, todo - {g})
    ensures SomeFreed(w, n, scope, todo - {g}) <==> SomeFreed(w, n, scope, todo) || hit.Some?
  {
    assert mid.groups[g] == w.groups[g];
    if hit.Some? {
      VisitFreed(w, mid, n, scope, todo, g, hit.value);
    }
  }

  lemma VisitFreed(w: World, mid: World, n: int, scope: Scope, todo: set<int>, g: int, t: Tag)
    requires Shape(w)
    requires FreedBut(w, mid, n, scope, todo) && g in todo && g in w.groups
    requires t in w.groups[g].members && Freed(w.groups[g].members[t], n, scope)
    ensures var r := Free(mid.groups[g], t, mid.clock + 1);
            FreedBut(w, Announced(mid, g, r, CleanEvent(g, n, mid.clock + 1)), n, scope, todo - {g})
  {
    hide AnnouncesFreed, FreedIn, RuntimeShape, Advances;
    var r := Free(mid.groups[g], t, mid.clock + 1);
    var e := CleanEvent(g, n, mid.clock + 1);
    var after := Announced(mid, g, r, e);
    AdvancesFacts(w, mid);
    AnnouncedAdvances(w, mid, g, r, e);
    AdvancesFacts(w, after);
    FreeFrees(g, w.groups[g], t, n, scope, w.clock, after.clock);
    forall h | h in w.groups && h !in todo
      ensures FreedIn(w.groups[h], after.groups[h], n, scope, w.clock, after.clock)
    {
      LaterFreed(w.groups[h], mid.groups[h], n, scope, w.clock, mid.clock, after.clock);
    }
    AnnounceOneFreed(w, mid, n, scope, todo, g, t);
  }

  lemma AnnounceOneFreed(w: World, mid: World, n: int, scope: Scope, todo: set<int>, g: int, t: Tag)
    requires g in w.groups && RuntimeShape(g, w.groups[g]) && g in todo
    requires w.events <= mid.events && mid.groups.Keys == w.groups.Keys && w.clock <= mid.clock
    requires AnnouncesFreed(w, mid, n, scope, todo) && mid.groups[g] == w.groups[g]
    requires t in w.groups[g].members && Freed(w.groups[g].members[t], n, scope)
    ensures AnnouncesFreed(w, Announced(mid, g, Free(mid.groups[g], t, mid.clock + 1), CleanEvent(g, n, mid.clock + 1)),
                           n, scope, todo - {g})
  {
    hide StampsAnnounced;
    var e := CleanEvent(g, n, mid.clock + 1);
    var after := Announced(mid, g, Free(mid.groups[g], t, mid.clock + 1), e);
    AnnouncedIsStamped(w, mid, g, Free(mid.groups[g], t, mid.clock + 1), e);
    var evs, evs' := NewEvents(w, mid), NewEvents(w, after);
    assert evs' == evs + [e];
    PushFresh(evs, e, w.clock, mid.clock);
    AnnouncedAreFreed(w, mid, after, n, scope, todo, g, t);
    forall h, u | h in w.groups && h !in todo - {g} && u in w.groups[h].members && u in after.groups[h].members
                  && Freed(w.groups[h].members[u], n, scope)
      ensures CleanEvent(h, n, after.groups[h].members[u].revision) in evs'
    {
      if h == g {
        assert w.groups[g].members[u].nodeId == n == w.groups[g].members[t].nodeId;
        assert u == t;
      } else {
        assert CleanEvent(h, n, mid.groups[h].members[u].revision) in evs;
      }
    }
    hide IsFreeing, FreshEvents, RuntimeShape;
  }

  lemma AnnouncedAreFreed(w: World, mid: World, after: World, n: int, scope: Scope, todo: set<int>, g: int, t: Tag)
    requires g in w.groups && g in todo && w.events <= mid.events && mid.groups.Keys == w.groups.Keys
    requires AnnouncesFreed(w, mid, n, scope, todo) && mid.groups[g] == w.groups[g]
    requires t in w.groups[g].members && Freed(w.groups[g].members[t], n, scope)
    requires after == Announced(mid, g, Free(mid.groups[g], t, mid.clock + 1), CleanEvent(g, n, mid.clock + 1))
    ensures var evs := NewEvents(w, after);
            forall i :: 0 <= i < |evs| ==> evs[i].groupId !in todo - {g} && IsFreeing(w, after, n, scope, evs[i])
  {
  }

  lemma FreeFrees(g: int, r: Runtime, t: Tag, n: int, scope: Scope, lo: int, stamp: int)
    requires RuntimeShape(g, r) && t in r.members && Freed(r.members[t], n, scope) && lo < stamp
    ensures FreedIn(r, Free(r, t, stamp), n, scope, lo, stamp)
  {
  }

  lemma FreeingKeepsShape(w: World, w': World, n: int, scope: Scope, origin: int)
    requires Shape(w) && FreedEverywhere(w, w', n, scope, origin)
    ensures Shape(w')
  {
    forall g | g in w'.groups ensures RuntimeShape(g, w'.groups[g]) {
      if g != origin {
        FreedKeepsShape(g, w.groups[g], w'.groups[g], n, scope, w.clock, w'.clock);
      }
    }
  }

  lemma FreedKeepsShape(g: int, r: Runtime, r': Runtime, n: int, scope: Scope, lo: int, hi: int)
    requires RuntimeShape(g, r) && FreedIn(r, r', n, scope, lo, hi)
    ensures RuntimeShape(g, r')
  {
  }

  // -------------------------------------------------------------------------------------------
  // Reports about one member
  // -------------------------------------------------------------------------------------------

  /** The origin group after a member transition, before anything is carried to other groups. */
  function Origin(w: World, g: int, t: Tag, out: Outcome): World
    requires Holds(w, g, t)
  {
    var r := w.groups[g];
    var r' := r.(members := r.members[t := out.member]);
    match out.effect
    case Silent => w.(groups := w.groups[g := r'])
    case Suspected | Evicted =>
      Announced(w, g, r'.(currentTag := if r.currentTag == t then "" else r.currentTag), EventOf(g, out.member))
    case Readmitted | Trusted =>
      Announced(w, g, r', CleanEvent(g, out.member.nodeId, w.clock + 1))
  }

  function DialOutcome(w: World, g: int, t: Tag, at: int, cause: Option<string>): Outcome
    requires Holds(w, g, t)
  {
    var r := w.groups[g];
    OnFailure(r.members[t], r.window, r.threshold, at, cause, w.clock + 1)
  }

  function ProbeFailureOutcome(w: World, g: int, t: Tag, probe: ProbeId, at: int, cause: Option<string>): Outcome
    requires Holds(w, g, t)
  {
    var r := w.groups[g];
    OnProbeFailure(r.members[t], r.window, r.threshold, probe, at, cause, w.clock + 1)
  }

  function ProbeSuccessOutcome(w: World, g: int, t: Tag, probe: ProbeId, now: int): Outcome
    requires Holds(w, g, t)
  {
    var r := w.groups[g];
    OnProbeSuccess(r.members[t], r.policy, probe, now, w.clock + 1)
  }

  /** A failure report: the origin changes, and an eviction marks the node and reaches every group. */
  ghost predicate Reported(w: World, w': World, g: int, t: Tag, out: Outcome)
    requires Holds(w, g, t)
  {
    var mid := Origin(w, g, t, out);
    if out.effect.Evicted? && out.member.evictedAt.Some? then
      var n := out.member.nodeId;
      Propagated(mid.(marks := mid.marks + {n}), w', map[n := Source(out.member.evictedAt.value, out.member.lastError)])
    else w' == mid
  }

  /** A success report: the origin changes, and an automatic recovery clears the mark and every other group. */
  ghost predicate Succeeded(w: World, w': World, g: int, t: Tag, out: Outcome)
    requires Holds(w, g, t)
  {
    var mid := Origin(w, g, t, out);
    if out.effect.Readmitted? then
      var n := out.member.nodeId;
      FreedEverywhere(mid.(marks := mid.marks - {n}), w', n, EvictedOnly, g)
    else w' == mid
  }

  lemma MemberShape(w: World, g: int, t: Tag)
    requires Shape(w) && Holds(w, g, t)
    ensures w.groups[g].members[t].tag == t && w.groups[g].members[t].nodeId != 0
  {
  }

  // Two updates of the same member are the last one.
  lemma OriginOverwrites(w: World, g: int, t: Tag, m: Member, out: Outcome)
    requires Holds(w, g, t)
    ensures Origin(Origin(w, g, t, Outcome(m, Silent)), g, t, out) == Origin(w, g, t, out)
  {
    var mid := Origin(w, g, t, Outcome(m, Silent));
    assert mid.groups[g].members[t := out.member] == w.groups[g].members[t := out.member];
    var r := Origin(w, g, t, out).groups[g];
    assert mid.groups[g := r] == w.groups[g := r];
  }

  lemma OriginAdvances(w: World, g: int, t: Tag, out: Outcome)
    requires Holds(w, g, t)
    ensures Advances(w, Origin(w, g, t, out))
  {
    NothingStamped(w);
    if !out.effect.Silent? {
      var w' := Origin(w, g, t, out);
      assert w' == Announced(w, g, w'.groups[g], w'.events[|w.events|]);
      AnnouncedAdvances(w, w, g, w'.groups[g], w'.events[|w.events|]);
    }
  }

  lemma OriginKeepsShape(w: World, g: int, t: Tag, out: Outcome)
    requires Shape(w) && Holds(w, g, t)
    requires out.member.tag == t && out.member.nodeId == w.groups[g].members[t].nodeId
    ensures Shape(Origin(w, g, t, out))
  {
  }

  // -------------------------------------------------------------------------------------------
  // Registration
  // -------------------------------------------------------------------------------------------

  function Restamped(revision: int): int {
    if revision > 0 then revision else 0
  }

  /** A member restored from persisted state; a marked node starts evicted, and an undated eviction is dated. */
  function Registered(t: Tag, i: Initial, marked: bool, now: int): Member {
    var evicted := i.evicted || marked;
    Member(i.standby, i.nodeId, t, i.history, evicted, i.lastError,
           if evicted && i.evictedAt.None? then Some(now) else i.evictedAt, 0, [], Restamped(i.revision))
  }

  // The clock after restoring some persisted revisions: raised exactly to the highest of them.
  ghost predicate Raised(clock: nat, clock': nat, members: map<Tag, Initial>, restored: seq<Stamp>) {
    RaisedBut(clock, clock', members, restored, {})
  }

  // The same while the tags in `todo` are still to be visited; `restored` is what was read back so far.
  ghost predicate RaisedBut(clock: nat, clock': nat, members: map<Tag, Initial>, restored: seq<Stamp>, todo: set<Tag>) {
    && clock <= clock'
    && (forall t :: t in members && t !in todo ==> members[t].revision <= clock')
    && (clock' == clock || exists t :: t in members && members[t].revision == clock')
    && (forall t :: t in members && t !in todo && members[t].revision > 0 ==> Restored(members[t].revision) in restored)
    && (forall i :: 0 <= i < |restored| ==>
          exists t :: t in members && t !in todo && members[t].revision > 0
              && restored[i] == Restored(members[t].revision))
  }

  predicate MayServe(members: map<Tag, Member>, t: Tag) {
    t in members && !members[t].standby && !members[t].evicted && members[t].history == []
  }

  ghost function RegisteredMembers(members: map<Tag, Initial>, marks: set<int>, now: int): map<Tag, Member> {
    map t | t in members :: Registered(t, members[t], members[t].nodeId in marks, now)
  }

  ghost function EvictedNodes(members: map<Tag, Initial>): set<int> {
    set t | t in members && members[t].evicted :: members[t].nodeId
  }

  function RegisteredRuntime(g: int, window: int, threshold: int, preferred: Tag, members: map<Tag, Member>,
                             policy: Policy): Runtime {
    Runtime(g, if window <= 0 then DEFAULT_WINDOW else window,
            if threshold <= 0 then DEFAULT_THRESHOLD else threshold, policy,
            if MayServe(members, preferred) then preferred else "", members)
  }

  /** The evictions a set of members stands for, without the tags still to be visited. */
  ghost function SourcesOf(members: map<Tag, Member>, todo: set<Tag>): map<int, Source>
    requires OneTagPerNode(members)
    requires forall t :: t in members && members[t].evicted ==> members[t].evictedAt.Some?
  {
    map t | t in members && t !in todo && members[t].evicted ::
      members[t].nodeId := Source(members[t].evictedAt.value, members[t].lastError)
  }

  /** Register: the runtime is installed, its evictions are marked and reach every group. */
  ghost predicate Installed(w: World, w': World, g: int, r: Runtime, members: map<Tag, Initial>)
    requires OneTagPerNode(r.members)
    requires forall t :: t in r.members && r.members[t].evicted ==> r.members[t].evictedAt.Some?
  {
    exists clock: nat, restored ::
      && Raised(w.clock, clock, members, restored)
      && Propagated(World(w.groups[g := r], w.marks + EvictedNodes(members), clock, w.events, w.stamps + restored), w',
                    SourcesOf(r.members, {}))
  }

  /** Two propagations in a row are one propagation of both sources. */
  lemma PropagationsCompose(w: World, mid: World, w': World, src: map<int, Source>, n: int, s: Source)
    requires Propagated(w, mid, src) && Propagated(mid, w', map[n := s]) && n !in src
    ensures Propagated(w, w', src[n := s])
  {
    var both := src[n := s];
    AdvancesFurther(w, mid, w');
    forall g | g in w.groups ensures EvictedIn(w.groups[g], w'.groups[g], both, w.clock, w'.clock) {
      EvictionsCompose(w.groups[g], mid.groups[g], w'.groups[g], src, n, s, w.clock, mid.clock, w'.clock);
    }
    AnnouncementsCompose(w, mid, w', src, n, s);
  }

  lemma AnnouncementsCompose(w: World, mid: World, w': World, src: map<int, Source>, n: int, s: Source)
    requires Advances(w, mid) && Advances(mid, w') && n !in src
    requires w.groups.Keys == mid.groups.Keys == w'.groups.Keys
    requires AnnouncesStruck(w, mid, src, {}) && AnnouncesStruck(mid, w', map[n := s], {})
    requires forall g :: g in w.groups ==> EvictedIn(w.groups[g], mid.groups[g], src, w.clock, mid.clock)
    requires forall g :: g in mid.groups ==> EvictedIn(mid.groups[g], w'.groups[g], map[n := s], mid.clock, w'.clock)
    ensures AnnouncesStruck(w, w', src[n := s], {})
  {
    hide EvictedIn, IsStrike, FreshEvents, StampsAnnounced, Advances;
    AdvancesFacts(w, mid);
    AdvancesFacts(mid, w');
    var both := src[n := s];
    var a, b := NewEvents(w, mid), NewEvents(mid, w');
    assert NewEvents(w, w') == a + b;
    forall i | 0 <= i < |a| ensures IsStrike(w, w', both, a[i]) && a[i].nodeId in src {
      StrikeStays(w, mid, w', src, n, s, a[i]);
    }
    forall i | 0 <= i < |b| ensures IsStrike(w, w', both, b[i]) && b[i].nodeId == n {
      StrikeIsNew(w, mid, w', src, n, s, b[i]);
    }
    FreshConcat(a, b, w.clock, mid.clock, w'.clock);
    StampsAnnouncedFurther(w, mid, w');
    forall g, t | g in w.groups && t in w.groups[g].members && t in w'.groups[g].members
                  && Struck(w.groups[g].members[t], both)
      ensures EventOf(g, w'.groups[g].members[t]) in a + b
    {
      StruckOnce(w.groups[g], mid.groups[g], w'.groups[g], t, src, n, s, w.clock, mid.clock, w'.clock);
    }
  }

  lemma StrikeStays(w: World, mid: World, w': World, src: map<int, Source>, n: int, s: Source, e: StateEvent)
    requires w.groups.Keys == mid.groups.Keys == w'.groups.Keys && n !in src
    requires forall g :: g in w.groups ==> EvictedIn(w.groups[g], mid.groups[g], src, w.clock, mid.clock)
    requires forall g :: g in mid.groups ==> EvictedIn(mid.groups[g], w'.groups[g], map[n := s], mid.clock, w'.clock)
    requires IsStrike(w, mid, src, e)
    ensures IsStrike(w, w', src[n := s], e) && e.nodeId in src
  {
  }

  lemma StrikeIsNew(w: World, mid: World, w': World, src: map<int, Source>, n: int, s: Source, e: StateEvent)
    requires w.groups.Keys == mid.groups.Keys == w'.groups.Keys && n !in src
    requires forall g :: g in w.groups ==> EvictedIn(w.groups[g], mid.groups[g], src, w.clock, mid.clock)
    requires forall g :: g in mid.groups ==> EvictedIn(mid.groups[g], w'.groups[g], map[n := s], mid.clock, w'.clock)
    requires IsStrike(mid, w', map[n := s], e)
    ensures IsStrike(w, w', src[n := s], e) && e.nodeId == n
  {
  }

  // A member is struck by the first propagation and then left alone, or only by the second.
  lemma StruckOnce(r: Runtime, r1: Runtime, r2: Runtime, t: Tag, src: map<int, Source>, n: int, s: Source,
                   lo: int, mid: int, hi: int)
    requires EvictedIn(r, r1, src, lo, mid) && EvictedIn(r1, r2, map[n := s], mid, hi) && n !in src
    requires t in r.members && Struck(r.members[t], src[n := s])
    ensures t in r1.members && t in r2.members
    ensures if r.members[t].nodeId == n then r1.members[t] == r.members[t] && Struck(r1.members[t], map[n := s])
            else Struck(r.members[t], src) && r2.members[t] == r1.members[t]
  {
  }

  lemma EvictionsCompose(r: Runtime, r1: Runtime, r2: Runtime, src: map<int, Source>, n: int, s: Source,
                         lo: int, mid: int, hi: int)
    requires EvictedIn(r, r1, src, lo, mid) && EvictedIn(r1, r2, map[n := s], mid, hi)
    requires n !in src && lo <= mid <= hi
    ensures EvictedIn(r, r2, src[n := s], lo, hi)
  {
    forall t | t in r.members ensures StruckTo(r.members[t], r2.members[t], src[n := s], lo, hi) {
      assert StruckTo(r.members[t], r1.members[t], src, lo, mid);
      assert StruckTo(r1.members[t], r2.members[t], map[n := s], mid, hi);
    }
    if r.currentTag in r.members {
      assert StruckTo(r.members[r.currentTag], r1.members[r.currentTag], src, lo, mid);
    }
  }

  lemma FreshConcat(a: seq<StateEvent>, b: seq<StateEvent>, lo: int, mid: int, hi: int)
    requires FreshEvents(a, lo, mid) && FreshEvents(b, mid, hi) && lo <= mid <= hi
    requires forall i, j :: 0 <= i < |a| && 0 <= j < |b| ==> !SameKey(a[i], b[j])
    ensures FreshEvents(a + b, lo, hi)
  {
  }

  lemma PropagateNothing(w: World)
    ensures Propagated(w, w, map[])
  {
    NothingStamped(w);
  }

  // Members restored so far: each saw the old marks and its own, since no other tag names its node.
  ghost predicate RestoredBut(members: map<Tag, Initial>, before: set<int>, marks: set<int>, built: map<Tag, Member>,
                              todo: set<Tag>, now: int) {
    && built.Keys == members.Keys - todo
    && marks == before + (set t | t in members && t !in todo && members[t].evicted :: members[t].nodeId)
    && forall t :: t in built ==>
         built[t] == Registered(t, members[t], members[t].nodeId in before || members[t].evicted, now)
  }

  lemma RestoreStart(members: map<Tag, Initial>, marks: set<int>, todo: set<Tag>, now: int)
    requires todo == members.Keys
    ensures RestoredBut(members, marks, marks, map[], todo, now)
  {
  }

  lemma RestoreStep(members: map<Tag, Initial>, before: set<int>, marks: set<int>, built: map<Tag, Member>,
                    todo: set<Tag>, now: int, t: Tag)
    requires Distinct(members) && t in todo && todo <= members.Keys
    requires RestoredBut(members, before, marks, built, todo, now)
    ensures var i := members[t];
            var marks' := if i.evicted then marks + {i.nodeId} else marks;
            RestoredBut(members, before, marks', built[t := Registered(t, i, i.nodeId in marks', now)], todo - {t}, now)
  {
  }

  lemma RestoredAll(members: map<Tag, Initial>, before: set<int>, marks: set<int>, built: map<Tag, Member>, now: int)
    requires Distinct(members) && RestoredBut(members, before, marks, built, {}, now)
    ensures marks == before + EvictedNodes(members)
    ensures built == RegisteredMembers(members, marks, now)
  {
  }

  lemma RaisedStart(clock: nat, members: map<Tag, Initial>, todo: set<Tag>)
    requires todo == members.Keys
    ensures RaisedBut(clock, clock, members, [], todo)
  {
  }

  function RestoredStamp(i: Initial): seq<Stamp> {
    if i.revision > 0 then [Restored(i.revision)] else []
  }

  lemma RaiseStep(clock: nat, clock': nat, members: map<Tag, Initial>, restored: seq<Stamp>, todo: set<Tag>, t: Tag)
    requires RaisedBut(clock, clock', members, restored, todo) && t in members
    ensures RaisedBut(clock, Max(clock', members[t].revision), members, restored + RestoredStamp(members[t]),
            todo - {t})
  {
  }

  lemma RaisedAll(clock: nat, clock': nat, members: map<Tag, Initial>, restored: seq<Stamp>)
    requires RaisedBut(clock, clock', members, restored, {})
    ensures Raised(clock, clock', members, restored)
  {
  }

  lemma RestoredShape(w: World, g: int, r: Runtime, members: map<Tag, Initial>, marked: set<int>, now: int)
    requires Shape(w) && Distinct(members) && g != 0
    requires r.id == g && r.members == RegisteredMembers(members, marked, now)
    ensures Shape(w.(groups := w.groups[g := r])) && OneTagPerNode(r.members)
    ensures forall t :: t in r.members ==> r.members[t].nodeId != 0
    ensures forall t :: t in r.members && r.members[t].evicted ==> r.members[t].evictedAt.Some?
  {
  }

  lemma SourcesGrow(members: map<Tag, Member>, todo: set<Tag>, t: Tag)
    requires OneTagPerNode(members) && t in members && t in todo && members[t].evicted
    requires forall u :: u in members && members[u].evicted ==> members[u].evictedAt.Some?
    ensures members[t].nodeId !in SourcesOf(members, todo)
    ensures SourcesOf(members, todo - {t})
         == SourcesOf(members, todo)[members[t].nodeId := Source(members[t].evictedAt.value, members[t].lastError)]
  {
  }

  lemma SourcesStay(members: map<Tag, Member>, todo: set<Tag>, t: Tag)
    requires OneTagPerNode(members) && t in members && !members[t].evicted
    requires forall u :: u in members && members[u].evicted ==> members[u].evictedAt.Some?
    ensures SourcesOf(members, todo - {t}) == SourcesOf(members, todo)
  {
  }

  lemma PropagationKeepsShape(w: World, w': World, src: map<int, Source>)
    requires Shape(w) && Propagated(w, w', src)
    ensures Shape(w')
  {
    forall g | g in w'.groups ensures RuntimeShape(g, w'.groups[g]) {
      EvictedKeepsShape(g, w.groups[g], w'.groups[g], src, w.clock, w'.clock);
    }
  }

  lemma EvictedKeepsShape(g: int, r: Runtime, r': Runtime, src: map<int, Source>, lo: int, hi: int)
    requires RuntimeShape(g, r) && EvictedIn(r, r', src, lo, hi)
    ensures RuntimeShape(g, r')
  {
  }
}
