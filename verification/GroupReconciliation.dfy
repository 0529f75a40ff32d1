/** Reconciling a live group with a new topology: member state is carried by node, the new members are
    published silently, and the evictions found on the way are announced and carried to the other groups
    afterwards. */
module GroupReconciliation {
  import opened Basics
  import opened FailureWindow
  import opened ProbeRing
  import opened GroupMember
  import opened GroupWorld

  datatype Update = Update(window: int, threshold: int, preferredNodeId: int, members: map<Tag, Initial>,
                           recovery: Policy)

  datatype Rebuilt = Rebuilt(member: Member, restored: bool, announce: bool, newlyEvicted: bool)

  function WindowOf(u: Update): int {
    if u.window <= 0 then DEFAULT_WINDOW else u.window
  }

  function ThresholdOf(u: Update): int {
    if u.threshold <= 0 then DEFAULT_THRESHOLD else u.threshold
  }

  function PolicyOf(r: Runtime, u: Update): Policy {
    if Provided(u.recovery) then Normalize(u.recovery) else r.policy
  }

  lemma PolicyMoves(r: Runtime, u: Update)
    ensures Provided(u.recovery) && Normalize(u.recovery) != r.policy <==> PolicyOf(r, u) != r.policy
  {
  }

  /** What a member starts from: the state carried by its node, or the persisted state of a newcomer.  The
      replay ring is not carried. */
  function Carried(t: Tag, i: Initial, prior: Option<Member>): Member {
    match prior
    case Some(m) => Member(i.standby, i.nodeId, t, m.history, m.evicted, m.lastError, m.evictedAt, m.streak, [],
      m.revision)
    case None => Member(i.standby, i.nodeId, t, i.history, i.evicted, i.lastError, i.evictedAt, 0, [],
      Restamped(i.revision))
  }

  function Rebuild(t: Tag, i: Initial, prior: Option<Member>, marked: bool, window: int, threshold: int,
                   policyChanged: bool, now: int): Rebuilt {
    var m0 := Carried(t, i, prior);
    var m1 := if marked then m0.(evicted := true) else m0;
    var m2 := Pruned(m1, window, now);
    var newly := !m2.evicted && |m2.history| >= threshold;
    var m3 := if newly then m2.(evicted := true, evictedAt := Some(now)) else m2;
    var m4 := if m3.evicted && m3.evictedAt.None? then m3.(evictedAt := Some(now)) else m3;
    var moved := policyChanged || (prior.Some? && prior.value.tag != t);
    var m5 := if m4.evicted && m4.streak > 0 && moved then m4.(streak := 0) else m4;
    Rebuilt(m5, prior.None?, m2.history != m1.history || newly, newly)
  }

  // The live members by node.
  ghost function ByNode(members: map<Tag, Member>): map<int, Member>
    requires OneTagPerNode(members)
  {
    map t | t in members :: members[t].nodeId := members[t]
  }

  ghost function OldMember(r: Runtime, n: int): Option<Member>
    requires OneTagPerNode(r.members)
  {
    if n in ByNode(r.members) then Some(ByNode(r.members)[n]) else None
  }

  lemma LookupOld(r: Runtime, byNode: map<int, Member>, n: int)
    requires OneTagPerNode(r.members) && byNode == ByNode(r.members)
    ensures OldMember(r, n) == if n in byNode then Some(byNode[n]) else None
  {
  }

  ghost function RebuiltFor(r: Runtime, marks: set<int>, u: Update, now: int, t: Tag): Rebuilt
    requires OneTagPerNode(r.members) && t in u.members
  {
    var i := u.members[t];
    Rebuild(t, i, OldMember(r, i.nodeId), i.nodeId in marks, WindowOf(u), ThresholdOf(u),
            PolicyOf(r, u) != r.policy, now)
  }

  // An announced member is stamped anew, above the revision it was restored with.
  predicate RebuiltTo(m: Member, b: Rebuilt, lo: int, hi: int) {
    && m == (if b.announce then b.member.(revision := m.revision) else b.member)
    && (b.announce ==> lo < m.revision <= hi)
    && (b.restored ==> b.member.revision <= hi)
    && (b.announce && b.restored ==> b.member.revision < m.revision)
  }

  // What was issued and restored while the members in `next` were rebuilt.
  ghost predicate RebuiltStamps(w: World, g: int, u: Update, now: int, next: map<Tag, Member>, clock: nat,
                                evs: seq<StateEvent>, stamps: seq<Stamp>)
    requires g in w.groups && OneTagPerNode(w.groups[g].members)
  {
    && Outranks(stamps, w.clock, clock)
    && (forall i :: 0 <= i < |evs| ==> Issued(evs[i].revision) in stamps)
    && (forall t ::
          t in next && t in u.members && RebuiltFor(w.groups[g], w.marks, u, now, t).restored
          && u.members[t].revision > 0 ==>
            Restored(u.members[t].revision) in stamps)
  }

  ghost function Newly(r: Runtime, marks: set<int>, u: Update, now: int, todo: set<Tag>): set<int>
    requires OneTagPerNode(r.members)
  {
    set t | t in u.members && t !in todo && RebuiltFor(r, marks, u, now, t).newlyEvicted :: u.members[t].nodeId
  }

  /** The members rebuilt so far, the marks and stamps they produced, and the events they owe. */
  ghost predicate RebuiltBut(w: World, g: int, u: Update, now: int, todo: set<Tag>, next: map<Tag, Member>,
                             marks: set<int>, clock: nat, evs: seq<StateEvent>, stamps: seq<Stamp>)
    requires g in w.groups && OneTagPerNode(w.groups[g].members)
  {
    var r := w.groups[g];
    && next.Keys == u.members.Keys - todo
    && marks == w.marks + Newly(r, w.marks, u, now, todo)
    && w.clock <= clock
    && (forall t :: t in next ==> RebuiltTo(next[t], RebuiltFor(r, w.marks, u, now, t), w.clock, clock))
    && RebuiltStamps(w, g, u, now, next, clock, evs, stamps)
    && FreshEvents(evs, w.clock, clock)
    && (forall i :: 0 <= i < |evs| ==> OwedBy(r, g, w.marks, u, now, next, evs[i]))
    && (forall t :: t in next && RebuiltFor(r, w.marks, u, now, t).announce ==> EventOf(g, next[t]) in evs)
  }

  ghost predicate OwedBy(r: Runtime, g: int, marks: set<int>, u: Update, now: int, next: map<Tag, Member>,
                         e: StateEvent)
    requires OneTagPerNode(r.members)
  {
    exists t :: t in next && t in u.members && RebuiltFor(r, marks, u, now, t).announce && e == EventOf(g, next[t])
  }

  lemma StartRebuilding(w: World, g: int, u: Update, now: int)
    requires g in w.groups && OneTagPerNode(w.groups[g].members)
    ensures RebuiltBut(w, g, u, now, u.members.Keys, map[], w.marks, w.clock, [], [])
  {
  }

  // No other tag of the update names the node, so its mark is the one from before.
  lemma MarkUnmoved(w: World, g: int, u: Update, now: int, todo: set<Tag>, next: map<Tag, Member>,
                    marks: set<int>, clock: nat, evs: seq<StateEvent>, stamps: seq<Stamp>, t: Tag)
    requires g in w.groups && OneTagPerNode(w.groups[g].members) && Distinct(u.members)
    requires RebuiltBut(w, g, u, now, todo, next, marks, clock, evs, stamps) && t in todo && todo <= u.members.Keys
    ensures u.members[t].nodeId in marks <==> u.members[t].nodeId in w.marks
  {
  }

  function ClockFor(b: Rebuilt, i: Initial, clock: nat): nat {
    if b.restored then Max(clock, i.revision) else clock
  }

  lemma RebuildFacts(r: Runtime, marks: set<int>, u: Update, now: int, t: Tag)
    requires OneTagPerNode(r.members) && t in u.members
    ensures var b := RebuiltFor(r, marks, u, now, t);
            && b.member.nodeId == u.members[t].nodeId && b.member.tag == t
            && (b.restored <==> OldMember(r, u.members[t].nodeId).None?)
            && (b.restored ==> b.member.revision == Restamped(u.members[t].revision))
  {
  }

  lemma NewlyStep(r: Runtime, marks: set<int>, u: Update, now: int, todo: set<Tag>, t: Tag)
    requires OneTagPerNode(r.members) && t in todo && t in u.members
    ensures Newly(r, marks, u, now, todo - {t})
         == Newly(r, marks, u, now, todo) + if RebuiltFor(r, marks, u, now, t).newlyEvicted then
             {u.members[t].nodeId} else {}
  {
  }

  // An announced member takes the next revision and owes one event.
  function StampedMember(b: Rebuilt, clock: nat): Member {
    if b.announce then b.member.(revision := clock + 1) else b.member
  }

  function StampedClock(b: Rebuilt, clock: nat): nat {
    if b.announce then clock + 1 else clock
  }

  function OwedFor(g: int, b: Rebuilt, clock: nat): seq<StateEvent> {
    if b.announce then [EventOf(g, StampedMember(b, clock))] else []
  }

  // A newcomer's stored revision is read back before the member is stamped.
  function StampsFor(b: Rebuilt, i: Initial, clock: nat): seq<Stamp> {
    (if b.restored then RestoredStamp(i) else []) + (if b.announce then [Issued(clock + 1)] else [])
  }

  lemma RebuildStep(w: World, g: int, u: Update, now: int, todo: set<Tag>, next: map<Tag, Member>,
                    marks: set<int>, clock: nat, evs: seq<StateEvent>, stamps: seq<Stamp>, t: Tag)
    requires g in w.groups && RuntimeShape(g, w.groups[g]) && Distinct(u.members)
    requires t in todo && todo <= u.members.Keys
    requires RebuiltBut(w, g, u, now, todo, next, marks, clock, evs, stamps)
    ensures
      var b := RebuiltFor(w.groups[g], w.marks, u, now, t);
      var clock1 := ClockFor(b, u.members[t], clock);
      var marks' := if b.newlyEvicted then marks + {u.members[t].nodeId} else marks;
      RebuiltBut(w, g, u, now, todo - {t}, next[t := StampedMember(b, clock1)], marks', StampedClock(b, clock1),
                 evs + OwedFor(g, b, clock1), stamps + StampsFor(b, u.members[t], clock1))
  {
    hide RebuiltFor, FreshEvents, OwedBy, Newly, OldMember, RebuiltStamps, StampsFor;
    var r := w.groups[g];
    RebuildFacts(r, w.marks, u, now, t);
    NewlyStep(r, w.marks, u, now, todo, t);
    var b := RebuiltFor(r, w.marks, u, now, t);
    var clock1 := ClockFor(b, u.members[t], clock);
    var clock', m := StampedClock(b, clock1), StampedMember(b, clock1);
    assert evs + [] == evs;
    var next' := next[t := m];
    forall s | s in next' ensures RebuiltTo(next'[s], RebuiltFor(r, w.marks, u, now, s), w.clock, clock') {
      if s != t {
        assert RebuiltTo(next[s], RebuiltFor(r, w.marks, u, now, s), w.clock, clock);
      }
    }
    RebuildOwes(w, g, u, now, todo, next, marks, clock, evs, stamps, t, m, clock');
    RebuildStamps(w, g, u, now, next, clock, evs, stamps, t);
  }

  // The revisions handed out for one more member.
  lemma RebuildStamps(w: World, g: int, u: Update, now: int, next: map<Tag, Member>, clock: nat, evs: seq<StateEvent>,
                      stamps: seq<Stamp>, t: Tag)
    requires g in w.groups && OneTagPerNode(w.groups[g].members) && t in u.members && w.clock <= clock
    requires RebuiltStamps(w, g, u, now, next, clock, evs, stamps)
    ensures
      var b := RebuiltFor(w.groups[g], w.marks, u, now, t);
      var clock1 := ClockFor(b, u.members[t], clock);
      RebuiltStamps(w, g, u, now, next[t := StampedMember(b, clock1)], StampedClock(b, clock1),
                    evs + OwedFor(g, b, clock1), stamps + StampsFor(b, u.members[t], clock1))
  {
    hide RebuiltFor;
    var b := RebuiltFor(w.groups[g], w.marks, u, now, t);
    var clock1 := ClockFor(b, u.members[t], clock);
    var more := StampsFor(b, u.members[t], clock1);
    assert b.restored && u.members[t].revision > 0 ==> more[0] == Restored(u.members[t].revision);
    assert b.announce ==> more[|more| - 1] == Issued(clock1 + 1);
    OutranksConcat(stamps, more, w.clock, clock, StampedClock(b, clock1));
  }

  // The step as the loop takes it: with the marks and the clock of the moment.
  lemma RebuildAdvance(w: World, g: int, u: Update, now: int, todo: set<Tag>, next: map<Tag, Member>,
                       marks: set<int>, clock: nat, evs: seq<StateEvent>, stamps: seq<Stamp>, t: Tag,
                       prior: Option<Member>, b: Rebuilt, marks': set<int>, clock': nat)
    requires g in w.groups && RuntimeShape(g, w.groups[g]) && Distinct(u.members)
    requires t in todo && todo <= u.members.Keys
    requires RebuiltBut(w, g, u, now, todo, next, marks, clock, evs, stamps)
    requires prior == OldMember(w.groups[g], u.members[t].nodeId)
    requires b == Rebuild(t, u.members[t], prior, u.members[t].nodeId in marks, WindowOf(u), ThresholdOf(u),
                          PolicyOf(w.groups[g], u) != w.groups[g].policy, now)
    requires marks' == if b.newlyEvicted then marks + {u.members[t].nodeId} else marks
    requires clock' == if prior.None? then Max(clock, u.members[t].revision) else clock
    ensures RebuiltBut(w, g, u, now, todo - {t}, next[t := StampedMember(b, clock')], marks', StampedClock(b, clock'),
                       evs + OwedFor(g, b, clock'), stamps + StampsFor(b, u.members[t], clock'))
  {
    hide RebuiltBut, Newly, Rebuild, OldMember;
    MarkUnmoved(w, g, u, now, todo, next, marks, clock, evs, stamps, t);
    assert b == RebuiltFor(w.groups[g], w.marks, u, now, t);
    RebuildFacts(w.groups[g], w.marks, u, now, t);
    RebuildStep(w, g, u, now, todo, next, marks, clock, evs, stamps, t);
  }

  // An event owed stays owed when another node is rebuilt.
  lemma OwedStays(w: World, g: int, u: Update, now: int, todo: set<Tag>, next: map<Tag, Member>, marks: set<int>,
                  clock: nat, evs: seq<StateEvent>, stamps: seq<Stamp>, t: Tag, m: Member, e: StateEvent)
    requires g in w.groups && OneTagPerNode(w.groups[g].members) && Distinct(u.members)
    requires t in todo && todo <= u.members.Keys && e in evs && m.nodeId == u.members[t].nodeId
    requires RebuiltBut(w, g, u, now, todo, next, marks, clock, evs, stamps)
    ensures OwedBy(w.groups[g], g, w.marks, u, now, next[t := m], e) && e.nodeId != m.nodeId
  {
    hide RebuiltFor, RebuiltStamps, FreshEvents;
    var r := w.groups[g];
    assert OwedBy(r, g, w.marks, u, now, next, e);
    var s :| s in next && s in u.members && RebuiltFor(r, w.marks, u, now, s).announce && e == EventOf(g, next[s]);
    assert next[t := m][s] == next[s] && s != t;
    assert RebuiltTo(next[s], RebuiltFor(r, w.marks, u, now, s), w.clock, clock);
    RebuildFacts(r, w.marks, u, now, s);
  }

  lemma OwedAnew(r: Runtime, g: int, marks: set<int>, u: Update, now: int, next: map<Tag, Member>, t: Tag)
    requires OneTagPerNode(r.members) && t in next && t in u.members && RebuiltFor(r, marks, u, now, t).announce
    ensures OwedBy(r, g, marks, u, now, next, EventOf(g, next[t]))
  {
  }

  lemma FreshLater(evs: seq<StateEvent>, lo: int, hi: int, hi': int)
    requires FreshEvents(evs, lo, hi) && hi <= hi'
    ensures FreshEvents(evs, lo, hi')
  {
  }

  lemma OwedFresh(evs: seq<StateEvent>, e: StateEvent, lo: int, clock: int, clock': int)
    requires FreshEvents(evs, lo, clock) && lo <= clock < clock' == e.revision
    requires forall i :: 0 <= i < |evs| ==> evs[i].nodeId != e.nodeId
    ensures FreshEvents(evs + [e], lo, clock')
  {
  }

  // The events owed after one more member.
  lemma RebuildOwes(w: World, g: int, u: Update, now: int, todo: set<Tag>, next: map<Tag, Member>,
                    marks: set<int>, clock: nat, evs: seq<StateEvent>, stamps: seq<Stamp>, t: Tag, m: Member,
                    clock': nat)
    requires g in w.groups && RuntimeShape(g, w.groups[g]) && Distinct(u.members)
    requires t in todo && todo <= u.members.Keys && clock <= clock'
    requires RebuiltBut(w, g, u, now, todo, next, marks, clock, evs, stamps)
    requires m.nodeId == u.members[t].nodeId
    requires RebuiltFor(w.groups[g], w.marks, u, now, t).announce ==> clock < m.revision == clock'
    ensures
      var r := w.groups[g];
      var announce := RebuiltFor(r, w.marks, u, now, t).announce;
      var evs' := if announce then evs + [EventOf(g, m)] else evs;
      var next' := next[t := m];
      && FreshEvents(evs', w.clock, clock')
      && (forall i :: 0 <= i < |evs'| ==> OwedBy(r, g, w.marks, u, now, next', evs'[i]))
      && (forall s :: s in next' && RebuiltFor(r, w.marks, u, now, s).announce ==> EventOf(g, next'[s]) in evs')
  {
    hide RebuiltFor, RebuiltStamps, RebuiltTo, FreshEvents, OwedBy, Newly, SameKey;
    var r := w.groups[g];
    var next' := next[t := m];
    forall i | 0 <= i < |evs| ensures OwedBy(r, g, w.marks, u, now, next', evs[i]) && evs[i].nodeId != m.nodeId {
      OwedStays(w, g, u, now, todo, next, marks, clock, evs, stamps, t, m, evs[i]);
    }
    if RebuiltFor(r, w.marks, u, now, t).announce {
      OwedAnew(r, g, w.marks, u, now, next', t);
      OwedFresh(evs, EventOf(g, m), w.clock, clock, clock');
    } else {
      FreshLater(evs, w.clock, clock, clock');
    }
  }

  predicate EvictedSomewhere(groups: map<int, Runtime>, n: int) {
    exists g, t :: g in groups && t in groups[g].members && groups[g].members[t].nodeId == n
        && groups[g].members[t].evicted
  }

  ghost function Removed(r: Runtime, u: Update): set<int> {
    set t | t in r.members && (forall s :: s in u.members ==> u.members[s].nodeId != r.members[t].nodeId) ::
      r.members[t].nodeId
  }

  // The marks left after pruning: a removed node keeps its mark only while some group still holds it evicted.
  ghost function PrunedMarks(groups: map<int, Runtime>, marks: set<int>, removed: set<int>): set<int> {
    set n | n in marks && (n in removed ==> EvictedSomewhere(groups, n))
  }

  ghost predicate Prefers(r: Runtime, u: Update, n: int) {
    var current := if r.currentTag in r.members then r.members[r.currentTag].nodeId else 0;
    n == if current != 0 then current else u.preferredNodeId
  }

  ghost predicate CurrentAfter(r: Runtime, r': Runtime, u: Update) {
    var t' := r'.currentTag;
    if exists t :: MayServe(r'.members, t) && Prefers(r, u, r'.members[t].nodeId)
    then MayServe(r'.members, t') && Prefers(r, u, r'.members[t'].nodeId)
    else t' == ""
  }

  /** ReconcileSilent: the group is rebuilt and its events are owed; no other group has changed yet. */
  ghost predicate Reconciled(w: World, w': World, g: int, u: Update, now: int, evs: seq<StateEvent>)
    requires g in w.groups && OneTagPerNode(w.groups[g].members)
  {
    var r := w.groups[g];
    && w'.groups.Keys == w.groups.Keys
    && w'.groups == w.groups[g := w'.groups[g]]
    && var r' := w'.groups[g];
       && r' == Runtime(r.id, WindowOf(u), ThresholdOf(u), PolicyOf(r, u), r'.currentTag, r'.members)
       && CurrentAfter(r, r', u)
       && w'.events == w.events
       && w.stamps <= w'.stamps
       && exists marks ::
            && RebuiltBut(w, g, u, now, {}, r'.members, marks, w'.clock, evs, NewStamps(w, w'))
            && w'.marks == PrunedMarks(w'.groups, marks, Removed(r, u))
  }

  lemma ReconciledKeepsShape(w: World, w': World, g: int, u: Update, now: int, evs: seq<StateEvent>)
    requires Shape(w) && g in w.groups && OneTagPerNode(w.groups[g].members) && Distinct(u.members)
    requires Reconciled(w, w', g, u, now, evs)
    ensures Shape(w')
  {
    hide RebuiltFor;
    assert RuntimeShape(g, w.groups[g]);
    forall t | t in w'.groups[g].members
      ensures w'.groups[g].members[t].tag == t && w'.groups[g].members[t].nodeId == u.members[t].nodeId
    {
      RebuildFacts(w.groups[g], w.marks, u, now, t);
    }
    forall h | h in w'.groups ensures RuntimeShape(h, w'.groups[h]) {
      assert h != g ==> RuntimeShape(h, w.groups[h]);
    }
  }

  // -------------------------------------------------------------------------------------------
  // Announcing the result
  // -------------------------------------------------------------------------------------------

  // The evictions a list of events stands for.
  function EventSources(evs: seq<StateEvent>, now: int): map<int, Source> {
    if evs == [] then map[]
    else
      var e := evs[|evs| - 1];
      var src := EventSources(evs[..|evs| - 1], now);
      if e.evicted && e.nodeId != 0 then src[e.nodeId := SourceOf(e, now)] else src
  }

  function SourceOf(e: StateEvent, now: int): Source {
    Source(if e.evictedAt.Some? then e.evictedAt.value else now, e.lastError)
  }

  // Events of one reconciliation of group `g`: stamped, one a node, and the evicted ones still evicted there.
  ghost predicate OwedEvents(w: World, g: int, evs: seq<StateEvent>, lo: int) {
    && lo <= w.clock
    && FreshEvents(evs, lo, w.clock)
    && (forall i :: 0 <= i < |evs| ==> evs[i].groupId == g)
    && (forall i :: 0 <= i < |evs| && evs[i].evicted && g in w.groups ==>
          forall t :: t in w.groups[g].members && w.groups[g].members[t].nodeId == evs[i].nodeId ==>
            w.groups[g].members[t].evicted)
  }

  /** NotifyEvents: every owed event is announced, and every eviction among them reaches every group. */
  ghost predicate Notified(w: World, w': World, g: int, evs: seq<StateEvent>, now: int, lo: int) {
    && Advances(w, w')
    && w'.marks == w.marks
    && w'.groups.Keys == w.groups.Keys
    && (forall h :: h in w.groups ==>
          EvictedIn(w.groups[h], w'.groups[h], EventSources(evs, now), w.clock, w'.clock))
    && AnnouncesNotified(w, w', g, evs, EventSources(evs, now), lo)
  }

  ghost predicate AnnouncesNotified(w: World, w': World, g: int, evs: seq<StateEvent>, src: map<int, Source>, lo: int)
    requires w.events <= w'.events && w.stamps <= w'.stamps && w'.groups.Keys == w.groups.Keys
  {
    var all := NewEvents(w, w');
    && FreshEvents(all, lo, w'.clock)
    && (forall i :: 0 <= i < |all| ==> all[i] in evs || Issued(all[i].revision) in NewStamps(w, w'))
    && (forall i :: 0 <= i < |evs| ==> evs[i] in all)
    && (forall i :: 0 <= i < |all| ==>
          all[i] in evs || (IsStrike(w, w', src, all[i]) && all[i].groupId != g))
    && (forall h, t :: h in w.groups && t in w.groups[h].members && t in w'.groups[h].members
                       && Struck(w.groups[h].members[t], src) ==>
          EventOf(h, w'.groups[h].members[t]) in all)
  }

  lemma StartNotifying(w: World, g: int, evs: seq<StateEvent>, now: int, lo: int)
    requires OwedEvents(w, g, evs, lo)
    ensures Notified(w, w, g, [], now, lo)
  {
  }

  /** One owed event: announced, and carried to the other groups when it is an eviction. */
  lemma NotifyStep(w: World, mid: World, w': World, g: int, evs: seq<StateEvent>, i: nat, now: int, lo: int)
    requires OwedEvents(w, g, evs, lo) && i < |evs|
    requires Notified(w, mid, g, evs[..i], now, lo)
    requires var logged := mid.(events := mid.events + [evs[i]]);
             if evs[i].evicted && evs[i].nodeId != 0
             then Propagated(logged, w', map[evs[i].nodeId := SourceOf(evs[i], now)])
             else w' == logged
    ensures Notified(w, w', g, evs[..i + 1], now, lo)
  {
    hide Advances, AnnouncesNotified, AnnouncesStruck, EvictedIn, OwedEvents;
    var e := evs[i];
    var logged := mid.(events := mid.events + [e]);
    var src := EventSources(evs[..i], now);
    assert evs[..i + 1][..i] == evs[..i] && evs[..i + 1][i] == e;
    LoggedAdvances(w, mid, e);
    NotifyLog(w, mid, g, evs, i, now, lo);
    if e.evicted && e.nodeId != 0 {
      NotifySpread(w, mid, w', g, evs, i, now, lo);
    }
  }

  lemma LoggedAdvances(w: World, mid: World, e: StateEvent)
    requires Advances(w, mid)
    ensures var logged := mid.(events := mid.events + [e]); Advances(w, logged) && Advances(mid, logged)
  {
  }

  // The eviction announced by an owed event reaches the other groups.
  lemma NotifySpread(w: World, mid: World, w': World, g: int, evs: seq<StateEvent>, i: nat, now: int, lo: int)
    requires OwedEvents(w, g, evs, lo) && i < |evs| && evs[i].evicted && evs[i].nodeId != 0
    requires Notified(w, mid, g, evs[..i], now, lo)
    requires Propagated(mid.(events := mid.events + [evs[i]]), w', map[evs[i].nodeId := SourceOf(evs[i], now)])
    ensures Notified(w, w', g, evs[..i + 1], now, lo)
  {
    hide Advances, AnnouncesNotified, AnnouncesStruck, EvictedIn;
    var e := evs[i];
    var logged := mid.(events := mid.events + [e]);
    var src := EventSources(evs[..i], now);
    var s := SourceOf(e, now);
    assert evs[..i + 1][..i] == evs[..i] && evs[..i + 1][i] == e;
    SourcesAreEvents(evs, i, now);
    LoggedAdvances(w, mid, e);
    NotifyLog(w, mid, g, evs, i, now, lo);
    AdvancesFurther(w, logged, w');
    AdvancesFacts(w, mid);
    AdvancesFacts(logged, w');
    forall h | h in w.groups
      ensures EvictedIn(w.groups[h], w'.groups[h], src[e.nodeId := s], w.clock, w'.clock)
    {
      EvictionsCompose(w.groups[h], mid.groups[h], w'.groups[h], src, e.nodeId, s, w.clock, mid.clock, w'.clock);
    }
    NotifyStruck(w, logged, w', g, evs[..i + 1], src, e.nodeId, s, lo);
  }

  // An owed event differs from everything announced before it: the strikes were stamped after the silent phase.
  lemma NotifiedBefore(w: World, mid: World, g: int, evs: seq<StateEvent>, i: nat, now: int, lo: int, e: StateEvent)
    requires OwedEvents(w, g, evs, lo) && i < |evs|
    requires Notified(w, mid, g, evs[..i], now, lo) && e in NewEvents(w, mid)
    ensures !SameKey(e, evs[i]) && e.revision != evs[i].revision
  {
  }

  lemma OwedInRange(w: World, g: int, evs: seq<StateEvent>, lo: int, i: nat)
    requires OwedEvents(w, g, evs, lo) && i < |evs|
    ensures lo < evs[i].revision <= w.clock
  {
  }

  lemma FreshMore(evs: seq<StateEvent>, e: StateEvent, lo: int, hi: int)
    requires FreshEvents(evs, lo, hi) && lo < e.revision <= hi
    requires forall i :: 0 <= i < |evs| ==> !SameKey(evs[i], e) && evs[i].revision != e.revision
    ensures FreshEvents(evs + [e], lo, hi)
  {
  }

  // Logging an event strikes nobody.
  lemma StrikeByGroups(w: World, mid: World, w': World, src: map<int, Source>, e: StateEvent)
    requires IsStrike(w, mid, src, e) && w'.groups == mid.groups
    ensures IsStrike(w, w', src, e)
  {
  }

  lemma NotifyLog(w: World, mid: World, g: int, evs: seq<StateEvent>, i: nat, now: int, lo: int)
    requires OwedEvents(w, g, evs, lo) && i < |evs|
    requires Notified(w, mid, g, evs[..i], now, lo)
    ensures w.events <= mid.events + [evs[i]] && w.stamps <= mid.stamps
    ensures AnnouncesNotified(w, mid.(events := mid.events + [evs[i]]), g, evs[..i + 1],
            EventSources(evs[..i], now), lo)
  {
    hide Outranks, EvictedIn, IsStrike, FreshEvents;
    OwedInRange(w, g, evs, lo, i);
    var all, e := NewEvents(w, mid), evs[i];
    var logged := mid.(events := mid.events + [e]);
    var all' := NewEvents(w, logged);
    assert all' == all + [e];
    SourcesAreEvents(evs, i, now);
    forall j | 0 <= j < |all| ensures !SameKey(all[j], e) && all[j].revision != e.revision {
      NotifiedBefore(w, mid, g, evs, i, now, lo, all[j]);
    }
    FreshMore(all, e, lo, mid.clock);
    forall j | 0 <= j < |all| && all[j] !in evs[..i]
      ensures IsStrike(w, logged, EventSources(evs[..i], now), all[j]) && all[j].groupId != g
    {
      StrikeByGroups(w, mid, logged, EventSources(evs[..i], now), all[j]);
    }
    var known, known' := evs[..i], evs[..i + 1];
    forall j | 0 <= j < |known'| ensures known'[j] in all' {
      if j < i {
        assert known[j] in all;
      }
    }
  }

  /** The propagation of one announced eviction, added to what was announced before. */
  lemma NotifyStruck(w: World, mid: World, w': World, g: int, evs: seq<StateEvent>, src: map<int, Source>,
                     n: int, s: Source, lo: int)
    requires Advances(w, mid) && Advances(mid, w') && lo <= mid.clock
    requires w.groups.Keys == mid.groups.Keys == w'.groups.Keys && n !in src
    requires AnnouncesNotified(w, mid, g, evs, src, lo) && AnnouncesStruck(mid, w', map[n := s], {})
    requires forall h :: h in w.groups ==> EvictedIn(w.groups[h], mid.groups[h], src, w.clock, mid.clock)
    requires forall h :: h in mid.groups ==> EvictedIn(mid.groups[h], w'.groups[h], map[n := s], mid.clock, w'.clock)
    requires g in w.groups ==> forall t :: t in w.groups[g].members && w.groups[g].members[t].nodeId == n ==>
               w.groups[g].members[t].evicted
    requires forall i :: 0 <= i < |evs| ==> evs[i].groupId == g
    ensures AnnouncesNotified(w, w', g, evs, src[n := s], lo)
  {
    hide EvictedIn, StampsAnnounced, Advances, IsStrike, FreshEvents;
    AdvancesFacts(w, mid);
    AdvancesFacts(mid, w');
    var a, b := NewEvents(w, mid), NewEvents(mid, w');
    assert NewEvents(w, w') == a + b;
    LaterStamps(w, mid, w');
    AnnouncedWereIssued(mid, w');
    forall j | 0 <= j < |b| ensures b[j].groupId != g && b[j].groupId in w.groups && b[j].nodeId == n {
      StruckElsewhere(w, mid, w', g, src, n, s, b[j]);
    }
    forall j | 0 <= j < |b| ensures IsStrike(w, w', src[n := s], b[j]) {
      StrikeIsNew(w, mid, w', src, n, s, b[j]);
    }
    forall k | 0 <= k < |a| && a[k] !in evs ensures IsStrike(w, w', src[n := s], a[k]) && a[k].nodeId in src {
      StrikeStays(w, mid, w', src, n, s, a[k]);
    }
    forall k, j | 0 <= k < |a| && 0 <= j < |b| ensures !SameKey(a[k], b[j]) {
      if a[k] in evs {
        var i :| 0 <= i < |evs| && a[k] == evs[i];
      }
    }
    FreshConcat(a, b, lo, mid.clock, w'.clock);
    forall h, t | h in w.groups && t in w.groups[h].members && t in w'.groups[h].members
                  && Struck(w.groups[h].members[t], src[n := s])
      ensures EventOf(h, w'.groups[h].members[t]) in a + b
    {
      StruckOnce(w.groups[h], mid.groups[h], w'.groups[h], t, src, n, s, w.clock, mid.clock, w'.clock);
      if w.groups[h].members[t].nodeId != n {
        assert EventOf(h, mid.groups[h].members[t]) in a;
      }
    }
  }

  // The reconciled group holds the node evicted already, so the propagation strikes other groups only.
  lemma StruckElsewhere(w: World, mid: World, w': World, g: int, src: map<int, Source>, n: int, s: Source,
                        e: StateEvent)
    requires w.groups.Keys == mid.groups.Keys == w'.groups.Keys
    requires forall h :: h in w.groups ==> EvictedIn(w.groups[h], mid.groups[h], src, w.clock, mid.clock)
    requires forall h :: h in mid.groups ==> EvictedIn(mid.groups[h], w'.groups[h], map[n := s], mid.clock, w'.clock)
    requires g in w.groups ==> forall t :: t in w.groups[g].members && w.groups[g].members[t].nodeId == n ==>
               w.groups[g].members[t].evicted
    requires IsStrike(mid, w', map[n := s], e)
    ensures e.groupId != g && e.groupId in w.groups && e.nodeId == n
  {
  }

  // Sources are the evicted events so far, and the next event is for another node.
  lemma {:induction false} SourcesAreEvents(evs: seq<StateEvent>, i: nat, now: int)
    requires i <= |evs|
    ensures forall n :: n in EventSources(evs[..i], now) <==>
              n != 0 && exists k :: 0 <= k < i && evs[k].nodeId == n && evs[k].evicted
  {
    if i > 0 {
      SourcesAreEvents(evs, i - 1, now);
      assert evs[..i][..i - 1] == evs[..i - 1];
    }
  }

  lemma ReconciledOwes(w: World, w': World, g: int, u: Update, now: int, evs: seq<StateEvent>)
    requires Shape(w) && g in w.groups && Distinct(u.members) && OneTagPerNode(w.groups[g].members)
    requires Reconciled(w, w', g, u, now, evs)
    ensures OwedEvents(w', g, evs, w.clock)
  {
    hide RebuiltFor, RebuiltStamps;
    ReconciledKeepsShape(w, w', g, u, now, evs);
    assert RuntimeShape(g, w'.groups[g]);
    var next := w'.groups[g].members;
    forall i | 0 <= i < |evs|
      ensures evs[i].groupId == g
      ensures evs[i].evicted ==> forall t :: t in next && next[t].nodeId == evs[i].nodeId ==> next[t].evicted
    {
      assert OwedBy(w.groups[g], g, w.marks, u, now, next, evs[i]);
      var s :| s in next && s in u.members && evs[i] == EventOf(g, next[s]);
    }
  }

  // -------------------------------------------------------------------------------------------
  // Choosing and reading the current member
  // -------------------------------------------------------------------------------------------

  /** SetCurrentTag: only the empty tag or a member that is neither standby nor evicted is accepted. */
  function SetCurrent(w: World, g: int, t: Tag): World {
    if g !in w.groups then w
    else
      var r := w.groups[g];
      if t != "" && (t !in r.members || r.members[t].standby || r.members[t].evicted) then w
      else w.(groups := w.groups[g := r.(currentTag := t)])
  }

  function PruneMember(r: Runtime, t: Tag, now: int): Runtime
    requires t in r.members
  {
    r.(members := r.members[t := Pruned(r.members[t], r.window, now)])
  }

  /** CurrentTag: the current member after pruning, dropped when it can no longer serve. */
  function ReadCurrent(w: World, g: int, now: int): (World, Tag) {
    if g !in w.groups then (w, "")
    else
      var r := w.groups[g];
      var t := r.currentTag;
      if t in r.members && !r.members[t].standby && !r.members[t].evicted then
        var r' := PruneMember(r, t, now);
        if r'.members[t].history == [] then (w.(groups := w.groups[g := r']), t)
        else (w.(groups := w.groups[g := r'.(currentTag := "")]), "")
      else (w.(groups := w.groups[g := r.(currentTag := "")]), "")
  }

  /** MemberAvailable: prunes a member that is not evicted and asks whether it may serve. */
  function ReadAvailable(w: World, g: int, t: Tag, now: int): (World, bool) {
    if g !in w.groups then (w, true)
    else
      var r := w.groups[g];
      if t !in r.members then (w, false)
      else
        var r' := if r.members[t].evicted then r else PruneMember(r, t, now);
        (w.(groups := w.groups[g := r']), MayServe(r'.members, t))
  }

  // What a probe does to a member that does not recognise it, the ring aside.
  predicate Counts(c: Config, m: Member, e: Event)
    requires IsProbe(e)
  {
    match e
    case ProbeSuccess(at, _) =>
      if !m.evicted then m.history != [] || m.streak != 0
      else if c.policy.enabled then Cooled(m, c.policy, at) else m.streak != 0
    case ProbeFailure(at, _, _) =>
      (m.history == [] || m.history[|m.history| - 1] != Unix(at)) && (m.evicted ==> m.streak != 0)
  }

  /** A reconciliation rebuilds its members without their replay rings.  A measurement that the member recognised, and
      ignored, is then applied a second time exactly in these cases: a success that clears a history, counts towards a
      recovery or ends a streak, and a failure that does not fall into the last second of the history and still has
      something to change. */
  lemma RebuiltAppliesReplayIff(c: Config, m: Member, t: Tag, i: Initial, marked: bool, policyChanged: bool, now: int,
                                e: Event, stamp: int)
    requires IsProbe(e) && e.probe != "" && e.probe in m.ring && StrictlyIncreasing(m.history)
    ensures Step(c, m, e, stamp) == m
    ensures var x := Rebuild(t, i, Some(m), marked, c.window, c.threshold, policyChanged, now).member;
            Step(c, x, e, stamp) != x.(ring := [e.probe]) <==> Counts(c, x, e)
  {
    var x := Rebuild(t, i, Some(m), marked, c.window, c.threshold, policyChanged, now).member;
    SurvivorsIncreasing(m.history, Cutoff(now, c.window));
    assert x.ring == [] && x.history == Survivors(m.history, Cutoff(now, c.window));
    hide Rebuild;
    UnrecognisedIff(c, x, e, stamp);
  }

  lemma UnrecognisedIff(c: Config, m: Member, e: Event, stamp: int)
    requires IsProbe(e) && e.probe != "" && m.ring == [] && StrictlyIncreasing(m.history)
    ensures Step(c, m, e, stamp) != m.(ring := [e.probe]) <==> Counts(c, m, e)
  {
    assert Offer(m.ring, e.probe) == [e.probe];
    if e.ProbeFailure? {
      LastSurvives(m.history, c.window, e.at);
    }
    hide Survivors, Offer, Cutoff, Unix, StrictlyIncreasing;
  }

  // In an increasing history the last survivor is the last entry.
  lemma LastSurvives(h: seq<int>, window: int, at: int)
    requires StrictlyIncreasing(h)
    ensures SameSecond(h, window, at) ==> h != [] && h[|h| - 1] == Unix(at)
    ensures !SameSecond(h, window, at) ==> AfterReport(h, window, at)[|AfterReport(h, window, at)| - 1] == Unix(at)
  {
    var kept := Survivors(h, Cutoff(at, window));
    if kept != [] {
      SurvivorsMembers(h, Cutoff(at, window), kept[|kept| - 1]);
      SurvivorsMembers(h, Cutoff(at, window), h[|h| - 1]);
      SurvivorsIncreasing(h, Cutoff(at, window));
      assert kept[|kept| - 1] in kept && h[|h| - 1] in h;
    }
  }
}
