/** What every operation of the group runtimes keeps, over whole runs: the groups agree about each node, the
    current member may serve, streaks belong to evicted members, and revisions only grow. */
module GroupInvariants {
  import opened Basics
  import opened ProbeRing
  import opened GroupMember
  import opened GroupWorld
  import opened GroupReconciliation

  /** Eviction is a fact about a node: every group holding it agrees with the global mark. */
  ghost predicate Agrees(w: World) {
    AgreesPending(w, {})
  }

  // Agreement once the nodes in `pending` have been evicted everywhere.
  ghost predicate AgreesPending(w: World, pending: set<int>) {
    forall g, t :: Holds(w, g, t) ==>
      var m := w.groups[g].members[t];
      (m.evicted || m.nodeId in pending) <==> m.nodeId in w.marks
  }

  // What holds between the silent phase of a reconciliation and its announcements.
  ghost predicate EvictedImpliesMarked(w: World) {
    forall g, t :: Holds(w, g, t) && w.groups[g].members[t].evicted ==> w.groups[g].members[t].nodeId in w.marks
  }

  predicate MemberSound(p: Policy, m: Member, clock: int) {
    && m.streak >= 0
    && (m.streak > 0 ==> m.evicted && m.streak < p.successThreshold)
    && (m.evicted ==> m.evictedAt.Some?)
    && ValidRing(m.ring)
    && m.revision <= clock
  }

  predicate CurrentSound(r: Runtime) {
    r.currentTag == "" || (r.currentTag in r.members && !r.members[r.currentTag].standby
        && !r.members[r.currentTag].evicted)
  }

  ghost predicate RuntimeSound(r: Runtime, clock: int) {
    && r.policy.successThreshold > 0
    && CurrentSound(r)
    && forall t :: t in r.members ==> MemberSound(r.policy, r.members[t], clock)
  }

  ghost predicate Sound(w: World) {
    forall g :: g in w.groups ==> RuntimeSound(w.groups[g], w.clock)
  }

  /** No announcement is ahead of the clock, no two carry the same revision, and those about one member carry
      growing ones. */
  ghost predicate EventsOrdered(w: World) {
    && (forall i :: 0 <= i < |w.events| ==> w.events[i].revision <= w.clock)
    && (forall i, j :: 0 <= i < j < |w.events| ==> w.events[i].revision != w.events[j].revision)
    && (forall i, j :: 0 <= i < j < |w.events| && SameKey(w.events[i], w.events[j]) ==>
          w.events[i].revision < w.events[j].revision)
  }

  ghost predicate Inv(w: World) {
    Shape(w) && Agrees(w) && Sound(w) && EventsOrdered(w)
  }

  // -------------------------------------------------------------------------------------------
  // Propagation
  // -------------------------------------------------------------------------------------------

  lemma OrderedAfter(w: World, w': World, lo: nat)
    requires EventsOrdered(w.(clock := lo)) && Advances(w, w') && FreshEvents(NewEvents(w, w'), lo, w'.clock)
    requires lo <= w'.clock
    ensures EventsOrdered(w')
  {
  }

  lemma EvictedStaysSound(r: Runtime, r': Runtime, src: map<int, Source>, lo: int, hi: int)
    requires RuntimeSound(r, lo) && EvictedIn(r, r', src, lo, hi) && lo <= hi
    ensures RuntimeSound(r', hi)
  {
  }

  lemma PropagationSettles(w: World, w': World, src: map<int, Source>)
    requires Shape(w) && Sound(w) && EventsOrdered(w) && Propagated(w, w', src)
    requires AgreesPending(w, src.Keys)
    ensures Inv(w')
  {
    PropagationKeepsShape(w, w', src);
    OrderedAfter(w, w', w.clock);
    forall g | g in w'.groups ensures RuntimeSound(w'.groups[g], w'.clock) {
      EvictedStaysSound(w.groups[g], w'.groups[g], src, w.clock, w'.clock);
    }
    forall g, t | Holds(w', g, t)
      ensures var m := w'.groups[g].members[t]; m.evicted <==> m.nodeId in w'.marks
    {
      assert EvictedIn(w.groups[g], w'.groups[g], src, w.clock, w'.clock);
      assert Holds(w, g, t) && StruckTo(w.groups[g].members[t], w'.groups[g].members[t], src, w.clock, w'.clock);
    }
  }

  // Agreement but for node `n`, which is unmarked and free in `origin`.
  ghost predicate AgreesFreeing(w: World, n: int, origin: int) {
    && n !in w.marks
    && forall g, t :: Holds(w, g, t) ==>
         var m := w.groups[g].members[t];
         if m.nodeId == n then g == origin ==> !m.evicted
         else m.evicted <==> m.nodeId in w.marks
  }

  lemma FreedStaysSound(r: Runtime, r': Runtime, n: int, scope: Scope, lo: int, hi: int)
    requires RuntimeSound(r, lo) && FreedIn(r, r', n, scope, lo, hi) && lo <= hi
    ensures RuntimeSound(r', hi)
  {
  }

  lemma FreeingSettles(w: World, w': World, n: int, scope: Scope, origin: int)
    requires Shape(w) && Sound(w) && EventsOrdered(w) && FreedEverywhere(w, w', n, scope, origin)
    requires AgreesFreeing(w, n, origin)
    ensures Inv(w')
  {
    FreeingKeepsShape(w, w', n, scope, origin);
    OrderedAfter(w, w', w.clock);
    forall g | g in w'.groups ensures RuntimeSound(w'.groups[g], w'.clock) {
      if g != origin {
        FreedStaysSound(w.groups[g], w'.groups[g], n, scope, w.clock, w'.clock);
      } else {
        assert RuntimeSound(w.groups[g], w.clock);
      }
    }
    forall g, t | Holds(w', g, t)
      ensures var m := w'.groups[g].members[t]; m.evicted <==> m.nodeId in w'.marks
    {
      if g != origin {
        assert FreedIn(w.groups[g], w'.groups[g], n, scope, w.clock, w'.clock);
        assert Holds(w, g, t) && FreedTo(w.groups[g].members[t], w'.groups[g].members[t], n, scope, w.clock, w'.clock);
      } else {
        assert Holds(w, g, t);
      }
    }
  }

  // -------------------------------------------------------------------------------------------
  // Reports
  // -------------------------------------------------------------------------------------------

  // How an outcome relates to the member it came from, before anything is carried to other groups.
  ghost predicate FairOutcome(p: Policy, m: Member, out: Outcome, clock: nat) {
    var stamped := if out.effect.Silent? then clock else clock + 1;
    && out.member.tag == m.tag && out.member.nodeId == m.nodeId && out.member.standby == m.standby
    && MemberSound(p, out.member, stamped)
    && match out.effect
       case Evicted => !m.evicted && out.member.evicted && out.member.revision == clock + 1
       case Readmitted => m.evicted && !out.member.evicted
       case Suspected => !m.evicted && !out.member.evicted && out.member.revision == clock + 1
       case _ => m.evicted == out.member.evicted
  }

  lemma FailureIsFair(p: Policy, m: Member, window: int, threshold: int, at: int, cause: Option<string>, clock: nat)
    requires MemberSound(p, m, clock)
    ensures FairOutcome(p, m, OnFailure(m, window, threshold, at, cause, clock + 1), clock)
  {
  }

  lemma ProbeFailureIsFair(p: Policy, m: Member, window: int, threshold: int, probe: ProbeId, at: int,
                           cause: Option<string>, clock: nat)
    requires MemberSound(p, m, clock)
    ensures FairOutcome(p, m, OnProbeFailure(m, window, threshold, probe, at, cause, clock + 1), clock)
  {
    OfferKeepsValid(m.ring, probe);
    var offered := m.(ring := Offer(m.ring, probe));
    FailureIsFair(p, offered, window, threshold, at, cause, clock);
  }

  lemma SuccessIsFair(p: Policy, m: Member, probe: ProbeId, now: int, clock: nat)
    requires MemberSound(p, m, clock)
    ensures FairOutcome(p, m, OnProbeSuccess(m, p, probe, now, clock + 1), clock)
  {
  }

  /** The origin after a fair outcome: sound and ordered, and in agreement but for the node itself. */
  lemma OriginSettles(w: World, g: int, t: Tag, out: Outcome)
    requires Inv(w) && Holds(w, g, t) && FairOutcome(w.groups[g].policy, w.groups[g].members[t], out, w.clock)
    ensures var w' := Origin(w, g, t, out);
            && Shape(w') && Sound(w') && EventsOrdered(w')
            && (out.effect.Silent? || out.effect.Suspected? || out.effect.Trusted? ==> Agrees(w'))
            && (out.effect.Evicted? ==>
                  AgreesPending(w'.(marks := w'.marks + {out.member.nodeId}), {out.member.nodeId}))
            && (out.effect.Readmitted? ==>
                  AgreesFreeing(w'.(marks := w'.marks - {out.member.nodeId}), out.member.nodeId, g))
  {
    hide Advances, RuntimeShape, RuntimeSound;
    var w' := Origin(w, g, t, out);
    MemberShape(w, g, t);
    OriginAdvances(w, g, t, out);
    AdvancesFacts(w, w');
    OriginKeepsShape(w, g, t, out);
    OriginSound(w, g, t, out);
    OrderedAfter(w, w', w.clock);
    OriginMembers(w, g, t, out);
  }

  lemma OriginMembers(w: World, g: int, t: Tag, out: Outcome)
    requires Shape(w) && Holds(w, g, t)
    ensures var w' := Origin(w, g, t, out);
            && w'.marks == w.marks
            && (forall h, s :: Holds(w', h, s) <==> Holds(w, h, s))
            && (forall h, s :: Holds(w', h, s) ==>
                  w'.groups[h].members[s] == if h == g && s == t then out.member else w.groups[h].members[s])
            && (forall s :: Holds(w, g, s) && w.groups[g].members[s].nodeId == w.groups[g].members[t].nodeId ==> s == t)
  {
  }

  lemma OriginSound(w: World, g: int, t: Tag, out: Outcome)
    requires Shape(w) && Sound(w) && Holds(w, g, t)
    requires FairOutcome(w.groups[g].policy, w.groups[g].members[t], out, w.clock)
    ensures Sound(Origin(w, g, t, out))
  {
  }

  lemma ReportKeepsInv(w: World, w': World, g: int, t: Tag, out: Outcome)
    requires Inv(w) && Holds(w, g, t) && FairOutcome(w.groups[g].policy, w.groups[g].members[t], out, w.clock)
    requires !out.effect.Readmitted? && Reported(w, w', g, t, out)
    ensures Inv(w')
  {
    OriginSettles(w, g, t, out);
    var mid := Origin(w, g, t, out);
    if out.effect.Evicted? {
      var n := out.member.nodeId;
      var src := map[n := Source(out.member.evictedAt.value, out.member.lastError)];
      assert src.Keys == {n};
      PropagationSettles(mid.(marks := mid.marks + {n}), w', src);
    }
  }

  lemma SuccessKeepsInv(w: World, w': World, g: int, t: Tag, out: Outcome)
    requires Inv(w) && Holds(w, g, t) && FairOutcome(w.groups[g].policy, w.groups[g].members[t], out, w.clock)
    requires !out.effect.Evicted? && Succeeded(w, w', g, t, out)
    ensures Inv(w')
  {
    OriginSettles(w, g, t, out);
    var mid := Origin(w, g, t, out);
    if out.effect.Readmitted? {
      FreeingSettles(mid.(marks := mid.marks - {out.member.nodeId}), w', out.member.nodeId, EvictedOnly, g);
    }
  }

  lemma RestoreKeepsInv(w: World, w': World, n: int)
    requires Inv(w) && FreedEverywhere(w.(marks := w.marks - {n}), w', n, Everyone, 0)
    ensures Inv(w')
  {
    assert 0 !in w.groups;
    FreeingSettles(w.(marks := w.marks - {n}), w', n, Everyone, 0);
  }

  // -------------------------------------------------------------------------------------------
  // Registration
  // -------------------------------------------------------------------------------------------

  lemma RegisterKeepsInv(w: World, w': World, g: int, window: int, threshold: int, preferred: Tag,
                         members: map<Tag, Initial>, policy: Policy, now: int)
    requires Inv(w) && g != 0 && Distinct(members) && policy.successThreshold > 0
    requires var r := RegisteredRuntime(g, window, threshold, preferred,
                                        RegisteredMembers(members, w.marks + EvictedNodes(members), now), policy);
             && OneTagPerNode(r.members)
             && (forall t :: t in r.members && r.members[t].evicted ==> r.members[t].evictedAt.Some?)
             && Installed(w, w', g, r, members)
    ensures Inv(w')
  {
    var marks := w.marks + EvictedNodes(members);
    var built := RegisteredMembers(members, marks, now);
    var r := RegisteredRuntime(g, window, threshold, preferred, built, policy);
    var src := SourcesOf(built, {});
    RegisteredSources(members, w.marks, now);
    hide Propagated, RegisteredMembers, EvictedNodes, SourcesOf, RegisteredRuntime;
    var clock: nat, restored :| Raised(w.clock, clock, members, restored)
                               && Propagated(World(w.groups[g := r], marks, clock, w.events, w.stamps + restored),
                                  w', src);
    var mid := World(w.groups[g := r], marks, clock, w.events, w.stamps + restored);
    RegisteredSettles(w, g, window, threshold, preferred, members, policy, now, clock, restored);
    PropagationSettles(mid, w', src);
  }

  // The world with the new runtime installed and its evictions marked, before they are carried anywhere.
  lemma RegisteredSettles(w: World, g: int, window: int, threshold: int, preferred: Tag, members: map<Tag, Initial>,
                          policy: Policy, now: int, clock: nat, restored: seq<Stamp>)
    requires Inv(w) && g != 0 && Distinct(members) && policy.successThreshold > 0
    requires Raised(w.clock, clock, members, restored)
    ensures
      var marks := w.marks + EvictedNodes(members);
      var built := RegisteredMembers(members, marks, now);
      var mid := World(w.groups[g := RegisteredRuntime(g, window, threshold, preferred, built, policy)], marks, clock,
                       w.events, w.stamps + restored);
      && OneTagPerNode(built)
      && (forall t :: t in built && built[t].evicted ==> built[t].evictedAt.Some?)
      && Shape(mid) && Sound(mid) && EventsOrdered(mid)
      && AgreesPending(mid, SourcesOf(built, {}).Keys)
  {
    var marks := w.marks + EvictedNodes(members);
    var built := RegisteredMembers(members, marks, now);
    var r := RegisteredRuntime(g, window, threshold, preferred, built, policy);
    var mid := World(w.groups[g := r], marks, clock, w.events, w.stamps + restored);
    RestoredShape(w, g, r, members, marks, now);
    RegisteredSources(members, w.marks, now);
    RegisteredSound(w, g, window, threshold, preferred, members, policy, now, clock, restored);
    hide RegisteredMembers, EvictedNodes, SourcesOf, RuntimeSound, RuntimeShape, RegisteredRuntime, Raised;
    assert r.members == built;
    forall h, t | Holds(mid, h, t)
      ensures var m := mid.groups[h].members[t];
              (m.evicted || m.nodeId in SourcesOf(built, {}).Keys) <==> m.nodeId in mid.marks
    {
      if h != g {
        assert Holds(w, h, t);
      }
    }
  }

  lemma RegisteredSound(w: World, g: int, window: int, threshold: int, preferred: Tag, members: map<Tag, Initial>,
                        policy: Policy, now: int, clock: nat, restored: seq<Stamp>)
    requires Sound(w) && EventsOrdered(w) && Distinct(members) && policy.successThreshold > 0
    requires Raised(w.clock, clock, members, restored)
    ensures
      var built := RegisteredMembers(members, w.marks + EvictedNodes(members), now);
      var mid := World(w.groups[g := RegisteredRuntime(g, window, threshold, preferred, built, policy)],
                       w.marks + EvictedNodes(members), clock, w.events, w.stamps + restored);
      Sound(mid) && EventsOrdered(mid)
  {
    var built := RegisteredMembers(members, w.marks + EvictedNodes(members), now);
    assert forall t :: t in built ==> MemberSound(policy, built[t], clock);
    assert w.clock <= clock;
    hide RegisteredMembers, EvictedNodes, Raised;
    forall h | h in w.groups ensures RuntimeSound(w.groups[h], clock) {
      assert RuntimeSound(w.groups[h], w.clock);
      assert forall t :: t in w.groups[h].members ==> MemberSound(w.groups[h].policy, w.groups[h].members[t], clock);
    }
  }

  // The evictions a registration carries are those of its marked nodes, persisted evictions included.
  lemma RegisteredSources(members: map<Tag, Initial>, before: set<int>, now: int)
    requires Distinct(members)
    ensures var built := RegisteredMembers(members, before + EvictedNodes(members), now);
            && OneTagPerNode(built)
            && (forall t :: t in built && built[t].evicted ==> built[t].evictedAt.Some?)
            && (forall n :: n in SourcesOf(built, {}) ==> n in before + EvictedNodes(members))
            && (forall n :: n in EvictedNodes(members) ==> n in SourcesOf(built, {}))
            && (forall t :: t in built ==> (built[t].nodeId in SourcesOf(built, {}) <==> built[t].evicted))
            && (forall t :: t in built ==> (built[t].evicted <==> built[t].nodeId in before + EvictedNodes(members)))
  {
  }

  // -------------------------------------------------------------------------------------------
  // Reconciliation
  // -------------------------------------------------------------------------------------------

  // Newcomers restored as evicted must already be marked: the source evicts them without marking the node.
  ghost predicate NewcomersMarked(w: World, g: int, u: Update) {
    g in w.groups ==>
      forall t :: t in u.members && u.members[t].evicted
                  && (forall s :: s in w.groups[g].members ==> w.groups[g].members[s].nodeId != u.members[t].nodeId) ==>
        u.members[t].nodeId in w.marks
  }

  ghost predicate CarriedEvicted(r: Runtime, u: Update, t: Tag)
    requires OneTagPerNode(r.members) && t in u.members
  {
    var prior := OldMember(r, u.members[t].nodeId);
    if prior.Some? then prior.value.evicted else u.members[t].evicted
  }

  // The eviction, dating and streak of a rebuilt member.
  lemma RebuildEvicts(r: Runtime, marks: set<int>, u: Update, now: int, t: Tag, clock: int)
    requires OneTagPerNode(r.members) && t in u.members && RuntimeSound(r, clock)
    ensures
      var b := RebuiltFor(r, marks, u, now, t);
      && (b.member.evicted <==> CarriedEvicted(r, u, t) || u.members[t].nodeId in marks || b.newlyEvicted)
      && (b.newlyEvicted ==> b.announce && !CarriedEvicted(r, u, t) && u.members[t].nodeId !in marks)
      && MemberSound(PolicyOf(r, u), b.member.(revision := clock), clock)
      && (!b.restored ==> b.member.revision <= clock)
  {
    hide Rebuild;
    var i := u.members[t];
    var prior := OldMember(r, i.nodeId);
    if prior.Some? {
      assert MemberSound(r.policy, prior.value, clock);
    }
    CarrySound(t, i, prior, i.nodeId in marks, WindowOf(u), ThresholdOf(u), r.policy, PolicyOf(r, u), now, clock);
  }

  lemma CarrySound(t: Tag, i: Initial, prior: Option<Member>, marked: bool, window: int, threshold: int,
                   p: Policy, p': Policy, now: int, clock: int)
    requires prior.Some? ==> MemberSound(p, prior.value, clock)
    ensures
      var b := Rebuild(t, i, prior, marked, window, threshold, p' != p, now);
      var carried := if prior.Some? then prior.value.evicted else i.evicted;
      && (b.member.evicted <==> carried || marked || b.newlyEvicted)
      && (b.newlyEvicted ==> b.announce && !carried && !marked)
      && MemberSound(p', b.member.(revision := clock), clock)
      && (!b.restored ==> b.member.revision <= clock)
  {
  }

  lemma ReconciledSound(w: World, w': World, g: int, u: Update, now: int, evs: seq<StateEvent>)
    requires Inv(w) && g in w.groups && Distinct(u.members) && OneTagPerNode(w.groups[g].members)
    requires Reconciled(w, w', g, u, now, evs)
    ensures Shape(w') && Sound(w') && EventsOrdered(w') && w'.clock >= w.clock
  {
    hide RebuiltFor, RuntimeSound, RuntimeShape, RebuiltStamps, OwedBy, PrunedMarks, CurrentAfter, FreshEvents,
      RebuiltTo;
    ReconciledKeepsShape(w, w', g, u, now, evs);
    ReconciledOwn(w, w', g, u, now, evs);
    forall h | h in w'.groups ensures RuntimeSound(w'.groups[h], w'.clock) {
      if h != g {
        SoundLater(w.groups[h], w.clock, w'.clock);
      }
    }
  }

  lemma SoundLater(r: Runtime, clock: int, clock': int)
    requires RuntimeSound(r, clock) && clock <= clock'
    ensures RuntimeSound(r, clock')
  {
    assert forall t :: t in r.members ==> MemberSound(r.policy, r.members[t], clock');
  }

  // The rebuilt group itself.
  lemma ReconciledOwn(w: World, w': World, g: int, u: Update, now: int, evs: seq<StateEvent>)
    requires Inv(w) && g in w.groups && Distinct(u.members) && OneTagPerNode(w.groups[g].members)
    requires Reconciled(w, w', g, u, now, evs)
    ensures RuntimeSound(w'.groups[g], w'.clock)
  {
    hide RebuiltFor, RebuiltStamps, OwedBy, PrunedMarks, FreshEvents, Shape, EventsOrdered;
    var r, r' := w.groups[g], w'.groups[g];
    assert RuntimeSound(r, w.clock);
    forall t | t in r'.members ensures MemberSound(r'.policy, r'.members[t], w'.clock) {
      RebuildEvicts(r, w.marks, u, now, t, w.clock);
      assert RebuiltTo(r'.members[t], RebuiltFor(r, w.marks, u, now, t), w.clock, w'.clock);
    }
  }

  // The event announces the state of one of the members.
  predicate TellsOf(members: map<Tag, Member>, g: int, e: StateEvent) {
    exists t :: t in members && e == EventOf(g, members[t])
  }

  // The rebuilt group by tag: who is evicted, who is newly marked, and which node each event is about.
  lemma ReconciledFacts(w: World, w': World, g: int, u: Update, now: int, evs: seq<StateEvent>)
    requires Inv(w) && g in w.groups && Distinct(u.members) && OneTagPerNode(w.groups[g].members)
    requires Reconciled(w, w', g, u, now, evs)
    ensures
      var r, next := w.groups[g], w'.groups[g].members;
      && next.Keys == u.members.Keys
      && (forall t :: t in next ==> next[t].nodeId == u.members[t].nodeId)
      && (forall t :: t in next ==>
            (next[t].evicted <==> CarriedEvicted(r, u, t) || u.members[t].nodeId in w.marks
                                  || u.members[t].nodeId in Newly(r, w.marks, u, now, {})))
      && (forall t :: t in next && u.members[t].nodeId in Newly(r, w.marks, u, now, {}) ==>
            !CarriedEvicted(r, u, t) && u.members[t].nodeId !in w.marks && EventOf(g, next[t]) in evs)
      && (forall i :: 0 <= i < |evs| ==> TellsOf(next, g, evs[i]))
  {
    hide RebuiltFor;
    var r, next := w.groups[g], w'.groups[g].members;
    assert RuntimeSound(r, w.clock);
    forall t | t in next
      ensures u.members[t].nodeId in Newly(r, w.marks, u, now, {}) <==> RebuiltFor(r, w.marks, u, now, t).newlyEvicted
    {
      NewlyOnce(r, w.marks, u, now, t);
    }
    forall t | t in next
      ensures next[t].nodeId == u.members[t].nodeId
      ensures var b := RebuiltFor(r, w.marks, u, now, t);
              && (next[t].evicted <==> CarriedEvicted(r, u, t) || u.members[t].nodeId in w.marks || b.newlyEvicted)
              && (b.newlyEvicted ==> b.announce && !CarriedEvicted(r, u, t) && u.members[t].nodeId !in w.marks)
    {
      RebuildEvicts(r, w.marks, u, now, t, w.clock);
      RebuildFacts(r, w.marks, u, now, t);
      assert RebuiltTo(next[t], RebuiltFor(r, w.marks, u, now, t), w.clock, w'.clock);
    }
    forall i | 0 <= i < |evs| ensures TellsOf(next, g, evs[i]) {
      assert OwedBy(r, g, w.marks, u, now, next, evs[i]);
    }
  }

  lemma NewlyOnce(r: Runtime, marks: set<int>, u: Update, now: int, t: Tag)
    requires OneTagPerNode(r.members) && Distinct(u.members) && t in u.members
    ensures u.members[t].nodeId in Newly(r, marks, u, now, {}) <==> RebuiltFor(r, marks, u, now, t).newlyEvicted
  {
  }

  lemma CarriedAgrees(w: World, g: int, u: Update, t: Tag)
    requires Inv(w) && g in w.groups && OneTagPerNode(w.groups[g].members) && t in u.members
    requires NewcomersMarked(w, g, u)
    ensures CarriedEvicted(w.groups[g], u, t) ==> u.members[t].nodeId in w.marks
  {
  }

  /** The rebuilt group in terms of nodes: evicted are the nodes marked before and the newly evicted ones. */
  ghost predicate RebuiltGroup(w: World, w': World, g: int, u: Update, evs: seq<StateEvent>, newly: set<int>)
    requires g in w.groups && g in w'.groups
  {
    var next := w'.groups[g].members;
    && w'.groups == w.groups[g := w'.groups[g]]
    && OneTagPerNode(next)
    && next.Keys == u.members.Keys
    && w'.marks == PrunedMarks(w'.groups, w.marks + newly, Removed(w.groups[g], u))
    && (forall t :: t in next ==> next[t].nodeId == u.members[t].nodeId)
    && (forall t :: t in next ==> (next[t].evicted <==> next[t].nodeId in w.marks + newly))
    && (forall n :: n in newly ==> exists t :: t in next && next[t].nodeId == n && EventOf(g, next[t]) in evs)
    && (forall i :: 0 <= i < |evs| ==> TellsOf(next, g, evs[i]))
  }

  lemma ReconciledGroup(w: World, w': World, g: int, u: Update, now: int, evs: seq<StateEvent>)
    requires Inv(w) && g in w.groups && Distinct(u.members) && OneTagPerNode(w.groups[g].members)
    requires Reconciled(w, w', g, u, now, evs) && NewcomersMarked(w, g, u)
    ensures RebuiltGroup(w, w', g, u, evs, Newly(w.groups[g], w.marks, u, now, {}))
  {
    hide RebuiltFor, CarriedEvicted, Newly, Inv, NewcomersMarked, TellsOf, PrunedMarks, Shape, RuntimeShape;
    ReconciledRest(w, w', g, u, now, evs);
    hide Reconciled;
    var r, next := w.groups[g], w'.groups[g].members;
    var newly := Newly(r, w.marks, u, now, {});
    ReconciledFacts(w, w', g, u, now, evs);
    forall t | t in next ensures next[t].evicted <==> next[t].nodeId in w.marks + newly {
      CarriedAgrees(w, g, u, t);
    }
    forall n | n in newly ensures exists t :: t in next && next[t].nodeId == n && EventOf(g, next[t]) in evs {
      var t := NewlyOf(r, w.marks, u, now, n);
      assert t in next && next[t].nodeId == n;
    }
  }

  lemma NewlyOf(r: Runtime, marks: set<int>, u: Update, now: int, n: int) returns (t: Tag)
    requires OneTagPerNode(r.members) && n in Newly(r, marks, u, now, {})
    ensures t in u.members && u.members[t].nodeId == n
  {
    hide RebuiltFor;
    t :| t in u.members && u.members[t].nodeId == n;
  }

  // What a reconciliation leaves to other groups, to the shape and to the marks.
  lemma ReconciledRest(w: World, w': World, g: int, u: Update, now: int, evs: seq<StateEvent>)
    requires Inv(w) && g in w.groups && Distinct(u.members) && OneTagPerNode(w.groups[g].members)
    requires Reconciled(w, w', g, u, now, evs)
    ensures g in w'.groups && w'.groups == w.groups[g := w'.groups[g]] && OneTagPerNode(w'.groups[g].members)
    ensures w'.marks == PrunedMarks(w'.groups, w.marks + Newly(w.groups[g], w.marks, u, now, {}),
            Removed(w.groups[g], u))
  {
    hide RebuiltFor, PrunedMarks, RebuiltStamps;
    ReconciledKeepsShape(w, w', g, u, now, evs);
    assert RuntimeShape(g, w'.groups[g]);
  }

  /** After the silent phase: the owed events are exactly what still separates the groups from the marks. */
  lemma ReconciledPending(w: World, w': World, g: int, u: Update, evs: seq<StateEvent>, newly: set<int>, now: int)
    requires Agrees(w) && g in w.groups && g in w'.groups && RebuiltGroup(w, w', g, u, evs, newly)
    requires forall t :: t in u.members ==> u.members[t].nodeId != 0
    ensures AgreesPending(w', EventSources(evs, now).Keys)
    ensures EvictedImpliesMarked(w')
  {
    var next := w'.groups[g].members;
    var src := EventSources(evs, now);
    SourcesAreEvents(evs, |evs|, now);
    assert evs[..|evs|] == evs;
    forall n | n in src ensures exists t :: t in next && next[t].nodeId == n && next[t].evicted {
      var k :| 0 <= k < |evs| && evs[k].nodeId == n && evs[k].evicted;
      assert TellsOf(next, g, evs[k]);
      var t :| t in next && evs[k] == EventOf(g, next[t]);
    }
    forall n | n in newly ensures n in src {
      var t :| t in next && next[t].nodeId == n && EventOf(g, next[t]) in evs;
      var k :| 0 <= k < |evs| && evs[k] == EventOf(g, next[t]);
      assert evs[k].nodeId == n && evs[k].evicted;
    }
    forall t | t in next ensures next[t].nodeId in w'.marks <==> next[t].nodeId in w.marks + newly {
      assert u.members[t].nodeId !in Removed(w.groups[g], u);
    }
    forall h, t | Holds(w', h, t)
      ensures var m := w'.groups[h].members[t]; (m.evicted || m.nodeId in src.Keys) <==> m.nodeId in w'.marks
    {
      var m := w'.groups[h].members[t];
      if h == g {
        if m.nodeId in src {
          var s :| s in next && next[s].nodeId == m.nodeId && next[s].evicted;
          assert s == t;
        }
      } else {
        assert Holds(w, h, t) && w.groups[h].members[t] == m;
        if m.nodeId in src {
          var s :| s in next && next[s].nodeId == m.nodeId && next[s].evicted;
          assert next[s].nodeId in w'.marks;
        }
        if m.evicted {
          assert EvictedSomewhere(w'.groups, m.nodeId);
        }
      }
    }
  }

  /** A reconciliation with its announcements keeps the invariant when its evicted newcomers are marked. */
  lemma ReconcileKeepsInv(w: World, mid: World, w': World, g: int, u: Update, now: int, evs: seq<StateEvent>)
    requires Inv(w) && g in w.groups && Distinct(u.members) && OneTagPerNode(w.groups[g].members)
    requires Reconciled(w, mid, g, u, now, evs) && Notified(mid, w', g, evs, now, w.clock)
    requires NewcomersMarked(w, g, u)
    ensures EvictedImpliesMarked(mid)
    ensures Inv(w')
  {
    ReconciledSound(w, mid, g, u, now, evs);
    ReconciledGroup(w, mid, g, u, now, evs);
    ReconciledPending(w, mid, g, u, evs, Newly(w.groups[g], w.marks, u, now, {}), now);
    assert mid.events == w.events && EventsOrdered(mid.(clock := w.clock));
    hide Reconciled, RebuiltGroup, Newly;
    NotifiedSettles(mid, w', g, evs, now, w.clock);
  }

  lemma NotifiedSettles(w: World, w': World, g: int, evs: seq<StateEvent>, now: int, lo: nat)
    requires Shape(w) && Sound(w) && EventsOrdered(w.(clock := lo)) && lo <= w.clock
    requires Notified(w, w', g, evs, now, lo)
    requires AgreesPending(w, EventSources(evs, now).Keys)
    ensures Inv(w')
  {
    var src := EventSources(evs, now);
    OrderedAfter(w, w', lo);
    forall h | h in w'.groups ensures RuntimeShape(h, w'.groups[h]) && RuntimeSound(w'.groups[h], w'.clock) {
      EvictedKeepsShape(h, w.groups[h], w'.groups[h], src, w.clock, w'.clock);
      EvictedStaysSound(w.groups[h], w'.groups[h], src, w.clock, w'.clock);
    }
    forall h, t | Holds(w', h, t)
      ensures var m := w'.groups[h].members[t]; m.evicted <==> m.nodeId in w'.marks
    {
      assert EvictedIn(w.groups[h], w'.groups[h], src, w.clock, w'.clock);
      assert Holds(w, h, t) && StruckTo(w.groups[h].members[t], w'.groups[h].members[t], src, w.clock, w'.clock);
    }
  }

  /** The condition is exact: the groups agree after a reconciliation if and only if every newcomer that
      persisted state calls evicted was marked already. */
  lemma ReconcileAgreesIff(w: World, mid: World, w': World, g: int, u: Update, now: int, evs: seq<StateEvent>)
    requires Inv(w) && g in w.groups && Distinct(u.members) && OneTagPerNode(w.groups[g].members)
    requires Reconciled(w, mid, g, u, now, evs) && Notified(mid, w', g, evs, now, w.clock)
    ensures Agrees(w') <==> NewcomersMarked(w, g, u)
  {
    if NewcomersMarked(w, g, u) {
      ReconcileKeepsInv(w, mid, w', g, u, now, evs);
    } else {
      UnmarkedNewcomerDisagrees(w, mid, w', g, u, now, evs);
    }
  }

  lemma UnmarkedNewcomerDisagrees(w: World, mid: World, w': World, g: int, u: Update, now: int, evs: seq<StateEvent>)
    requires Inv(w) && g in w.groups && Distinct(u.members) && OneTagPerNode(w.groups[g].members)
    requires Reconciled(w, mid, g, u, now, evs) && Notified(mid, w', g, evs, now, w.clock)
    requires !NewcomersMarked(w, g, u)
    ensures !Agrees(w')
  {
    hide Reconciled, AnnouncesNotified, Advances, EventSources, EvictedIn, Inv;
    var t :| t in u.members && u.members[t].evicted && u.members[t].nodeId !in w.marks
             && forall s :: s in w.groups[g].members ==> w.groups[g].members[s].nodeId != u.members[t].nodeId;
    NewcomerUnmarked(w, mid, g, u, now, evs, t);
    EvictedStays(mid.groups[g], w'.groups[g], EventSources(evs, now), mid.clock, w'.clock, t);
    assert Holds(w', g, t);
  }

  lemma NewcomerUnmarked(w: World, mid: World, g: int, u: Update, now: int, evs: seq<StateEvent>, t: Tag)
    requires Inv(w) && g in w.groups && Distinct(u.members) && OneTagPerNode(w.groups[g].members)
    requires Reconciled(w, mid, g, u, now, evs)
    requires t in u.members && u.members[t].evicted && u.members[t].nodeId !in w.marks
    requires forall s :: s in w.groups[g].members ==> w.groups[g].members[s].nodeId != u.members[t].nodeId
    ensures Holds(mid, g, t) && mid.groups[g].members[t].evicted && mid.groups[g].members[t].nodeId !in mid.marks
  {
    hide RebuiltFor, FreshEvents, RebuiltStamps, OwedBy;
    ReconciledFacts(w, mid, g, u, now, evs);
    assert CarriedEvicted(w.groups[g], u, t);
  }

  lemma EvictedStays(r: Runtime, r': Runtime, src: map<int, Source>, lo: int, hi: int, t: Tag)
    requires EvictedIn(r, r', src, lo, hi) && t in r.members && r.members[t].evicted
    ensures t in r'.members && r'.members[t] == r.members[t]
  {
  }

  // -------------------------------------------------------------------------------------------
  // Reads and whole runs
  // -------------------------------------------------------------------------------------------

  lemma PruneKeepsInv(w: World, g: int, t: Tag, now: int, current: Tag)
    requires Inv(w) && Holds(w, g, t) && !w.groups[g].members[t].evicted
    requires current == w.groups[g].currentTag || current == ""
    ensures Inv(w.(groups := w.groups[g := PruneMember(w.groups[g], t, now).(currentTag := current)]))
  {
    var m := w.groups[g].members[t];
    var out := Outcome(Pruned(m, w.groups[g].window, now), Silent);
    assert MemberSound(w.groups[g].policy, m, w.clock) by {
      assert RuntimeSound(w.groups[g], w.clock);
    }
    OriginSettles(w, g, t, out);
    var mid := Origin(w, g, t, out);
    DropCurrentKeepsInv(mid, g, current);
    var r := PruneMember(w.groups[g], t, now).(currentTag := current);
    assert mid.groups[g := r] == w.groups[g := r];
  }

  lemma DropCurrentKeepsInv(w: World, g: int, current: Tag)
    requires Inv(w) && g in w.groups
    requires CurrentSound(w.groups[g].(currentTag := current))
    ensures Inv(w.(groups := w.groups[g := w.groups[g].(currentTag := current)]))
  {
  }

  /** One call into the group runtimes. */
  datatype Call =
    | FailDial(g: int, t: Tag, at: int, cause: Option<string>)
    | FailProbe(g: int, t: Tag, probe: ProbeId, at: int, cause: Option<string>)
    | PassProbe(g: int, t: Tag, probe: ProbeId, at: int)
    | RestoreNode(g: int, n: int)
    | Install(g: int, window: int, threshold: int, preferred: Tag, initial: map<Tag, Initial>, policy: Policy, at: int)
    | Uninstall(g: int)
    | Reconcile(g: int, u: Update, at: int)
    | Select(g: int, t: Tag)
    | AskCurrent(g: int, at: int)
    | AskAvailable(g: int, t: Tag, at: int)

  /** What each call may do to the world; these are the contracts of the methods of `Groups`. */
  ghost predicate Does(w: World, w': World, c: Call) {
    match c
    case FailDial(g, t, at, cause) =>
      if Holds(w, g, t) then Reported(w, w', g, t, DialOutcome(w, g, t, at, cause)) else w' == w
    case FailProbe(g, t, probe, at, cause) =>
      if Holds(w, g, t) then Reported(w, w', g, t, ProbeFailureOutcome(w, g, t, probe, at, cause)) else w' == w
    case PassProbe(g, t, probe, at) =>
      if Holds(w, g, t) then Succeeded(w, w', g, t, ProbeSuccessOutcome(w, g, t, probe, at)) else w' == w
    case RestoreNode(g, n) =>
      if g in w.groups then FreedEverywhere(w.(marks := w.marks - {n}), w', n, Everyone, 0) else w' == w
    case Install(g, window, threshold, preferred, initial, policy, at) =>
      var members := RegisteredMembers(initial, w.marks + EvictedNodes(initial), at);
      && g != 0 && Distinct(initial) && OneTagPerNode(members)
      && (forall t :: t in members && members[t].evicted ==> members[t].evictedAt.Some?)
      && Installed(w, w', g, RegisteredRuntime(g, window, threshold, preferred, members, Normalize(policy)), initial)
    case Uninstall(g) => w' == w.(groups := w.groups - {g})
    case Reconcile(g, u, at) =>
      if g !in w.groups || !OneTagPerNode(w.groups[g].members) then w' == w
      else
        && Distinct(u.members) && NewcomersMarked(w, g, u)
        && exists mid, evs :: Reconciled(w, mid, g, u, at, evs) && Notified(mid, w', g, evs, at, w.clock)
    case Select(g, t) => w' == SetCurrent(w, g, t)
    case AskCurrent(g, at) => w' == ReadCurrent(w, g, at).0
    case AskAvailable(g, t, at) => w' == ReadAvailable(w, g, t, at).0
  }

  lemma CallKeepsInv(w: World, w': World, c: Call)
    requires Inv(w) && Does(w, w', c)
    ensures Inv(w')
  {
    match c
    case FailDial(g, t, at, cause) =>
      if Holds(w, g, t) {
        DialKeepsInv(w, w', g, t, at, cause);
      }
    case FailProbe(g, t, probe, at, cause) =>
      if Holds(w, g, t) {
        ProbeFailureKeepsInv(w, w', g, t, probe, at, cause);
      }
    case PassProbe(g, t, probe, at) =>
      if Holds(w, g, t) {
        ProbeSuccessKeepsInv(w, w', g, t, probe, at);
      }
    case RestoreNode(g, n) =>
      if g in w.groups {
        RestoreKeepsInv(w, w', n);
      }
    case Install(g, window, threshold, preferred, initial, policy, at) =>
      RegisterKeepsInv(w, w', g, window, threshold, preferred, initial, Normalize(policy), at);
    case Uninstall(g) =>
      UninstallKeepsInv(w, g);
    case Reconcile(g, u, at) =>
      if g in w.groups && OneTagPerNode(w.groups[g].members) {
        var mid, evs :| Reconciled(w, mid, g, u, at, evs) && Notified(mid, w', g, evs, at, w.clock);
        ReconcileKeepsInv(w, mid, w', g, u, at, evs);
      }
    case Select(g, t) =>
      if w' != w {
        DropCurrentKeepsInv(w, g, t);
      }
    case AskCurrent(g, at) =>
      AskKeepsInv(w, g, at);
    case AskAvailable(g, t, at) =>
      if g in w.groups && t in w.groups[g].members {
        if w.groups[g].members[t].evicted {
          assert w.groups[g := w.groups[g]] == w.groups;
        } else {
          PruneKeepsInv(w, g, t, at, w.groups[g].currentTag);
        }
      }
  }

  lemma DialKeepsInv(w: World, w': World, g: int, t: Tag, at: int, cause: Option<string>)
    requires Inv(w) && Holds(w, g, t) && Reported(w, w', g, t, DialOutcome(w, g, t, at, cause))
    ensures Inv(w')
  {
    hide Reported;
    var r := w.groups[g];
    assert RuntimeSound(r, w.clock);
    FailureIsFair(r.policy, r.members[t], r.window, r.threshold, at, cause, w.clock);
    ReportKeepsInv(w, w', g, t, DialOutcome(w, g, t, at, cause));
  }

  lemma ProbeFailureKeepsInv(w: World, w': World, g: int, t: Tag, probe: ProbeId, at: int, cause: Option<string>)
    requires Inv(w) && Holds(w, g, t) && Reported(w, w', g, t, ProbeFailureOutcome(w, g, t, probe, at, cause))
    ensures Inv(w')
  {
    hide Reported;
    var r := w.groups[g];
    assert RuntimeSound(r, w.clock);
    ProbeFailureIsFair(r.policy, r.members[t], r.window, r.threshold, probe, at, cause, w.clock);
    ReportKeepsInv(w, w', g, t, ProbeFailureOutcome(w, g, t, probe, at, cause));
  }

  lemma ProbeSuccessKeepsInv(w: World, w': World, g: int, t: Tag, probe: ProbeId, at: int)
    requires Inv(w) && Holds(w, g, t) && Succeeded(w, w', g, t, ProbeSuccessOutcome(w, g, t, probe, at))
    ensures Inv(w')
  {
    hide Succeeded;
    var r := w.groups[g];
    assert RuntimeSound(r, w.clock);
    SuccessIsFair(r.policy, r.members[t], probe, at, w.clock);
    SuccessKeepsInv(w, w', g, t, ProbeSuccessOutcome(w, g, t, probe, at));
  }

  lemma UninstallKeepsInv(w: World, g: int)
    requires Inv(w)
    ensures Inv(w.(groups := w.groups - {g}))
  {
  }

  lemma AskKeepsInv(w: World, g: int, now: int)
    requires Inv(w)
    ensures Inv(ReadCurrent(w, g, now).0)
  {
    if g in w.groups {
      var r := w.groups[g];
      var t := r.currentTag;
      if t in r.members && !r.members[t].standby && !r.members[t].evicted {
        PruneKeepsInv(w, g, t, now, t);
        PruneKeepsInv(w, g, t, now, "");
      } else {
        DropCurrentKeepsInv(w, g, "");
      }
    }
  }

  /** A history of worlds: each step is some call. */
  ghost predicate Run(ws: seq<World>, cs: seq<Call>) {
    && |ws| == |cs| + 1
    && ws[0] == World(map[], {}, 0, [], [])
    && forall i :: 0 <= i < |cs| ==> Does(ws[i], ws[i + 1], cs[i])
  }

  /** In every run of any calls, every world satisfies the invariant: in particular the groups agree about
      every node, and the announcements about each member carry strictly growing revisions. */
  lemma {:induction false} RunsKeepInv(ws: seq<World>, cs: seq<Call>)
    requires Run(ws, cs)
    ensures forall i :: 0 <= i < |ws| ==> Inv(ws[i])
  {
    NothingInv();
    hide Inv, Does;
    if cs != [] {
      var ws', cs' := ws[..|ws| - 1], cs[..|cs| - 1];
      assert Run(ws', cs') by {
        forall i | 0 <= i < |cs'| ensures Does(ws'[i], ws'[i + 1], cs'[i]) {
          assert Does(ws[i], ws[i + 1], cs[i]);
        }
      }
      RunsKeepInv(ws', cs');
      assert Inv(ws'[|ws'| - 1]);
      CallKeepsInv(ws[|cs| - 1], ws[|cs|], cs[|cs| - 1]);
    }
  }

  lemma NothingInv()
    ensures Inv(World(map[], {}, 0, [], []))
  {
  }

  /** Agreement, spelled out for two groups: they never differ about a node they both hold. */
  lemma GroupsNeverDisagree(ws: seq<World>, cs: seq<Call>, i: nat, g: int, s: Tag, h: int, t: Tag)
    requires Run(ws, cs) && i < |ws| && Holds(ws[i], g, s) && Holds(ws[i], h, t)
    requires ws[i].groups[g].members[s].nodeId == ws[i].groups[h].members[t].nodeId
    ensures ws[i].groups[g].members[s].evicted == ws[i].groups[h].members[t].evicted
  {
    RunsKeepInv(ws, cs);
    assert Inv(ws[i]);
  }
}
