/** The operations of the group runtimes, with the loops and branches of the source, each proved against its
    specification in `GroupWorld`. */
module GroupRuntime {
  import opened Basics
  import opened FailureWindow
  import opened ProbeRing
  import opened GroupMember
  import opened GroupWorld
  import opened GroupReconciliation

  class Groups {
    var groups: map<int, Runtime>
    var marks: set<int>             // globalEvictedNodes
    var clock: nat                  // stateRevision
    var events: seq<StateEvent>     // announced so far
    ghost var stamps: seq<Stamp>    // handed out so far

    ghost function W(): World
      reads this
    {
      World(groups, marks, clock, events, stamps)
    }

    constructor ()
      ensures W() == World(map[], {}, 0, [], [])
    {
      groups, marks, clock, events, stamps := map[], {}, 0, [], [];
    }

    // touch: the next revision.
    method Touch() returns (revision: int)
      modifies this`clock, this`stamps
      ensures revision == clock == old(clock) + 1
      ensures stamps == old(stamps) + [Issued(revision)]
    {
      clock := clock + 1;
      stamps := stamps + [Issued(clock)];
      return clock;
    }

    // advanceStateRevision: never below a revision that is already stored.
    method AdvanceRevision(revision: int)
      modifies this`clock, this`stamps
      ensures clock == Max(old(clock), revision)
      ensures stamps == old(stamps) + [Restored(revision)]
    {
      stamps := stamps + [Restored(revision)];
      if clock < revision {
        clock := revision;
      }
    }

    /** propagateEviction: the first member of the node in each group that is not yet evicted. */
    method PropagateEviction(n: int, err: string, at: int)
      requires Shape(W())
      modifies this
      ensures Shape(W())
      ensures if n == 0 then W() == old(W()) else Propagated(old(W()), W(), map[n := Source(at, err)])
    {
      if n == 0 {
        return;
      }
      ghost var w := W();
      ghost var s := Source(at, err);
      var todo := groups.Keys;
      StartPropagation(w, map[n := s]);
      hide PropagatedBut, Propagated, GroupStruck, RuntimeShape;
      while todo != {}
        invariant todo <= groups.Keys == w.groups.Keys
        invariant PropagatedBut(w, W(), map[n := s], todo)
      {
        var g := Pick(todo);
        ghost var mid := W();
        Unvisited(w, mid, map[n := s], todo, g);
        var hit := StrikeGroup(g, n, err, at);
        Visit(w, mid, W(), n, s, todo, g, hit);
        todo := todo - {g};
      }
      EndPropagation(w, W(), map[n := s]);
      PropagationKeepsShape(w, W(), map[n := s]);
    }

    /** One group of a propagation: at most one member is struck. */
    method StrikeGroup(g: int, n: int, err: string, at: int) returns (hit: Option<Tag>)
      requires g in groups && RuntimeShape(g, groups[g])
      modifies this`groups, this`clock, this`events, this`stamps
      ensures GroupStruck(old(W()), W(), g, n, Source(at, err), hit)
    {
      var r := groups[g];
      var tags := r.members.Keys;
      while tags != {}
        invariant tags <= r.members.Keys && W() == old(W())
        invariant forall t :: t in r.members && t !in tags ==> !Struck(r.members[t], map[n := Source(at, err)])
      {
        var t :| t in tags;
        var m := r.members[t];
        if m.nodeId == n && !m.evicted {
          var revision := Touch();
          var struck := OnPropagatedEviction(m, at, err, revision);
          groups := groups[g := r.(members := r.members[t := struck],
                                   currentTag := if r.currentTag == m.tag then "" else r.currentTag)];
          events := events + [EventOf(g, struck)];
          return Some(t);
        }
        tags := tags - {t};
      }
      return None;
    }

    /** The loop of a recovery: every group but `origin`, the members of node `n` in scope. */
    method FreeNode(n: int, scope: Scope, origin: int) returns (found: bool)
      requires Shape(W())
      modifies this`groups, this`clock, this`events, this`stamps
      ensures Shape(W())
      ensures FreedEverywhere(old(W()), W(), n, scope, origin)
      ensures found <==> SomeFreed(old(W()), n, scope, {origin})
    {
      ghost var w := W();
      found := false;
      var todo := groups.Keys - {origin};
      StartFreeing(w, n, scope, origin);
      hide FreedBut, FreedEverywhere, GroupFreed, RuntimeShape, SomeFreed;
      while todo != {}
        invariant todo <= groups.Keys == w.groups.Keys && origin !in todo
        invariant FreedBut(w, W(), n, scope, todo + {origin})
        invariant found <==> SomeFreed(w, n, scope, todo + {origin})
      {
        var g := Pick(todo);
        ghost var mid := W();
        ghost var pending := todo + {origin};
        UnvisitedFree(w, mid, n, scope, pending, g);
        var hit := FreeGroup(g, n, scope);
        VisitFree(w, mid, W(), n, scope, pending, g, hit);
        found := found || hit.Some?;
        todo := todo - {g};
        assert todo + {origin} == pending - {g};
      }
      assert todo + {origin} == {origin};
      EndFreeing(w, W(), n, scope, origin, todo + {origin});
      FreeingKeepsShape(w, W(), n, scope, origin);
    }

    /** One group of a recovery: all members of the node, of which there is at most one. */
    method FreeGroup(g: int, n: int, scope: Scope) returns (hit: Option<Tag>)
      requires g in groups && RuntimeShape(g, groups[g])
      modifies this`groups, this`clock, this`events, this`stamps
      ensures GroupFreed(old(W()), W(), g, n, scope, hit)
    {
      hit := None;
      ghost var r := groups[g];
      var tags := groups[g].members.Keys;
      while tags != {}
        invariant tags <= r.members.Keys
        invariant events == old(events) && marks == old(marks)
        invariant stamps == if hit.Some? then old(stamps) + [Issued(clock)] else old(stamps)
        invariant hit.None? ==> W() == old(W())
        invariant hit.None? ==> forall t :: t in r.members && t !in tags ==> !Freed(r.members[t], n, scope)
        invariant hit.Some? ==> hit.value in r.members && hit.value !in tags && Freed(r.members[hit.value], n, scope)
        invariant hit.Some? ==> groups == old(groups)[g := Free(r, hit.value, old(clock) + 1)]
        invariant hit.Some? ==> clock == old(clock) + 1
      {
        var t := Pick(tags);
        tags := tags - {t};
        var m := groups[g].members[t];
        if m.nodeId == n && (scope.Everyone? || m.evicted) {
          var revision := Touch();
          var cleared := Cleared(m).(revision := revision);
          groups := groups[g := groups[g].(members := groups[g].members[t := cleared])];
          hit := Some(t);
        }
      }
      if hit.Some? {
        events := events + [CleanEvent(g, n, clock)];
      }
    }

    /** RecordFailure: a failed dial, or a failed probe that passed its replay checks. */
    method RecordFailure(g: int, t: Tag, at: int, cause: Option<string>) returns (evicted: bool)
      requires Shape(W())
      modifies this
      ensures Shape(W())
      ensures if !Holds(old(W()), g, t) then W() == old(W()) && !evicted
              else
                && Reported(old(W()), W(), g, t, DialOutcome(old(W()), g, t, at, cause))
                && evicted == DialOutcome(old(W()), g, t, at, cause).member.evicted
    {
      hide Propagated, FreedEverywhere, RuntimeShape, SomeFreed;
      if g !in groups || t !in groups[g].members {
        return false;
      }
      ghost var w := W();
      MemberShape(w, g, t);
      ghost var out := DialOutcome(w, g, t, at, cause);
      OriginKeepsShape(w, g, t, out);
      var r := groups[g];
      var m := r.members[t];
      if m.evicted {
        // A fresh failure invalidates a recovery streak even while the member is evicted.
        groups := groups[g := r.(members := r.members[t := m.(streak := 0)])];
        return true;
      }
      var kept := Survivors(m.history, Cutoff(at, r.window));
      if kept != [] && kept[|kept| - 1] == Unix(at) {
        // One second is one evidence unit.  The compaction has already been written in place.
        groups := groups[g := r.(members := r.members[t := m.(history := kept + m.history[|kept|..])])];
        return false;
      }
      m := m.(history := kept + [Unix(at)], streak := 0);
      if cause.Some? {
        m := m.(lastError := cause.value);
      }
      var current := if r.currentTag == t then "" else r.currentTag;
      var newlyEvicted := |m.history| >= r.threshold;
      if newlyEvicted {
        m := m.(evicted := true, evictedAt := Some(at));
      }
      var revision := Touch();
      m := m.(revision := revision);
      groups := groups[g := r.(members := r.members[t := m], currentTag := current)];
      events := events + [EventOf(g, m)];
      assert W() == Origin(w, g, t, out);
      if newlyEvicted {
        marks := marks + {m.nodeId};
        PropagateEviction(m.nodeId, m.lastError, at);
      }
      return m.evicted;
    }

    /** RecordGroupHealthFailure: a failed background probe. */
    method RecordGroupHealthFailure(g: int, t: Tag, probe: ProbeId, at: int, cause: Option<string>)
      returns (evicted: bool)
      requires Shape(W())
      modifies this
      ensures Shape(W())
      ensures if !Holds(old(W()), g, t) then W() == old(W()) && !evicted
              else
                && Reported(old(W()), W(), g, t, ProbeFailureOutcome(old(W()), g, t, probe, at, cause))
                && evicted == ProbeFailureOutcome(old(W()), g, t, probe, at, cause).member.evicted
    {
      hide Propagated, FreedEverywhere, RuntimeShape, SomeFreed;
      if g !in groups || t !in groups[g].members {
        return false;
      }
      ghost var w := W();
      MemberShape(w, g, t);
      var r := groups[g];
      var m := r.members[t];
      if probe != "" && probe in m.ring {
        assert r.members[t := m] == r.members && groups[g := r] == groups;
        return m.evicted;
      }
      var offered := m.(ring := Offer(m.ring, probe));
      groups := groups[g := r.(members := r.members[t := offered])];
      ghost var mid := W();
      assert mid == Origin(w, g, t, Outcome(offered, Silent));
      if m.history != [] && m.history[|m.history| - 1] == Unix(at) {
        OriginKeepsShape(w, g, t, ProbeFailureOutcome(w, g, t, probe, at, cause));
        return m.evicted;
      }
      OriginKeepsShape(w, g, t, Outcome(offered, Silent));
      evicted := RecordFailure(g, t, at, cause);
      OriginOverwrites(w, g, t, offered, DialOutcome(mid, g, t, at, cause));
    }

    /** RecordHealthSuccess: a successful probe clears a suspicion or advances a recovery. */
    method RecordHealthSuccess(g: int, t: Tag, probe: ProbeId, now: int) returns (healthy: bool)
      requires Shape(W())
      modifies this
      ensures Shape(W())
      ensures if !Holds(old(W()), g, t) then W() == old(W()) && !healthy
              else
                && Succeeded(old(W()), W(), g, t, ProbeSuccessOutcome(old(W()), g, t, probe, now))
                && healthy == !ProbeSuccessOutcome(old(W()), g, t, probe, now).member.evicted
    {
      hide Propagated, FreedEverywhere, RuntimeShape, SomeFreed;
      if g !in groups || t !in groups[g].members {
        return false;
      }
      ghost var w := W();
      MemberShape(w, g, t);
      ghost var out := ProbeSuccessOutcome(w, g, t, probe, now);
      OriginKeepsShape(w, g, t, out);
      var r := groups[g];
      var m := r.members[t];
      if probe != "" && probe in m.ring {
        assert r.members[t := m] == r.members && groups[g := r] == groups;
        return !m.evicted;
      }
      m := m.(ring := Offer(m.ring, probe));
      if m.evicted {
        if !r.policy.enabled {
          groups := groups[g := r.(members := r.members[t := m.(streak := 0)])];
          return false;
        }
        if m.evictedAt.Some? && now - m.evictedAt.value < r.policy.cooldown {
          groups := groups[g := r.(members := r.members[t := m])];
          return false;
        }
        m := m.(streak := m.streak + 1);
        if m.streak < r.policy.successThreshold {
          groups := groups[g := r.(members := r.members[t := m])];
          return false;
        }
        var revision := Touch();
        m := Cleared(m).(revision := revision);
        groups := groups[g := r.(members := r.members[t := m])];
        marks := marks - {m.nodeId};
        events := events + [CleanEvent(g, m.nodeId, revision)];
        assert W() == Origin(w, g, t, out).(marks := marks);
        var _ := FreeNode(m.nodeId, EvictedOnly, g);
        return true;
      }
      if m.history == [] {
        groups := groups[g := r.(members := r.members[t := m.(streak := 0)])];
        return true;
      }
      var revision := Touch();
      m := m.(history := [], lastError := "", streak := 0, revision := revision);
      groups := groups[g := r.(members := r.members[t := m])];
      events := events + [CleanEvent(g, m.nodeId, revision)];
      return true;
    }

    /** RestoreGroupMember: an operator clears a node everywhere, evicted or not. */
    method RestoreGroupMember(g: int, n: int) returns (reply: Reply)
      requires Shape(W())
      modifies this
      ensures Shape(W())
      ensures if g !in old(groups) then W() == old(W()) && reply == Failed
              else
                && FreedEverywhere(old(W()).(marks := old(marks) - {n}), W(), n, Everyone, 0)
                && (reply == Done <==> SomeFreed(old(W()), n, Everyone, {0}))
    {
      if g !in groups {
        return Failed;
      }
      marks := marks - {n};
      var found := FreeNode(n, Everyone, 0);
      return if found then Done else Failed;
    }

    /** Register: installs a group runtime with restored members and carries their evictions everywhere. */
    method Register(g: int, window: int, threshold: int, preferred: Tag, members: map<Tag, Initial>,
                    recovery: Option<Policy>, now: int)
      requires Shape(W()) && Distinct(members)
      modifies this
      ensures Shape(W())
      ensures if g == 0 then W() == old(W())
              else
                var marked := old(marks) + EvictedNodes(members);
                var policy := if recovery.Some? then Normalize(recovery.value)
                              else Policy(true, 3, 300 * 1_000_000_000);
                Installed(old(W()), W(), g,
                          RegisteredRuntime(g, window, threshold, preferred, RegisteredMembers(members, marked, now),
                                            policy), members)
    {
      hide Propagated, Raised, RuntimeShape, SourcesOf, RegisteredMembers, EvictedNodes, Distinct, Registered;
      if g == 0 {
        return;
      }
      ghost var w := W();
      ghost var marked := marks + EvictedNodes(members);
      var policy := if recovery.Some? then Normalize(recovery.value) else DEFAULT_POLICY;
      var built;
      ghost var restored;
      built, restored := RestoreMembers(members, now);
      var r := RegisteredRuntime(g, window, threshold, preferred, built, policy);
      groups := groups[g := r];
      ghost var mid := W();
      RestoredShape(w, g, r, members, marked, now);
      PropagateMembers(built);
      assert Raised(w.clock, mid.clock, members, restored);
    }

    // The closing loop of Register.
    method PropagateMembers(members: map<Tag, Member>)
      requires Shape(W()) && OneTagPerNode(members)
      requires forall t :: t in members ==> members[t].nodeId != 0
      requires forall t :: t in members && members[t].evicted ==> members[t].evictedAt.Some?
      modifies this
      ensures Shape(W())
      ensures Propagated(old(W()), W(), SourcesOf(members, {}))
    {
      ghost var w := W();
      var todo := members.Keys;
      PropagateNothing(w);
      assert SourcesOf(members, todo) == map[];
      hide Propagated, RuntimeShape, SourcesOf;
      while todo != {}
        invariant todo <= members.Keys && Shape(W())
        invariant Propagated(w, W(), SourcesOf(members, todo))
      {
        var t := Pick(todo);
        ghost var before := W();
        var m := members[t];
        if m.evicted {
          SourcesGrow(members, todo, t);
          PropagateEviction(m.nodeId, m.lastError, m.evictedAt.value);
          PropagationsCompose(w, before, W(), SourcesOf(members, todo), m.nodeId,
              Source(m.evictedAt.value, m.lastError));
        } else {
          SourcesStay(members, todo, t);
        }
        todo := todo - {t};
      }
      assert todo == {};
    }

    // The loop of Register over the persisted members.
    method RestoreMembers(members: map<Tag, Initial>, now: int)
      returns (built: map<Tag, Member>, ghost restored: seq<Stamp>)
      requires Distinct(members)
      modifies this`marks, this`clock, this`stamps
      ensures marks == old(marks) + EvictedNodes(members)
      ensures built == RegisteredMembers(members, marks, now)
      ensures stamps == old(stamps) + restored && Raised(old(clock), clock, members, restored)
    {
      hide RaisedBut, Raised, RestoredBut, RegisteredMembers, EvictedNodes, Distinct;
      built, restored := map[], [];
      var todo := members.Keys;
      RaisedStart(clock, members, todo);
      RestoreStart(members, marks, todo, now);
      while todo != {}
        invariant todo <= members.Keys
        invariant RestoredBut(members, old(marks), marks, built, todo, now)
        invariant stamps == old(stamps) + restored
        invariant RaisedBut(old(clock), clock, members, restored, todo)
      {
        var t := Pick(todo);
        var i := members[t];
        RestoreStep(members, old(marks), marks, built, todo, now, t);
        RaiseStep(old(clock), clock, members, restored, todo, t);
        restored := restored + RestoredStamp(i);
        if i.evicted {
          marks := marks + {i.nodeId};
        }
        var evicted := i.evicted || i.nodeId in marks;
        var evictedAt := if evicted && i.evictedAt.None? then Some(now) else i.evictedAt;
        if i.revision > 0 {
          AdvanceRevision(i.revision);
        }
        built := built[t := Member(i.standby, i.nodeId, t, i.history, evicted, i.lastError, evictedAt, 0, [],
                                   if i.revision > 0 then i.revision else 0)];
        todo := todo - {t};
      }
      assert todo == {};
      RestoredAll(members, old(marks), marks, built, now);
      RaisedAll(old(clock), clock, members, restored);
    }

    /** ReconcileSilent: rebuilds the group for a new topology; the caller announces the returned events. */
    method ReconcileSilent(g: int, u: Update, now: int) returns (evs: seq<StateEvent>)
      requires Shape(W()) && Distinct(u.members)
      modifies this
      ensures Shape(W())
      ensures if g !in old(groups) then W() == old(W()) && evs == []
              else Reconciled(old(W()), W(), g, u, now, evs)
    {
      evs := [];
      if g !in groups {
        return;
      }
      ghost var w := W();
      var r := groups[g];
      assert RuntimeShape(g, r);
      var next;
      ghost var more;
      next, evs, more := RebuildMembers(g, u, now);
      ghost var unpruned := marks;
      var current := ChooseCurrent(r, u, next);
      var r' := Runtime(r.id, WindowOf(u), ThresholdOf(u), PolicyOf(r, u), current, next);
      groups := groups[g := r'];
      var removed := set t | t in r.members
          && (forall s :: s in u.members ==> u.members[s].nodeId != r.members[t].nodeId)
                         :: r.members[t].nodeId;
      PruneGlobalEvictions(removed);
      assert RebuiltBut(w, g, u, now, {}, groups[g].members, unpruned, clock, evs, NewStamps(w, W()));
      ReconciledKeepsShape(w, W(), g, u, now, evs);
    }

    // The member loop of ReconcileSilent.
    method RebuildMembers(g: int, u: Update, now: int)
      returns (next: map<Tag, Member>, evs: seq<StateEvent>, ghost more: seq<Stamp>)
      requires g in groups && RuntimeShape(g, groups[g]) && Distinct(u.members)
      modifies this`marks, this`clock, this`stamps
      ensures stamps == old(stamps) + more
      ensures RebuiltBut(old(W()), g, u, now, {}, next, marks, clock, evs, more)
    {
      hide RebuiltBut, Distinct, ByNode, PolicyOf, WindowOf, ThresholdOf, Normalize;
      ghost var w := W();
      var r := groups[g];
      var byNode := IndexByNode(r.members);
      var window, threshold := WindowOf(u), ThresholdOf(u);
      var policyChanged := Provided(u.recovery) && Normalize(u.recovery) != r.policy;
      next, evs, more := map[], [], [];
      var todo := u.members.Keys;
      StartRebuilding(w, g, u, now);
      PolicyMoves(r, u);
      while todo != {}
        invariant todo <= u.members.Keys && stamps == w.stamps + more
        invariant RebuiltBut(w, g, u, now, todo, next, marks, clock, evs, more)
      {
        var t := Pick(todo);
        next, evs, more := RebuildNext(w, g, u, now, byNode, window, threshold, policyChanged, todo, next, evs,
            more, t);
        todo := todo - {t};
      }
    }

    // One iteration of that loop: the member `t` joins the rebuilt ones.
    method RebuildNext(ghost w: World, g: int, u: Update, now: int, byNode: map<int, Member>, window: int,
                       threshold: int, policyChanged: bool, ghost todo: set<Tag>, next0: map<Tag, Member>,
                       evs0: seq<StateEvent>, ghost more0: seq<Stamp>, t: Tag)
      returns (next: map<Tag, Member>, evs: seq<StateEvent>, ghost more: seq<Stamp>)
      requires g in w.groups && RuntimeShape(g, w.groups[g]) && Distinct(u.members)
      requires t in todo && todo <= u.members.Keys && byNode == ByNode(w.groups[g].members)
      requires window == WindowOf(u) && threshold == ThresholdOf(u)
      requires policyChanged <==> PolicyOf(w.groups[g], u) != w.groups[g].policy
      requires RebuiltBut(w, g, u, now, todo, next0, marks, clock, evs0, more0) && stamps == w.stamps + more0
      modifies this`marks, this`clock, this`stamps
      ensures RebuiltBut(w, g, u, now, todo - {t}, next, marks, clock, evs, more) && stamps == w.stamps + more
    {
      hide RebuiltBut, Rebuild, ByNode, OldMember, StampedMember, StampedClock, OwedFor, StampsFor, Distinct;
      ghost var marks0, clock0 := marks, clock;
      var i := u.members[t];
      LookupOld(w.groups[g], byNode, i.nodeId);
      var prior := if i.nodeId in byNode then Some(byNode[i.nodeId]) else None;
      var m, owed;
      ghost var b, raised;
      m, owed, b, raised := RebuildMember(g, t, i, prior, window, threshold, policyChanged, now);
      RebuildAdvance(w, g, u, now, todo, next0, marks0, clock0, evs0, more0, t, prior, b, marks, raised);
      next, evs, more := next0[t := m], evs0 + owed, more0 + StampsFor(b, i, raised);
      assert stamps == w.stamps + more;
    }

    method IndexByNode(members: map<Tag, Member>) returns (byNode: map<int, Member>)
      requires OneTagPerNode(members)
      ensures byNode == ByNode(members)
    {
      byNode := map[];
      var todo := members.Keys;
      while todo != {}
        invariant todo <= members.Keys
        invariant byNode == map t | t in members && t !in todo :: members[t].nodeId := members[t]
      {
        var t := Pick(todo);
        byNode := byNode[members[t].nodeId := members[t]];
        todo := todo - {t};
      }
    }

    // One member of a reconciliation, stamped and announced when its durable state changed.
    method RebuildMember(g: int, t: Tag, i: Initial, prior: Option<Member>, window: int, threshold: int,
                         policyChanged: bool, now: int)
      returns (m: Member, owed: seq<StateEvent>, ghost b: Rebuilt, ghost raised: nat)
      modifies this`marks, this`clock, this`stamps
      ensures b == Rebuild(t, i, prior, i.nodeId in old(marks), window, threshold, policyChanged, now)
      ensures raised == if prior.None? then Max(old(clock), i.revision) else old(clock)
      ensures m == StampedMember(b, raised) && owed == OwedFor(g, b, raised) && clock == StampedClock(b, raised)
      ensures stamps == old(stamps) + StampsFor(b, i, raised)
      ensures marks == if b.newlyEvicted then old(marks) + {i.nodeId} else old(marks)
    {
      hide Rebuild;
      var announce, newly;
      m, announce, newly := CarryMember(t, i, prior, window, threshold, policyChanged, now);
      b, raised := Rebuilt(m, prior.None?, announce, newly), clock;
      owed := [];
      if announce {
        var revision := Touch();
        m := m.(revision := revision);
        owed := [EventOf(g, m)];
      }
    }

    // The branches of one member: a restored revision raises the clock, a new eviction is marked.
    method CarryMember(t: Tag, i: Initial, prior: Option<Member>, window: int, threshold: int,
                       policyChanged: bool, now: int) returns (m: Member, announce: bool, newly: bool)
      modifies this`marks, this`clock, this`stamps
      ensures Rebuild(t, i, prior, i.nodeId in old(marks), window, threshold, policyChanged, now)
           == Rebuilt(m, prior.None?, announce, newly)
      ensures clock == if prior.None? then Max(old(clock), i.revision) else old(clock)
      ensures stamps == old(stamps) + if prior.None? then RestoredStamp(i) else []
      ensures marks == if newly then old(marks) + {i.nodeId} else old(marks)
    {
      if prior.Some? {
        var o := prior.value;
        m := Member(i.standby, i.nodeId, t, o.history, o.evicted, o.lastError, o.evictedAt, o.streak, [], o.revision);
      } else {
        m := Member(i.standby, i.nodeId, t, i.history, i.evicted, i.lastError, i.evictedAt, 0, [], 0);
        if i.revision > 0 {
          m := m.(revision := i.revision);
          AdvanceRevision(i.revision);
        }
      }
      if m.nodeId in marks {
        m := m.(evicted := true);
      }
      var before := m.history;
      m := Pruned(m, window, now);
      newly := !m.evicted && |m.history| >= threshold;
      announce := m.history != before || newly;
      if newly {
        m := m.(evicted := true, evictedAt := Some(now));
        marks := marks + {m.nodeId};
      }
      if m.evicted && m.evictedAt.None? {
        m := m.(evictedAt := Some(now));
      }
      if m.evicted && m.streak > 0 && (policyChanged || (prior.Some? && prior.value.tag != t)) {
        m := m.(streak := 0);
      }
    }

    // The current member survives a reconciliation by node, or the preferred node takes its place.
    method ChooseCurrent(r: Runtime, u: Update, next: map<Tag, Member>) returns (current: Tag)
      ensures forall r': Runtime :: r'.currentTag == current && r'.members == next ==> CurrentAfter(r, r', u)
    {
      var preferred := if r.currentTag in r.members then r.members[r.currentTag].nodeId else 0;
      if preferred == 0 {
        preferred := u.preferredNodeId;
      }
      var todo := next.Keys;
      while todo != {}
        invariant todo <= next.Keys
        invariant forall t :: t in next && t !in todo ==> !(MayServe(next, t) && next[t].nodeId == preferred)
      {
        var t := Pick(todo);
        var m := next[t];
        if m.nodeId == preferred && !m.standby && !m.evicted && m.history == [] {
          return t;
        }
        todo := todo - {t};
      }
      return "";
    }

    /** pruneGlobalEvictions: drops the marks of removed nodes that no group holds evicted any more. */
    method PruneGlobalEvictions(removed: set<int>)
      modifies this`marks
      ensures marks == PrunedMarks(groups, old(marks), removed)
    {
      var todo := removed;
      while todo != {}
        invariant todo <= removed
        invariant marks == PrunedMarks(groups, old(marks), removed - todo)
      {
        var n := Pick(todo);
        todo := todo - {n};
        if n in marks {
          var held := StillEvicted(n);
          if !held {
            marks := marks - {n};
          }
        }
      }
    }

    method StillEvicted(n: int) returns (held: bool)
      ensures held <==> EvictedSomewhere(groups, n)
    {
      var todo := groups.Keys;
      while todo != {}
        invariant todo <= groups.Keys
        invariant forall g, t :: g in groups && g !in todo && t in groups[g].members ==>
                    !(groups[g].members[t].nodeId == n && groups[g].members[t].evicted)
      {
        var g := Pick(todo);
        todo := todo - {g};
        var tags := groups[g].members.Keys;
        while tags != {}
          invariant tags <= groups[g].members.Keys
          invariant forall t :: t in groups[g].members && t !in tags ==>
                      !(groups[g].members[t].nodeId == n && groups[g].members[t].evicted)
        {
          var t := Pick(tags);
          tags := tags - {t};
          if groups[g].members[t].nodeId == n && groups[g].members[t].evicted {
            return true;
          }
        }
      }
      return false;
    }

    /** NotifyEvents: completes a silent reconciliation of group `g` started at clock `lo`. */
    method NotifyEvents(evs: seq<StateEvent>, now: int, ghost g: int, ghost lo: int)
      requires Shape(W()) && OwedEvents(W(), g, evs, lo)
      modifies this
      ensures Shape(W())
      ensures Notified(old(W()), W(), g, evs, now, lo)
    {
      ghost var w := W();
      StartNotifying(w, g, evs, now, lo);
      assert evs[..0] == [] && evs[..|evs|] == evs;
      hide Notified, Propagated, OwedEvents, RuntimeShape;
      for i := 0 to |evs|
        invariant Shape(W())
        invariant Notified(w, W(), g, evs[..i], now, lo)
      {
        ghost var mid := W();
        var e := evs[i];
        events := events + [e];
        if e.evicted {
          PropagateEviction(e.nodeId, e.lastError, if e.evictedAt.Some? then e.evictedAt.value else now);
        }
        NotifyStep(w, mid, W(), g, evs, i, now, lo);
      }
    }

    /** A pool commit: the silent reconciliation, then its announcements. */
    method Reconcile(g: int, u: Update, now: int)
      requires Shape(W()) && Distinct(u.members)
      modifies this
      ensures Shape(W())
      ensures if g !in old(groups) then W() == old(W())
              else exists mid, evs :: Reconciled(old(W()), mid, g, u, now, evs)
                                      && Notified(mid, W(), g, evs, now, old(clock))
    {
      ghost var w := W();
      var evs := ReconcileSilent(g, u, now);
      if g !in groups {
        return;
      }
      ghost var mid := W();
      assert RuntimeShape(g, w.groups[g]);
      ReconciledOwes(w, mid, g, u, now, evs);
      NotifyEvents(evs, now, g, w.clock);
      assert Reconciled(w, mid, g, u, now, evs) && Notified(mid, W(), g, evs, now, w.clock);
    }

    method SetCurrentTag(g: int, t: Tag)
      modifies this`groups
      ensures W() == SetCurrent(old(W()), g, t)
    {
      if g !in groups {
        return;
      }
      var r := groups[g];
      if t != "" && (t !in r.members || r.members[t].standby || r.members[t].evicted) {
        return;
      }
      if r.currentTag == t {
        assert groups[g := r] == groups;
        return;
      }
      groups := groups[g := r.(currentTag := t)];
    }

    method CurrentTag(g: int, now: int) returns (current: Tag)
      modifies this`groups
      ensures (W(), current) == ReadCurrent(old(W()), g, now)
    {
      if g !in groups {
        return "";
      }
      var r := groups[g];
      var t := r.currentTag;
      if t in r.members && !r.members[t].standby && !r.members[t].evicted {
        r := r.(members := r.members[t := Pruned(r.members[t], r.window, now)]);
        groups := groups[g := r];
        if r.members[t].history == [] {
          return t;
        }
      }
      ghost var rest := old(groups);
      groups := groups[g := r.(currentTag := "")];
      assert groups == rest[g := r.(currentTag := "")];
      return "";
    }

    method MemberAvailable(g: int, t: Tag, now: int) returns (available: bool)
      modifies this`groups
      ensures (W(), available) == ReadAvailable(old(W()), g, t, now)
    {
      if g !in groups {
        return true;
      }
      var r := groups[g];
      if t !in r.members {
        return false;
      }
      if !r.members[t].evicted {
        r := r.(members := r.members[t := Pruned(r.members[t], r.window, now)]);
      }
      groups := groups[g := r];
      var m := r.members[t];
      return !m.standby && !m.evicted && m.history == [];
    }

    // The cleanup returned by Register, while the registered runtime is still the live one.
    method Unregister(g: int)
      modifies this`groups
      ensures groups == old(groups) - {g}
    {
      groups := groups - {g};
    }
  }
}
