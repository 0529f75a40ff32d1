/** What the operations of the group runtimes leave behind, field by field: who may serve, what a registration and a
    reconciliation keep of stored and live state, and what an eviction and a restore set. */
module GroupFields {
  import opened Basics
  import opened FailureWindow
  import opened GroupMember
  import opened GroupWorld
  import opened GroupReconciliation
  import opened GroupInvariants

  // -------------------------------------------------------------------------------------------
  // Who may serve
  // -------------------------------------------------------------------------------------------

  // A failure second that the window no longer covers.
  predicate Expired(second: int, window: int, now: int) {
    second < Unix(now - window)
  }

  lemma EmptiedIff(h: seq<int>, window: int, now: int)
    ensures Survivors(h, Cutoff(now, window)) == [] <==> forall x :: x in h ==> Expired(x, window, now)
  {
    var kept := Survivors(h, Cutoff(now, window));
    forall x | x in h ensures x in kept <==> !Expired(x, window, now) {
      SurvivorsMembers(h, Cutoff(now, window), x);
    }
    if kept != [] {
      SurvivorsMembers(h, Cutoff(now, window), kept[0]);
      assert kept[0] in kept && kept[0] in h;
    }
  }

  /** A member is available if and only if it is neither standby nor evicted and none of its failures is in the window;
      a group nobody knows never blocks, a member nobody knows always does. */
  lemma AvailableIff(w: World, g: int, t: Tag, now: int)
    ensures ReadAvailable(w, g, t, now).1 <==>
            g !in w.groups
            || (t in w.groups[g].members
                && var m := w.groups[g].members[t];
                   !m.standby && !m.evicted && forall x :: x in m.history ==> Expired(x, w.groups[g].window, now))
  {
    if Holds(w, g, t) {
      EmptiedIff(w.groups[g].members[t].history, w.groups[g].window, now);
    }
    hide Survivors, Unix;
  }

  /** The current member is answered exactly while it is such a member, and dropped as soon as it is not. */
  lemma CurrentIff(w: World, g: int, now: int)
    requires g in w.groups
    ensures var r, tag := w.groups[g], ReadCurrent(w, g, now).1;
            var serves := r.currentTag in r.members
                          && !r.members[r.currentTag].standby && !r.members[r.currentTag].evicted
                          && forall x :: x in r.members[r.currentTag].history ==> Expired(x, r.window, now);
            && tag == (if serves then r.currentTag else "")
            && ReadCurrent(w, g, now).0.groups[g].currentTag == tag
  {
    var r := w.groups[g];
    if r.currentTag in r.members {
      EmptiedIff(r.members[r.currentTag].history, r.window, now);
    }
    hide Survivors, Unix;
  }

  /** Setting the current member: nobody, or somebody who is neither standby nor evicted; anything else changes
      nothing. */
  lemma CurrentIsSet(w: World, g: int, t: Tag)
    requires g in w.groups
    ensures var r, w' := w.groups[g], SetCurrent(w, g, t);
            && g in w'.groups && w'.groups[g].members == r.members
            && w'.groups[g].currentTag ==
               (if t == "" || (t in r.members && !r.members[t].standby && !r.members[t].evicted) then t
                else r.currentTag)
            && w'.marks == w.marks && w'.events == w.events && forall h :: h != g && h in w.groups ==>
                 h in w'.groups && w'.groups[h] == w.groups[h]
  {
  }

  /** What the two reads leave behind: of the member asked about, unless it is evicted, the failures still in the
      window; every other member, and every other group, as it was. */
  lemma ReadsPrune(w: World, g: int, t: Tag, now: int, s: Tag, x: int)
    requires Holds(w, g, s)
    ensures var a, c := ReadAvailable(w, g, t, now).0, ReadCurrent(w, g, now).0;
            var m, current := w.groups[g].members[s], w.groups[g].currentTag;
            && Holds(a, g, s) && Holds(c, g, s)
            && (s != t || m.evicted ==> a.groups[g].members[s] == m)
            && (s == t && !m.evicted ==> (x in a.groups[g].members[s].history <==>
                                            x in m.history && !Expired(x, w.groups[g].window, now)))
            && (s != current || m.evicted || m.standby ==> c.groups[g].members[s] == m)
            && (s == current && !m.evicted && !m.standby ==>
                  (x in c.groups[g].members[s].history <==> x in m.history && !Expired(x, w.groups[g].window, now)))
            && a.groups[g].currentTag == current
            && forall h :: h != g && h in w.groups ==>
                 && h in a.groups && a.groups[h] == w.groups[h]
                 && h in c.groups && c.groups[h] == w.groups[h]
  {
    PrunedLeaves(w.groups[g].members[s], w.groups[g].window, now, x);
    hide Survivors, Unix, Pruned, StrictlyIncreasing;
  }

  /** A failure in a second that counts already changes nothing while every failure is in the window. */
  lemma SameSecondChangesNothing(m: Member, window: int, threshold: int, at: int, cause: Option<string>, stamp: int)
    requires !m.evicted && m.history != [] && m.history[|m.history| - 1] == Unix(at)
    requires forall i :: 0 <= i < |m.history| ==> !Expired(m.history[i], window, at)
    ensures OnFailure(m, window, threshold, at, cause, stamp) == Outcome(m, Silent)
  {
    SurvivorsAll(m.history, Cutoff(at, window));
  }

  /** Pruning drops the expired failures and nothing else, and forgets the error only with the last of them. */
  lemma PrunedLeaves(m: Member, window: int, now: int, x: int)
    ensures var p := Pruned(m, window, now);
            && (x in p.history <==> x in m.history && !Expired(x, window, now))
            && (StrictlyIncreasing(m.history) ==> StrictlyIncreasing(p.history))
            && p.lastError == (if m.history != [] && p.history == [] then "" else m.lastError)
            && p == m.(history := p.history, lastError := p.lastError)
  {
    SurvivorsMembers(m.history, Cutoff(now, window), x);
    if StrictlyIncreasing(m.history) {
      SurvivorsIncreasing(m.history, Cutoff(now, window));
    }
  }

  /** A failure that counts takes the current place from its member. */
  lemma FailureDropsCurrent(w: World, w': World, g: int, t: Tag, at: int, cause: Option<string>)
    requires Shape(w) && Holds(w, g, t) && t != "" && !w.groups[g].members[t].evicted
    requires Reported(w, w', g, t, DialOutcome(w, g, t, at, cause))
    requires Unix(at) !in w.groups[g].members[t].history
    ensures g in w'.groups && w'.groups[g].currentTag != t
    ensures w.groups[g].currentTag != t ==> w'.groups[g].currentTag == w.groups[g].currentTag
  {
    hide Survivors, AnnouncesStruck, Advances, Unix;
    var m, out := w.groups[g].members[t], DialOutcome(w, g, t, at, cause);
    NewSecondCounts(m, w.groups[g].window, w.groups[g].threshold, at, cause, w.clock + 1);
    var mid := Origin(w, g, t, out);
    assert mid.groups[g].currentTag == if w.groups[g].currentTag == t then "" else w.groups[g].currentTag;
    if out.effect.Evicted? {
      var src := map[m.nodeId := Source(out.member.evictedAt.value, out.member.lastError)];
      assert EvictedIn(mid.groups[g], w'.groups[g], src, mid.clock, w'.clock);
      OnlyHolder(w.groups[g], g, t, mid.groups[g], out.member, src);
    }
  }

  lemma NewSecondCounts(m: Member, window: int, threshold: int, at: int, cause: Option<string>, stamp: int)
    requires !m.evicted && Unix(at) !in m.history
    ensures var out := OnFailure(m, window, threshold, at, cause, stamp);
            (out.effect.Suspected? || out.effect.Evicted?) && out.member.nodeId == m.nodeId && out.member.tag == m.tag
            && (out.effect.Evicted? ==> out.member.evicted && out.member.evictedAt.Some?)
  {
    var kept := Survivors(m.history, Cutoff(at, window));
    if kept != [] {
      SurvivorsMembers(m.history, Cutoff(at, window), kept[|kept| - 1]);
      assert kept[|kept| - 1] in kept;
    }
  }

  // The node's only member in its group is evicted already, so the propagation strikes nobody there.
  lemma OnlyHolder(r: Runtime, g: int, t: Tag, mid: Runtime, m: Member, src: map<int, Source>)
    requires RuntimeShape(g, r) && t in r.members && m.evicted && m.nodeId == r.members[t].nodeId
             && src.Keys == {m.nodeId}
    requires mid.members == r.members[t := m]
    ensures forall s :: s in mid.members ==> !Struck(mid.members[s], src)
  {
  }

  // -------------------------------------------------------------------------------------------
  // Evictions and restores
  // -------------------------------------------------------------------------------------------

  /** After an eviction has been carried everywhere: every member of the node is evicted; one that was not before has
      the new date and error, no streak, and its history and ring as they were; members of other nodes are untouched. */
  lemma PropagationSets(w: World, w': World, n: int, at: int, err: string, g: int, t: Tag)
    requires Propagated(w, w', map[n := Source(at, err)]) && Holds(w, g, t)
    ensures Holds(w', g, t)
    ensures var m, m' := w.groups[g].members[t], w'.groups[g].members[t];
            && (m.nodeId == n ==> m'.evicted)
            && (m.nodeId == n && !m.evicted ==>
                  m'.evictedAt == Some(at) && m'.lastError == err && m'.streak == 0 && m'.history == m.history
                  && m'.ring == m.ring && m'.standby == m.standby && m'.nodeId == n && m'.tag == m.tag)
            && (m.nodeId != n || m.evicted ==> m' == m)
  {
    hide AnnouncesStruck, Advances;
    assert StruckTo(w.groups[g].members[t], w'.groups[g].members[t], map[n := Source(at, err)], w.clock, w'.clock);
  }

  /** After the announcements of a reconciliation: the nodes of its evicted events are evicted in every group, with the
      date and the error of the event, an event without a date counting as of now; nobody else has changed. */
  lemma AnnouncementsSet(w: World, w': World, g: int, evs: seq<StateEvent>, now: int, lo: int, h: int, t: Tag)
    requires Notified(w, w', g, evs, now, lo) && OwedEvents(w, g, evs, lo) && Holds(w, h, t)
    ensures Holds(w', h, t) && w'.marks == w.marks
    ensures var m, m' := w.groups[h].members[t], w'.groups[h].members[t];
            && (forall i :: 0 <= i < |evs| && evs[i].evicted && evs[i].nodeId == m.nodeId != 0 && !m.evicted ==>
                  && m'.evicted && m'.lastError == evs[i].lastError && m'.streak == 0 && m'.history == m.history
                  && m'.evictedAt == Some(if evs[i].evictedAt.Some? then evs[i].evictedAt.value else now))
            && ((m.evicted || m.nodeId == 0
                 || (forall i :: 0 <= i < |evs| && evs[i].evicted ==> evs[i].nodeId != m.nodeId)) ==> m' == m)
  {
    var m := w.groups[h].members[t];
    var src := EventSources(evs, now);
    assert StruckTo(m, w'.groups[h].members[t], src, w.clock, w'.clock);
    SourcesAreEvents(evs, |evs|, now);
    assert evs[..|evs|] == evs;
    forall i | 0 <= i < |evs| && evs[i].evicted && evs[i].nodeId != 0
      ensures evs[i].nodeId in src
      ensures src[evs[i].nodeId]
           == Source(if evs[i].evictedAt.Some? then evs[i].evictedAt.value else now, evs[i].lastError)
    {
      SourceIs(evs, now, i);
    }
    hide Advances, AnnouncesNotified, EventSources, FreshEvents;
  }

  lemma {:induction false} SourceIs(evs: seq<StateEvent>, now: int, i: nat)
    requires i < |evs| && evs[i].evicted && evs[i].nodeId != 0
    requires forall j, k :: 0 <= j < k < |evs| ==> evs[j].nodeId != evs[k].nodeId
    ensures evs[i].nodeId in EventSources(evs, now)
    ensures EventSources(evs, now)[evs[i].nodeId]
         == Source(if evs[i].evictedAt.Some? then evs[i].evictedAt.value else now, evs[i].lastError)
  {
    if i < |evs| - 1 {
      SourceIs(evs[..|evs| - 1], now, i);
    }
  }

  /** After a manual restore: the node is unmarked, and every member of it, evicted or not, is in service without
      history, error, date or streak; its ring stays, and members of other nodes are untouched. */
  lemma RestoreSets(w: World, w': World, n: int, g: int, t: Tag)
    requires Shape(w) && FreedEverywhere(w.(marks := w.marks - {n}), w', n, Everyone, 0) && Holds(w, g, t)
    ensures Holds(w', g, t) && w'.marks == w.marks - {n}
    ensures var m, m' := w.groups[g].members[t], w'.groups[g].members[t];
            if m.nodeId == n then
              !m'.evicted && m'.evictedAt.None? && m'.history == [] && m'.lastError == "" && m'.streak == 0
              && m'.ring == m.ring && m'.standby == m.standby && m'.nodeId == n && m'.tag == m.tag
            else m' == m
  {
    hide AnnouncesFreed, Advances;
    assert RuntimeShape(g, w.groups[g]) && g != 0;
    assert FreedIn(w.groups[g], w'.groups[g], n, Everyone, w.clock, w'.clock);
    assert FreedTo(w.groups[g].members[t], w'.groups[g].members[t], n, Everyone, w.clock, w'.clock);
  }

  /** After an automatic recovery: the node's evicted members elsewhere are as clean, and those in service untouched. */
  lemma RecoverySets(w: World, w': World, n: int, origin: int, g: int, t: Tag)
    requires FreedEverywhere(w, w', n, EvictedOnly, origin) && Holds(w, g, t) && g != origin
    ensures Holds(w', g, t)
    ensures var m, m' := w.groups[g].members[t], w'.groups[g].members[t];
            if m.nodeId == n && m.evicted then
              !m'.evicted && m'.evictedAt.None? && m'.history == [] && m'.lastError == "" && m'.streak == 0
              && m'.ring == m.ring && m'.standby == m.standby && m'.nodeId == n && m'.tag == m.tag
            else m' == m
  {
    hide AnnouncesFreed, Advances;
    assert FreedTo(w.groups[g].members[t], w'.groups[g].members[t], n, EvictedOnly, w.clock, w'.clock);
  }

  // -------------------------------------------------------------------------------------------
  // Registration
  // -------------------------------------------------------------------------------------------

  /** A registration reads the stored state as it is: history, error, date and revision survive; a member is evicted if
      it was stored so or its node is marked, by another group or by this one; an eviction without a date gets this
      moment's; a streak and a ring never survive. */
  lemma RegistrationKeeps(w: World, w': World, g: int, window: int, threshold: int, preferred: Tag,
                          members: map<Tag, Initial>, policy: Policy, now: int, t: Tag)
    requires Distinct(members) && t in members
    requires var r := RegisteredRuntime(g, window, threshold, preferred,
                                        RegisteredMembers(members, w.marks + EvictedNodes(members), now), policy);
             && OneTagPerNode(r.members)
             && (forall s :: s in r.members && r.members[s].evicted ==> r.members[s].evictedAt.Some?)
             && Installed(w, w', g, r, members)
    ensures Holds(w', g, t) && w'.groups[g].members.Keys == members.Keys
    ensures var i, m := members[t], w'.groups[g].members[t];
            && m.standby == i.standby && m.nodeId == i.nodeId && m.tag == t && m.history == i.history
            && m.lastError == i.lastError && m.streak == 0 && m.ring == []
            && m.revision == (if i.revision > 0 then i.revision else 0)
            && (m.evicted <==> i.evicted || i.nodeId in w.marks)
            && (i.evictedAt.Some? ==> m.evictedAt == i.evictedAt)
            && (i.evictedAt.None? ==> m.evictedAt == if m.evicted then Some(now) else None)
    ensures forall s :: s in members && members[s].evicted ==> members[s].nodeId in w'.marks
    ensures w'.groups[g].window == (if window <= 0 then 300 * 1_000_000_000 else window)
    ensures w'.groups[g].threshold == (if threshold <= 0 then 3 else threshold)
    ensures w'.groups[g].policy == policy
  {
    hide Propagated, Raised, SourcesOf, EvictedNodes, RegisteredMembers;
    var marks := w.marks + EvictedNodes(members);
    var built := RegisteredMembers(members, marks, now);
    var r := RegisteredRuntime(g, window, threshold, preferred, built, policy);
    var clock: nat, restored :|
      && Raised(w.clock, clock, members, restored)
      && Propagated(World(w.groups[g := r], marks, clock, w.events, w.stamps + restored), w', SourcesOf(r.members, {}));
    var mid := World(w.groups[g := r], marks, clock, w.events, w.stamps + restored);
    InstalledUntouched(mid, w', g, built);
    BuiltAs(members, marks, now, t);
    MarkedByItself(members, w.marks, t);
  }

  lemma BuiltAs(members: map<Tag, Initial>, marks: set<int>, now: int, t: Tag)
    requires t in members
    ensures var built := RegisteredMembers(members, marks, now);
            built.Keys == members.Keys && built[t] == Registered(t, members[t], members[t].nodeId in marks, now)
  {
  }

  // Members that are evicted already are no prey of the closing propagation, and the others are no sources.
  lemma InstalledUntouched(mid: World, w': World, g: int, built: map<Tag, Member>)
    requires g in mid.groups && mid.groups[g].members == built && OneTagPerNode(built)
    requires forall t :: t in built && built[t].evicted ==> built[t].evictedAt.Some?
    requires Propagated(mid, w', SourcesOf(built, {}))
    ensures g in w'.groups && w'.groups[g].members == built && w'.marks == mid.marks
    ensures w'.groups[g] == mid.groups[g].(currentTag := w'.groups[g].currentTag)
  {
    hide AnnouncesStruck, Advances;
    var r, r' := mid.groups[g], w'.groups[g];
    forall t | t in built ensures r'.members[t] == built[t] {
      assert StruckTo(r.members[t], r'.members[t], SourcesOf(built, {}), mid.clock, w'.clock);
    }
    assert r'.members == built;
  }

  lemma MarkedByItself(members: map<Tag, Initial>, before: set<int>, t: Tag)
    requires Distinct(members) && t in members
    ensures members[t].nodeId in before + EvictedNodes(members) <==> members[t].evicted || members[t].nodeId in before
    ensures forall s :: s in members && members[s].evicted ==> members[s].nodeId in before + EvictedNodes(members)
  {
  }

  /** Missing numbers of a recovery policy become the defaults, three successes and no cooldown below zero; a policy
      that was switched off stays off, and one that was not given at all changes nothing. */
  lemma PolicyFilledIn(r: Runtime, u: Update)
    ensures var p := PolicyOf(r, u);
            if !u.recovery.enabled && u.recovery.successThreshold == 0 && u.recovery.cooldown == 0 then p == r.policy
            else
              p.enabled == u.recovery.enabled
              && p.successThreshold == (if u.recovery.successThreshold <= 0 then 3 else u.recovery.successThreshold)
              && p.cooldown == (if u.recovery.cooldown < 0 then 0 else u.recovery.cooldown)
  {
  }

  // -------------------------------------------------------------------------------------------
  // Reconciliation
  // -------------------------------------------------------------------------------------------

  /** What a reconciliation makes of one member, by what its node had before. A live member keeps under its new tag what
      it had, a newcomer has what was stored; expired failures are dropped, the marks and the new threshold may evict,
      and a streak survives only under the same tag and policy. */
  lemma RebuildKeeps(r: Runtime, marks: set<int>, u: Update, now: int, t: Tag, x: int)
    requires OneTagPerNode(r.members) && t in u.members
    ensures var i, b := u.members[t], RebuiltFor(r, marks, u, now, t);
            var m, prior := b.member, OldMember(r, u.members[t].nodeId);
            var had, evictedBefore := if prior.Some? then prior.value.history else i.history,
                                      if prior.Some? then prior.value.evicted else i.evicted;
            var window, threshold := if u.window <= 0 then 300 * 1_000_000_000 else u.window,
                                     if u.threshold <= 0 then 3 else u.threshold;
            var errorBefore, dated := if prior.Some? then prior.value.lastError else i.lastError,
                                      if prior.Some? then prior.value.evictedAt else i.evictedAt;
            && m.standby == i.standby && m.nodeId == i.nodeId && m.tag == t && m.ring == []
            && (x in m.history <==> x in had && !Expired(x, window, now))
            && (m.evicted <==> evictedBefore || i.nodeId in marks || |m.history| >= threshold)
            && m.lastError == (if had != [] && m.history == [] then "" else errorBefore)
            && m.evictedAt == (if !evictedBefore && i.nodeId !in marks && m.evicted then Some(now)
                               else if m.evicted && dated.None? then Some(now) else dated)
            && (prior.Some? ==>
                  m.revision == prior.value.revision
                  && m.streak == (if m.evicted && prior.value.streak > 0
                                     && (prior.value.tag != t || PolicyOf(r, u) != r.policy)
                                  then 0 else prior.value.streak))
            && (prior.None? ==> m.streak == 0 && m.revision == if i.revision > 0 then i.revision else 0)
            && (b.announce <==> m.history != had || (m.evicted && !evictedBefore && i.nodeId !in marks))
  {
    hide RebuiltFor, OldMember, PolicyOf, Unix;
    var i, prior := u.members[t], OldMember(r, u.members[t].nodeId);
    var moved := PolicyOf(r, u) != r.policy;
    assert RebuiltFor(r, marks, u, now, t)
        == Rebuild(t, i, prior, i.nodeId in marks, WindowOf(u), ThresholdOf(u), moved, now) by {
      RebuiltForIs(r, marks, u, now, t);
    }
    RebuildHistory(t, i, prior, i.nodeId in marks, WindowOf(u), ThresholdOf(u), moved, now, x);
    RebuildFlags(t, i, prior, i.nodeId in marks, WindowOf(u), ThresholdOf(u), moved, now);
    hide Rebuild;
  }

  lemma RebuiltForIs(r: Runtime, marks: set<int>, u: Update, now: int, t: Tag)
    requires OneTagPerNode(r.members) && t in u.members
    ensures RebuiltFor(r, marks, u, now, t)
         == Rebuild(t, u.members[t], OldMember(r, u.members[t].nodeId), u.members[t].nodeId in marks, WindowOf(u),
                    ThresholdOf(u), PolicyOf(r, u) != r.policy, now)
  {
  }

  lemma RebuildHistory(t: Tag, i: Initial, prior: Option<Member>, marked: bool, window: int, threshold: int,
                       moved: bool, now: int, x: int)
    ensures var m := Rebuild(t, i, prior, marked, window, threshold, moved, now).member;
            var had := if prior.Some? then prior.value.history else i.history;
            x in m.history <==> x in had && !Expired(x, window, now)
  {
    SurvivorsMembers(if prior.Some? then prior.value.history else i.history, Cutoff(now, window), x);
    hide Survivors;
  }

  lemma RebuildFlags(t: Tag, i: Initial, prior: Option<Member>, marked: bool, window: int, threshold: int, moved: bool,
                     now: int)
    ensures var b := Rebuild(t, i, prior, marked, window, threshold, moved, now);
            var m := b.member;
            var had, evictedBefore := if prior.Some? then prior.value.history else i.history,
                                      if prior.Some? then prior.value.evicted else i.evicted;
            var errorBefore, dated := if prior.Some? then prior.value.lastError else i.lastError,
                                      if prior.Some? then prior.value.evictedAt else i.evictedAt;
            && m.standby == i.standby && m.nodeId == i.nodeId && m.tag == t && m.ring == []
            && (m.evicted <==> evictedBefore || marked || |m.history| >= threshold)
            && m.lastError == (if had != [] && m.history == [] then "" else errorBefore)
            && m.evictedAt == (if !evictedBefore && !marked && m.evicted then Some(now)
                               else if m.evicted && dated.None? then Some(now) else dated)
            && (prior.Some? ==>
                  m.revision == prior.value.revision
                  && m.streak == (if m.evicted && prior.value.streak > 0 && (prior.value.tag != t || moved) then 0
                                  else prior.value.streak))
            && (prior.None? ==> m.streak == 0 && m.revision == if i.revision > 0 then i.revision else 0)
            && (b.announce <==> m.history != had || (m.evicted && !evictedBefore && !marked))
  {
    hide Survivors, Cutoff;
  }

  /** The live member of a node is the one that names it. */
  lemma PriorIs(r: Runtime, n: int)
    requires OneTagPerNode(r.members)
    ensures OldMember(r, n).None? <==> forall s :: s in r.members ==> r.members[s].nodeId != n
    ensures OldMember(r, n).Some? ==>
              exists s :: s in r.members && r.members[s].nodeId == n && r.members[s] == OldMember(r, n).value
  {
  }

  /** Who is current after a reconciliation: the node that was, under whatever tag it has now, if it may serve; else, if
      nobody was, the preferred node if it may; otherwise nobody. */
  lemma CurrentSurvives(w: World, w': World, g: int, u: Update, now: int, evs: seq<StateEvent>, t: Tag)
    requires g in w.groups && OneTagPerNode(w.groups[g].members) && Reconciled(w, w', g, u, now, evs)
    requires g in w'.groups && t in w'.groups[g].members && OneTagPerNode(w'.groups[g].members)
    ensures var r, r' := w.groups[g], w'.groups[g];
            var wanted := if r.currentTag in r.members && r.members[r.currentTag].nodeId != 0
                          then r.members[r.currentTag].nodeId else u.preferredNodeId;
            var m := r'.members[t];
            && (m.nodeId == wanted && !m.standby && !m.evicted && m.history == [] ==> r'.currentTag == t)
            && (r'.currentTag == t && t != "" ==> m.nodeId == wanted && !m.standby && !m.evicted && m.history == [])
  {
    hide RebuiltFor, RebuiltBut, PrunedMarks;
    var r, r' := w.groups[g], w'.groups[g];
    if MayServe(r'.members, t) && Prefers(r, u, r'.members[t].nodeId) {
      assert MayServe(r'.members, r'.currentTag) && Prefers(r, u, r'.members[r'.currentTag].nodeId);
    }
  }

  /** The marks after a reconciliation: those from before and those of the nodes it evicted, except that a node that
      left this group and is evicted in no group any more loses its mark. */
  lemma MarksAfterReconcile(w: World, w': World, g: int, u: Update, now: int, evs: seq<StateEvent>, n: int)
    requires Inv(w) && g in w.groups && Distinct(u.members) && OneTagPerNode(w.groups[g].members)
    requires Reconciled(w, w', g, u, now, evs)
    ensures var left := (exists s :: s in w.groups[g].members && w.groups[g].members[s].nodeId == n)
                        && (forall t :: t in u.members ==> u.members[t].nodeId != n);
            var evicts :=
              exists t ::
                t in u.members && u.members[t].nodeId == n && RebuiltFor(w.groups[g], w.marks, u, now, t).newlyEvicted;
            n in w'.marks <==>
              (n in w.marks || evicts)
              && (left ==>
                    exists h, t ::
                      Holds(w', h, t) && w'.groups[h].members[t].nodeId == n && w'.groups[h].members[t].evicted)
  {
    hide RebuiltFor, RebuiltStamps, FreshEvents, OwedBy, CurrentAfter, Inv;
    var r := w.groups[g];
    assert n in Newly(r, w.marks, u, now, {}) <==>
           exists t :: t in u.members && u.members[t].nodeId == n && RebuiltFor(r, w.marks, u, now, t).newlyEvicted;
    assert n in Removed(r, u) <==>
           (exists s :: s in r.members && r.members[s].nodeId == n)
               && (forall t :: t in u.members ==> u.members[t].nodeId != n);
    assert EvictedSomewhere(w'.groups, n) <==>
           exists h, t :: Holds(w', h, t) && w'.groups[h].members[t].nodeId == n && w'.groups[h].members[t].evicted;
  }
}
