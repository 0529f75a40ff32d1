/** What the observers are told.  Announcements are built in several places, some from the member and some from
    scratch; each of them says what the member it names holds once the call is over. */
module GroupAnnouncements {
  import opened Basics
  import opened FailureWindow
  import opened ProbeRing
  import opened GroupMember
  import opened GroupWorld
  import opened GroupReconciliation
  import opened GroupInvariants

  /** The announcement gives the durable state of a member, field by field; of a date that a member in service still
      bears it may say nothing. */
  predicate Tells(e: StateEvent, g: int, m: Member) {
    && e.groupId == g && e.nodeId == m.nodeId && e.history == m.history && e.evicted == m.evicted
    && e.lastError == m.lastError && e.revision == m.revision
    && (e.evictedAt == m.evictedAt || (!m.evicted && e.evictedAt.None?))
  }

  ghost predicate Told(w: World, e: StateEvent) {
    exists t :: Holds(w, e.groupId, t) && Tells(e, e.groupId, w.groups[e.groupId].members[t])
  }

  ghost predicate AllTold(w: World, w': World) {
    w.events <= w'.events && forall i :: 0 <= i < |NewEvents(w, w')| ==> Told(w', NewEvents(w, w')[i])
  }

  predicate UndatedMember(m: Member) {
    !m.evicted ==> m.evictedAt.None?
  }

  /** Only evictions are dated. */
  ghost predicate Undated(w: World) {
    forall g, t :: Holds(w, g, t) ==> UndatedMember(w.groups[g].members[t])
  }

  ghost predicate DatesEvictions(members: map<Tag, Initial>) {
    forall t :: t in members ==> members[t].evicted || members[t].evictedAt.None?
  }

  // The persisted state a call reads back dates evictions only.
  ghost predicate ReadsUndated(c: Call) {
    match c
    case Install(_, _, _, _, initial, _, _) => DatesEvictions(initial)
    case Reconcile(_, u, _) => DatesEvictions(u.members)
    case _ => true
  }

  // -------------------------------------------------------------------------------------------
  // Propagation and recovery
  // -------------------------------------------------------------------------------------------

  lemma StrikesTold(w: World, w': World, src: map<int, Source>)
    requires Propagated(w, w', src)
    ensures AllTold(w, w') && (Undated(w) ==> Undated(w'))
  {
    var evs := NewEvents(w, w');
    forall i | 0 <= i < |evs| ensures Told(w', evs[i]) {
      assert IsStrike(w, w', src, evs[i]);
    }
    hide AnnouncesStruck, Advances;
    forall g, t | Holds(w', g, t) && Undated(w) ensures UndatedMember(w'.groups[g].members[t]) {
      assert Holds(w, g, t);
      assert StruckTo(w.groups[g].members[t], w'.groups[g].members[t], src, w.clock, w'.clock);
    }
  }

  // A member that is evicted, or whose node is no source, is left alone.
  lemma EvictedUnmoved(w: World, w': World, src: map<int, Source>, g: int, t: Tag)
    requires Propagated(w, w', src) && Holds(w, g, t) && w.groups[g].members[t].evicted
    ensures Holds(w', g, t) && w'.groups[g].members[t] == w.groups[g].members[t]
  {
    assert StruckTo(w.groups[g].members[t], w'.groups[g].members[t], src, w.clock, w'.clock);
  }

  lemma FreeingsTold(w: World, w': World, n: int, scope: Scope, origin: int)
    requires FreedEverywhere(w, w', n, scope, origin)
    ensures AllTold(w, w') && (Undated(w) ==> Undated(w'))
  {
    var evs := NewEvents(w, w');
    forall i | 0 <= i < |evs| ensures Told(w', evs[i]) {
      assert IsFreeing(w, w', n, scope, evs[i]) && evs[i].groupId != origin;
      FreeingTold(w, w', n, scope, origin, evs[i]);
    }
    hide AnnouncesFreed, Advances;
    forall g, t | Holds(w', g, t) && Undated(w) ensures UndatedMember(w'.groups[g].members[t]) {
      assert Holds(w, g, t);
      if g != origin {
        assert FreedTo(w.groups[g].members[t], w'.groups[g].members[t], n, scope, w.clock, w'.clock);
      }
    }
  }

  lemma FreeingTold(w: World, w': World, n: int, scope: Scope, origin: int, e: StateEvent)
    requires FreedEverywhere(w, w', n, scope, origin) && IsFreeing(w, w', n, scope, e) && e.groupId != origin
    ensures Told(w', e)
  {
    hide AnnouncesFreed, Advances;
    var t :| Holds(w, e.groupId, t) && Holds(w', e.groupId, t) && Freed(w.groups[e.groupId].members[t], n, scope)
             && e == CleanEvent(e.groupId, n, w'.groups[e.groupId].members[t].revision);
    assert FreedTo(w.groups[e.groupId].members[t], w'.groups[e.groupId].members[t], n, scope, w.clock, w'.clock);
  }

  // -------------------------------------------------------------------------------------------
  // Reports
  // -------------------------------------------------------------------------------------------

  // What the announcement of an outcome says is so.
  predicate Truthful(m: Member, out: Outcome, clock: nat) {
    && (UndatedMember(m) ==> UndatedMember(out.member)) && out.member.nodeId == m.nodeId && out.member.tag == m.tag
    && (out.effect.Readmitted? || out.effect.Trusted? ==>
          && out.member.history == [] && !out.member.evicted && out.member.lastError == ""
          && out.member.revision == clock + 1)
    && (out.effect.Evicted? ==> out.member.evicted)
  }

  lemma OutcomesTruthful(w: World, g: int, t: Tag, probe: ProbeId, at: int, cause: Option<string>)
    requires Holds(w, g, t)
    ensures var m := w.groups[g].members[t];
            && Truthful(m, DialOutcome(w, g, t, at, cause), w.clock)
            && Truthful(m, ProbeFailureOutcome(w, g, t, probe, at, cause), w.clock)
            && Truthful(m, ProbeSuccessOutcome(w, g, t, probe, at), w.clock)
  {
  }

  lemma OriginTold(w: World, g: int, t: Tag, out: Outcome)
    requires Holds(w, g, t) && Truthful(w.groups[g].members[t], out, w.clock)
    ensures var mid := Origin(w, g, t, out);
            && (Undated(w) ==> Undated(mid)) && AllTold(w, mid) && Holds(mid, g, t)
               && mid.groups[g].members[t] == out.member
            && (forall i :: 0 <= i < |NewEvents(w, mid)| ==> Tells(NewEvents(w, mid)[i], g, out.member))
  {
    var mid := Origin(w, g, t, out);
    var evs := NewEvents(w, mid);
    forall i | 0 <= i < |evs| ensures Tells(evs[i], g, out.member) && Told(mid, evs[i]) {
      assert Holds(mid, g, t) && mid.groups[g].members[t] == out.member;
    }
    forall h, s | Holds(mid, h, s) && Undated(w) ensures UndatedMember(mid.groups[h].members[s]) {
      assert Holds(w, h, s);
      assert Holds(w, g, t);
    }
  }

  // The first events tell of a member that the rest of the call leaves alone, the others are told by then.
  lemma ToldTogether(w: World, mid: World, w': World, g: int, t: Tag)
    requires w.events <= mid.events && AllTold(mid, w') && Holds(w', g, t)
    requires forall i :: 0 <= i < |NewEvents(w, mid)| ==> Tells(NewEvents(w, mid)[i], g, w'.groups[g].members[t])
    ensures AllTold(w, w')
  {
    var a, b := NewEvents(w, mid), NewEvents(mid, w');
    assert NewEvents(w, w') == a + b;
    forall i | 0 <= i < |a + b| ensures Told(w', (a + b)[i]) {
      if i < |a| {
        assert Holds(w', a[i].groupId, t) && Tells(a[i], a[i].groupId, w'.groups[a[i].groupId].members[t]);
      }
    }
  }

  lemma ReportTold(w: World, w': World, g: int, t: Tag, out: Outcome)
    requires Holds(w, g, t) && Truthful(w.groups[g].members[t], out, w.clock)
    requires Reported(w, w', g, t, out)
    ensures AllTold(w, w') && (Undated(w) ==> Undated(w'))
  {
    hide Undated, Tells, Told, Propagated, Origin, AllTold, Truthful;
    var mid := Origin(w, g, t, out);
    OriginTold(w, g, t, out);
    OriginExtends(w, g, t, out);
    if out.effect.Evicted? && out.member.evictedAt.Some? {
      var n := out.member.nodeId;
      var src := map[n := Source(out.member.evictedAt.value, out.member.lastError)];
      EvictedIsSo(w.groups[g].members[t], out, w.clock);
      UndatedAnyMarks(mid, mid.marks + {n});
      StrikesTold(mid.(marks := mid.marks + {n}), w', src);
      EvictedUnmoved(mid.(marks := mid.marks + {n}), w', src, g, t);
      AnyMarksTold(mid, mid.marks + {n}, w');
      ToldTogether(w, mid, w', g, t);
    }
  }

  lemma EvictedIsSo(m: Member, out: Outcome, clock: nat)
    requires Truthful(m, out, clock) && out.effect.Evicted?
    ensures out.member.evicted
  {
  }

  lemma OriginExtends(w: World, g: int, t: Tag, out: Outcome)
    requires Holds(w, g, t)
    ensures w.events <= Origin(w, g, t, out).events
  {
  }

  lemma UndatedAnyMarks(w: World, marks: set<int>)
    ensures Undated(w) ==> Undated(w.(marks := marks))
  {
    forall g, t | Holds(w.(marks := marks), g, t) && Undated(w) ensures UndatedMember(w.groups[g].members[t]) {
      assert Holds(w, g, t);
    }
  }

  lemma AnyMarksTold(w: World, marks: set<int>, w': World)
    requires AllTold(w.(marks := marks), w')
    ensures AllTold(w, w')
  {
    assert NewEvents(w.(marks := marks), w') == NewEvents(w, w');
  }

  lemma SuccessTold(w: World, w': World, g: int, t: Tag, out: Outcome)
    requires Holds(w, g, t) && Truthful(w.groups[g].members[t], out, w.clock)
    requires Succeeded(w, w', g, t, out)
    ensures AllTold(w, w') && (Undated(w) ==> Undated(w'))
  {
    hide Undated, Tells, Told, Origin, AllTold, Truthful, FreedBut;
    var mid := Origin(w, g, t, out);
    OriginTold(w, g, t, out);
    OriginExtends(w, g, t, out);
    if out.effect.Readmitted? {
      var n := out.member.nodeId;
      UndatedAnyMarks(mid, mid.marks - {n});
      FreeingsTold(mid.(marks := mid.marks - {n}), w', n, EvictedOnly, g);
      OriginUnmoved(mid.(marks := mid.marks - {n}), w', n, EvictedOnly, g);
      AnyMarksTold(mid, mid.marks - {n}, w');
      assert Holds(w', g, t);
      ToldTogether(w, mid, w', g, t);
    }
  }

  lemma OriginUnmoved(w: World, w': World, n: int, scope: Scope, origin: int)
    requires FreedEverywhere(w, w', n, scope, origin) && origin in w.groups
    ensures origin in w'.groups && w'.groups[origin] == w.groups[origin]
  {
  }

  // -------------------------------------------------------------------------------------------
  // Registration and reconciliation
  // -------------------------------------------------------------------------------------------

  lemma RegisteredTold(w: World, w': World, g: int, r: Runtime, members: map<Tag, Initial>, marks: set<int>, now: int)
    requires OneTagPerNode(r.members) && r.members == RegisteredMembers(members, marks, now)
    requires forall t :: t in r.members && r.members[t].evicted ==> r.members[t].evictedAt.Some?
    requires Installed(w, w', g, r, members)
    ensures AllTold(w, w') && (Undated(w) && DatesEvictions(members) ==> Undated(w'))
  {
    hide Undated, AllTold, Propagated, RegisteredMembers, SourcesOf, EvictedNodes, Raised;
    var clock: nat, restored :|
      && Raised(w.clock, clock, members, restored)
      && Propagated(World(w.groups[g := r], w.marks + EvictedNodes(members), clock, w.events, w.stamps + restored), w',
                    SourcesOf(r.members, {}));
    var mid := World(w.groups[g := r], w.marks + EvictedNodes(members), clock, w.events, w.stamps + restored);
    InstalledUndated(w, mid, g, r, members, marks, now);
    StrikesTold(mid, w', SourcesOf(r.members, {}));
    LaterTold(w, mid, w');
  }

  lemma LaterTold(w: World, mid: World, w': World)
    requires mid.events == w.events && AllTold(mid, w')
    ensures AllTold(w, w')
  {
    assert NewEvents(w, w') == NewEvents(mid, w');
  }

  lemma InstalledUndated(w: World, mid: World, g: int, r: Runtime, members: map<Tag, Initial>, marks: set<int>,
                         now: int)
    requires r.members == RegisteredMembers(members, marks, now) && mid.groups == w.groups[g := r]
    ensures Undated(w) && DatesEvictions(members) ==> Undated(mid)
  {
    forall h, t | Holds(mid, h, t) && Undated(w) && DatesEvictions(members)
        ensures UndatedMember(mid.groups[h].members[t]) {
      assert h != g ==> Holds(w, h, t);
    }
  }

  lemma RebuiltUndated(r: Runtime, marks: set<int>, u: Update, now: int, t: Tag)
    requires OneTagPerNode(r.members) && t in u.members && (u.members[t].evicted || u.members[t].evictedAt.None?)
    requires forall s :: s in r.members ==> UndatedMember(r.members[s])
    ensures UndatedMember(RebuiltFor(r, marks, u, now, t).member)
  {
    hide Survivors, Restamped;
  }

  lemma ReconciledUndated(w: World, mid: World, g: int, u: Update, now: int, evs: seq<StateEvent>)
    requires g in w.groups && OneTagPerNode(w.groups[g].members)
    requires Reconciled(w, mid, g, u, now, evs)
    ensures (Undated(w) && DatesEvictions(u.members) ==> Undated(mid)) && mid.events == w.events
    ensures forall i :: 0 <= i < |evs| ==> Told(mid, evs[i])
  {
    hide RebuiltFor, RebuiltStamps, FreshEvents;
    var r := w.groups[g];
    assert forall s :: s in r.members ==> Holds(w, g, s);
    forall h, t | Holds(mid, h, t) && Undated(w) && DatesEvictions(u.members)
        ensures UndatedMember(mid.groups[h].members[t]) {
      if h == g {
        RebuiltUndated(r, w.marks, u, now, t);
        assert RebuiltTo(mid.groups[g].members[t], RebuiltFor(r, w.marks, u, now, t), w.clock, mid.clock);
      } else {
        assert Holds(w, h, t);
      }
    }
    forall i | 0 <= i < |evs| ensures Told(mid, evs[i]) {
      assert OwedBy(r, g, w.marks, u, now, mid.groups[g].members, evs[i]);
      var t :| t in mid.groups[g].members && evs[i] == EventOf(g, mid.groups[g].members[t]);
      assert Holds(mid, g, t);
    }
  }

  lemma NotifiedTold(w: World, w': World, g: int, evs: seq<StateEvent>, now: int, lo: int)
    requires Notified(w, w', g, evs, now, lo) && g in w.groups
    requires forall i :: 0 <= i < |evs| ==> evs[i].groupId == g && Told(w, evs[i])
    requires forall t :: t in w.groups[g].members && w.groups[g].members[t].nodeId in EventSources(evs, now) ==>
               w.groups[g].members[t].evicted
    ensures AllTold(w, w') && (Undated(w) ==> Undated(w'))
  {
    hide FreshEvents, Advances, Outranks;
    AdvancesFacts(w, w');
    var src := EventSources(evs, now);
    hide EventSources;
    forall t | t in w.groups[g].members ensures Holds(w', g, t) && w'.groups[g].members[t] == w.groups[g].members[t] {
      assert StruckTo(w.groups[g].members[t], w'.groups[g].members[t], src, w.clock, w'.clock);
    }
    var all := NewEvents(w, w');
    forall i | 0 <= i < |all| ensures Told(w', all[i]) {
      if all[i] in evs {
        var t :| Holds(w, g, t) && Tells(all[i], g, w.groups[g].members[t]);
        assert Holds(w', g, t);
      } else {
        assert IsStrike(w, w', src, all[i]);
      }
    }
    forall h, t | Holds(w', h, t) && Undated(w) ensures UndatedMember(w'.groups[h].members[t]) {
      assert Holds(w, h, t);
      assert StruckTo(w.groups[h].members[t], w'.groups[h].members[t], src, w.clock, w'.clock);
    }
  }

  lemma SourcesEvicted(w: World, g: int, evs: seq<StateEvent>, now: int, lo: int)
    requires OwedEvents(w, g, evs, lo) && g in w.groups
    ensures forall i :: 0 <= i < |evs| ==> evs[i].groupId == g
    ensures forall t :: t in w.groups[g].members && w.groups[g].members[t].nodeId in EventSources(evs, now) ==>
              w.groups[g].members[t].evicted
  {
    SourcesAreEvents(evs, |evs|, now);
    assert evs[..|evs|] == evs;
  }

  lemma ReconcileTold(w: World, mid: World, w': World, g: int, u: Update, now: int, evs: seq<StateEvent>)
    requires Shape(w) && g in w.groups && Distinct(u.members) && OneTagPerNode(w.groups[g].members)
    requires Reconciled(w, mid, g, u, now, evs) && Notified(mid, w', g, evs, now, w.clock)
    ensures AllTold(w, w') && (Undated(w) && DatesEvictions(u.members) ==> Undated(w'))
  {
    ReconciledOwes(w, mid, g, u, now, evs);
    ReconciledUndated(w, mid, g, u, now, evs);
    assert g in mid.groups;
    hide Reconciled, Notified, Undated, Told, Shape;
    SourcesEvicted(mid, g, evs, now, w.clock);
    NotifiedTold(mid, w', g, evs, now, w.clock);
    assert NewEvents(w, w') == NewEvents(mid, w');
  }

  // -------------------------------------------------------------------------------------------
  // Calls and runs
  // -------------------------------------------------------------------------------------------

  // A call that announces nothing and dates nothing.
  lemma QuietTold(w: World, w': World)
    requires w'.events == w.events
    requires forall g, t :: Holds(w', g, t) ==>
               Holds(w, g, t) && w'.groups[g].members[t].evicted == w.groups[g].members[t].evicted
               && w'.groups[g].members[t].evictedAt == w.groups[g].members[t].evictedAt
    ensures AllTold(w, w') && (Undated(w) ==> Undated(w'))
  {
    forall g, t | Holds(w', g, t) && Undated(w) ensures UndatedMember(w'.groups[g].members[t]) {
      assert UndatedMember(w.groups[g].members[t]);
    }
  }

  lemma QuietCallsTold(w: World, w': World, c: Call)
    requires Does(w, w', c) && (c.Uninstall? || c.Select? || c.AskCurrent? || c.AskAvailable?)
    ensures AllTold(w, w') && (Undated(w) ==> Undated(w'))
  {
    hide Undated, AllTold, Survivors;
    QuietTold(w, w');
  }

  /** Every call tells the truth: each of its announcements names a member and gives its history, eviction, error, date
      and revision as they are when the call is over. */
  lemma CallTells(w: World, w': World, c: Call)
    requires Inv(w) && Does(w, w', c)
    ensures AllTold(w, w') && (Undated(w) && ReadsUndated(c) ==> Undated(w'))
  {
    hide Undated, AllTold, Reported, Succeeded, FreedEverywhere, Installed, Reconciled, Notified, RegisteredMembers,
      ReadCurrent, ReadAvailable, NewcomersMarked, Agrees, Sound, EventsOrdered, Truthful, Shape;
    match c
    case FailDial(g, t, at, cause) =>
      if Holds(w, g, t) {
        OutcomesTruthful(w, g, t, "", at, cause);
        ReportTold(w, w', g, t, DialOutcome(w, g, t, at, cause));
      } else {
        NothingTold(w);
      }
    case FailProbe(g, t, probe, at, cause) =>
      if Holds(w, g, t) {
        OutcomesTruthful(w, g, t, probe, at, cause);
        ReportTold(w, w', g, t, ProbeFailureOutcome(w, g, t, probe, at, cause));
      } else {
        NothingTold(w);
      }
    case PassProbe(g, t, probe, at) =>
      if Holds(w, g, t) {
        OutcomesTruthful(w, g, t, probe, at, None);
        SuccessTold(w, w', g, t, ProbeSuccessOutcome(w, g, t, probe, at));
      } else {
        NothingTold(w);
      }
    case RestoreNode(g, n) =>
      if g in w.groups {
        UndatedAnyMarks(w, w.marks - {n});
        FreeingsTold(w.(marks := w.marks - {n}), w', n, Everyone, 0);
        AnyMarksTold(w, w.marks - {n}, w');
      } else {
        NothingTold(w);
      }
    case Install(g, window, threshold, preferred, initial, policy, at) =>
      var marks := w.marks + EvictedNodes(initial);
      var members := RegisteredMembers(initial, marks, at);
      RegisteredTold(w, w', g, RegisteredRuntime(g, window, threshold, preferred, members, Normalize(policy)), initial,
                     marks, at);
    case Reconcile(g, u, at) =>
      if g in w.groups && OneTagPerNode(w.groups[g].members) {
        var mid, evs :| Reconciled(w, mid, g, u, at, evs) && Notified(mid, w', g, evs, at, w.clock);
        ReconcileTold(w, mid, w', g, u, at, evs);
      } else {
        NothingTold(w);
      }
    case _ =>
      QuietCallsTold(w, w', c);
  }

  lemma NothingTold(w: World)
    ensures AllTold(w, w)
  {
  }

  /** Over whole runs: whoever follows the announcements knows, after each call, the state of every member announced. */
  lemma {:induction false} RunsTell(ws: seq<World>, cs: seq<Call>, k: nat)
    requires GroupInvariants.Run(ws, cs) && k < |ws|
    ensures k > 0 ==> AllTold(ws[k - 1], ws[k])
    ensures (forall c :: c in cs ==> ReadsUndated(c)) ==> Undated(ws[k])
  {
    hide Does, Undated, AllTold, Inv, ReadsUndated;
    if k == 0 {
      NobodyDated();
    } else {
      RunsTell(ws, cs, k - 1);
      RunsKeepInv(ws, cs);
      assert Inv(ws[k - 1]) && Does(ws[k - 1], ws[k - 1 + 1], cs[k - 1]) && cs[k - 1] in cs;
      CallTells(ws[k - 1], ws[k], cs[k - 1]);
    }
  }

  /** With stored rows that date evictions only, the date is told exactly as well. */
  lemma DatesAreTold(w: World, e: StateEvent)
    requires Told(w, e) && Undated(w)
    ensures exists t :: Holds(w, e.groupId, t) && e == EventOf(e.groupId, w.groups[e.groupId].members[t])
  {
    var t :| Holds(w, e.groupId, t) && Tells(e, e.groupId, w.groups[e.groupId].members[t]);
    assert UndatedMember(w.groups[e.groupId].members[t]);
  }

  lemma NobodyDated()
    ensures Undated(World(map[], {}, 0, [], []))
  {
  }
}
