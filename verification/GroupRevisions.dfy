/** The revision order.  Two writers persist member states and keep the one with the higher revision, so a
    revision that is stamped on a change must be above every revision handed out before it: those issued to
    earlier changes of any group, and those read back from persisted state. */
module GroupRevisions {
  import opened Basics
  import opened FailureWindow
  import opened ProbeRing
  import opened GroupMember
  import opened GroupWorld
  import opened GroupReconciliation
  import opened GroupInvariants

  // A member carries no revision, or one that was handed out.
  predicate HandedOut(stamps: seq<Stamp>, revision: int) {
    revision == 0 || Issued(revision) in stamps || Restored(revision) in stamps
  }

  ghost predicate MembersStamped(r: Runtime, stamps: seq<Stamp>) {
    forall t :: t in r.members ==> HandedOut(stamps, r.members[t].revision)
  }

  ghost predicate EventsIssued(evs: seq<StateEvent>, stamps: seq<Stamp>) {
    forall i :: 0 <= i < |evs| ==> Issued(evs[i].revision) in stamps
  }

  /** Each revision issued is above all handed out before it, every announcement carries an issued one, and
      every member one that was handed out. */
  ghost predicate Ledger(w: World) {
    && Outranks(w.stamps, 0, w.clock)
    && EventsIssued(w.events, w.stamps)
    && forall g :: g in w.groups ==> MembersStamped(w.groups[g], w.stamps)
  }

  /** A step of the clock: what is announced was issued during the step, above all that was handed out before. */
  ghost predicate Grows(w: World, w': World) {
    Advances(w, w') && EventsIssued(NewEvents(w, w'), NewStamps(w, w'))
  }

  lemma GrowsFurther(w: World, mid: World, w': World)
    requires Grows(w, mid) && Grows(mid, w')
    ensures Grows(w, w')
  {
    AdvancesFurther(w, mid, w');
    LaterStamps(w, mid, w');
    assert NewEvents(w, w') == NewEvents(w, mid) + NewEvents(mid, w');
  }

  // The part of the ledger that a step of the clock keeps by itself.
  lemma GrownLedger(w: World, w': World)
    requires Ledger(w) && Grows(w, w')
    requires forall g :: g in w'.groups ==> MembersStamped(w'.groups[g], w'.stamps)
    ensures Ledger(w')
  {
  }

  lemma StampsStay(r: Runtime, stamps: seq<Stamp>, stamps': seq<Stamp>)
    requires MembersStamped(r, stamps) && stamps <= stamps'
    ensures MembersStamped(r, stamps')
  {
  }

  // -------------------------------------------------------------------------------------------
  // Propagation and recovery
  // -------------------------------------------------------------------------------------------

  lemma PropagationGrows(w: World, w': World, src: map<int, Source>)
    requires Propagated(w, w', src)
    ensures Grows(w, w')
  {
    AnnouncedWereIssued(w, w');
  }

  lemma PropagationKeepsLedger(w: World, w': World, src: map<int, Source>)
    requires Ledger(w) && Propagated(w, w', src)
    ensures Ledger(w') && Grows(w, w')
  {
    hide Advances, EventsIssued, Outranks, FreshEvents, IsStrike, StampsAnnounced, RuntimeShape, MembersStamped;
    PropagationGrows(w, w', src);
    AdvancesFacts(w, w');
    forall g | g in w'.groups ensures MembersStamped(w'.groups[g], w'.stamps) {
      StampsStay(w.groups[g], w.stamps, w'.stamps);
      StruckAreStamped(w, w', src, g);
    }
    GrownLedger(w, w');
  }

  lemma StruckAreStamped(w: World, w': World, src: map<int, Source>, g: int)
    requires Propagated(w, w', src) && Grows(w, w') && g in w.groups && MembersStamped(w.groups[g], w'.stamps)
    ensures MembersStamped(w'.groups[g], w'.stamps)
  {
  }

  lemma FreeingGrows(w: World, w': World, n: int, scope: Scope, origin: int)
    requires FreedEverywhere(w, w', n, scope, origin)
    ensures Grows(w, w')
  {
    AnnouncedWereIssued(w, w');
  }

  lemma FreeingKeepsLedger(w: World, w': World, n: int, scope: Scope, origin: int)
    requires Ledger(w) && FreedEverywhere(w, w', n, scope, origin)
    ensures Ledger(w') && Grows(w, w')
  {
    hide Advances, EventsIssued, Outranks, FreshEvents, IsFreeing, StampsAnnounced, RuntimeShape, MembersStamped;
    FreeingGrows(w, w', n, scope, origin);
    AdvancesFacts(w, w');
    forall g | g in w'.groups ensures MembersStamped(w'.groups[g], w'.stamps) {
      StampsStay(w.groups[g], w.stamps, w'.stamps);
      if g != origin {
        FreedAreStamped(w, w', n, scope, origin, g);
      }
    }
    GrownLedger(w, w');
  }

  lemma FreedAreStamped(w: World, w': World, n: int, scope: Scope, origin: int, g: int)
    requires FreedEverywhere(w, w', n, scope, origin) && Grows(w, w') && g in w.groups && g != origin
    requires MembersStamped(w.groups[g], w'.stamps)
    ensures MembersStamped(w'.groups[g], w'.stamps)
  {
  }

  // -------------------------------------------------------------------------------------------
  // Reports
  // -------------------------------------------------------------------------------------------

  // An outcome keeps its member's revision exactly when it is silent.
  predicate StampsOutcome(m: Member, out: Outcome, clock: nat) {
    out.member.revision == if out.effect.Silent? then m.revision else clock + 1
  }

  lemma OutcomesStamp(w: World, g: int, t: Tag, probe: ProbeId, at: int, cause: Option<string>)
    requires Holds(w, g, t)
    ensures var m := w.groups[g].members[t];
            && StampsOutcome(m, DialOutcome(w, g, t, at, cause), w.clock)
            && StampsOutcome(m, ProbeFailureOutcome(w, g, t, probe, at, cause), w.clock)
            && StampsOutcome(m, ProbeSuccessOutcome(w, g, t, probe, at), w.clock)
  {
  }

  lemma OriginKeepsLedger(w: World, g: int, t: Tag, out: Outcome)
    requires Ledger(w) && Holds(w, g, t) && StampsOutcome(w.groups[g].members[t], out, w.clock)
    ensures Ledger(Origin(w, g, t, out)) && Grows(w, Origin(w, g, t, out))
  {
    hide Outranks;
    var w' := Origin(w, g, t, out);
    OriginAdvances(w, g, t, out);
    if !out.effect.Silent? {
      assert NewStamps(w, w') == [Issued(w.clock + 1)] && |NewEvents(w, w')| == 1;
    }
    forall h | h in w'.groups ensures MembersStamped(w'.groups[h], w'.stamps) {
      StampsStay(w.groups[h], w.stamps, w'.stamps);
      assert h == g ==> HandedOut(w'.stamps, w.groups[g].members[t].revision);
      assert h == g && !out.effect.Silent? ==> NewStamps(w, w')[0] in w'.stamps;
    }
    GrownLedger(w, w');
  }

  // The marks play no part.
  lemma MarksDoNotMatter(w: World, marks: set<int>, w': World)
    requires Ledger(w)
    ensures Ledger(w.(marks := marks))
    ensures Grows(w.(marks := marks), w') ==> Grows(w, w')
  {
  }

  lemma ReportKeepsLedger(w: World, w': World, g: int, t: Tag, out: Outcome)
    requires Ledger(w) && Holds(w, g, t) && StampsOutcome(w.groups[g].members[t], out, w.clock)
    requires Reported(w, w', g, t, out)
    ensures Ledger(w') && Grows(w, w')
  {
    hide Ledger, Grows, Propagated, Origin;
    var mid := Origin(w, g, t, out);
    OriginKeepsLedger(w, g, t, out);
    if out.effect.Evicted? && out.member.evictedAt.Some? {
      var n := out.member.nodeId;
      MarksDoNotMatter(mid, mid.marks + {n}, w');
      PropagationKeepsLedger(mid.(marks := mid.marks + {n}), w',
                             map[n := Source(out.member.evictedAt.value, out.member.lastError)]);
      GrowsFurther(w, mid, w');
    }
  }

  lemma SuccessKeepsLedger(w: World, w': World, g: int, t: Tag, out: Outcome)
    requires Ledger(w) && Holds(w, g, t) && StampsOutcome(w.groups[g].members[t], out, w.clock)
    requires Succeeded(w, w', g, t, out)
    ensures Ledger(w') && Grows(w, w')
  {
    hide Ledger, Grows, FreedEverywhere, Origin;
    var mid := Origin(w, g, t, out);
    OriginKeepsLedger(w, g, t, out);
    if out.effect.Readmitted? {
      var n := out.member.nodeId;
      MarksDoNotMatter(mid, mid.marks - {n}, w');
      FreeingKeepsLedger(mid.(marks := mid.marks - {n}), w', n, EvictedOnly, g);
      GrowsFurther(w, mid, w');
    }
  }

  lemma RestoreKeepsLedger(w: World, w': World, n: int)
    requires Ledger(w) && FreedEverywhere(w.(marks := w.marks - {n}), w', n, Everyone, 0)
    ensures Ledger(w') && Grows(w, w')
  {
    MarksDoNotMatter(w, w.marks - {n}, w');
    FreeingKeepsLedger(w.(marks := w.marks - {n}), w', n, Everyone, 0);
  }

  // -------------------------------------------------------------------------------------------
  // Restored state
  // -------------------------------------------------------------------------------------------

  lemma RegisterKeepsLedger(w: World, w': World, g: int, r: Runtime, members: map<Tag, Initial>, marks: set<int>,
                            now: int)
    requires Ledger(w) && OneTagPerNode(r.members) && r.members == RegisteredMembers(members, marks, now)
    requires forall t :: t in r.members && r.members[t].evicted ==> r.members[t].evictedAt.Some?
    requires Installed(w, w', g, r, members)
    ensures Ledger(w') && Grows(w, w')
    ensures forall t :: t in members && members[t].revision > 0 ==> Restored(members[t].revision) in NewStamps(w, w')
  {
    hide Ledger, Grows, Propagated, RegisteredMembers, SourcesOf, EvictedNodes, Raised;
    var clock: nat, restored :|
      && Raised(w.clock, clock, members, restored)
      && Propagated(World(w.groups[g := r], w.marks + EvictedNodes(members), clock, w.events, w.stamps + restored), w',
                    SourcesOf(r.members, {}));
    var mid := World(w.groups[g := r], w.marks + EvictedNodes(members), clock, w.events, w.stamps + restored);
    InstalledLedger(w, mid, g, r, members, marks, now, restored);
    PropagationKeepsLedger(mid, w', SourcesOf(r.members, {}));
    GrowsFurther(w, mid, w');
    StampsSplit(w, mid, w');
    assert NewStamps(w, mid) == restored;
    assert forall t :: t in members && members[t].revision > 0 ==> Restored(members[t].revision) in restored by {
      RestoredRecorded(w.clock, clock, members, restored);
    }
  }

  lemma RestoredRecorded(clock: nat, clock': nat, members: map<Tag, Initial>, restored: seq<Stamp>)
    requires Raised(clock, clock', members, restored)
    ensures forall t :: t in members && members[t].revision > 0 ==> Restored(members[t].revision) in restored
  {
  }

  lemma StampsSplit(w: World, mid: World, w': World)
    requires Grows(w, mid) && Grows(mid, w')
    ensures w.stamps <= mid.stamps <= w'.stamps && NewStamps(w, w') == NewStamps(w, mid) + NewStamps(mid, w')
  {
  }

  lemma InstalledLedger(w: World, mid: World, g: int, r: Runtime, members: map<Tag, Initial>, marks: set<int>, now: int,
                        restored: seq<Stamp>)
    requires Ledger(w) && r.members == RegisteredMembers(members, marks, now)
    requires Raised(w.clock, mid.clock, members, restored)
    requires mid.groups == w.groups[g := r] && mid.events == w.events && mid.stamps == w.stamps + restored
    ensures Ledger(mid) && Grows(w, mid)
  {
  }

  // -------------------------------------------------------------------------------------------
  // Reconciliation
  // -------------------------------------------------------------------------------------------

  lemma ReconciledLedger(w: World, mid: World, g: int, u: Update, now: int, evs: seq<StateEvent>)
    requires Ledger(w) && g in w.groups && OneTagPerNode(w.groups[g].members)
    requires Reconciled(w, mid, g, u, now, evs)
    ensures Ledger(mid) && Grows(w, mid) && mid.events == w.events && EventsIssued(evs, NewStamps(w, mid))
    ensures forall t ::
              t in u.members && OldMember(w.groups[g], u.members[t].nodeId).None? && u.members[t].revision > 0 ==>
                Restored(u.members[t].revision) in NewStamps(w, mid)
  {
    hide RebuiltFor, Outranks, FreshEvents, OwedBy, Newly, OldMember, RebuiltTo;
    var r, next := w.groups[g], mid.groups[g].members;
    assert NewEvents(w, mid) == [];
    forall t | t in u.members ensures RebuiltFor(r, w.marks, u, now, t).restored <==>
        OldMember(r, u.members[t].nodeId).None? {
      RebuildFacts(r, w.marks, u, now, t);
    }
    forall h | h in mid.groups ensures MembersStamped(mid.groups[h], mid.stamps) {
      if h == g {
        forall t | t in next ensures HandedOut(mid.stamps, next[t].revision) {
          RebuiltIsStamped(w, mid, g, u, now, evs, t);
        }
      } else {
        StampsStay(w.groups[h], w.stamps, mid.stamps);
      }
    }
    GrownLedger(w, mid);
  }

  lemma RebuiltIsStamped(w: World, mid: World, g: int, u: Update, now: int, evs: seq<StateEvent>, t: Tag)
    requires Ledger(w) && g in w.groups && OneTagPerNode(w.groups[g].members) && t in u.members
    requires Reconciled(w, mid, g, u, now, evs)
    ensures t in mid.groups[g].members && HandedOut(mid.stamps, mid.groups[g].members[t].revision)
  {
    hide RebuiltFor, Outranks, FreshEvents, OwedBy, Newly;
    var r, m := w.groups[g], mid.groups[g].members[t];
    var b := RebuiltFor(r, w.marks, u, now, t);
    assert RebuiltTo(m, b, w.clock, mid.clock);
    RebuildFacts(r, w.marks, u, now, t);
    RebuildCarries(r, w.marks, u, now, t);
    assert forall s :: s in NewStamps(w, mid) ==> s in mid.stamps;
    if b.announce {
      assert EventOf(g, m) in evs && Issued(m.revision) in NewStamps(w, mid);
    } else if !b.restored {
      var o := OldMember(r, u.members[t].nodeId).value;
      assert MembersStamped(r, w.stamps) && HandedOut(w.stamps, o.revision);
    }
  }

  // A member whose node was there before keeps that member's revision.
  lemma RebuildCarries(r: Runtime, marks: set<int>, u: Update, now: int, t: Tag)
    requires OneTagPerNode(r.members) && t in u.members
    ensures var old' := OldMember(r, u.members[t].nodeId);
            old'.Some? ==> (exists s :: s in r.members && r.members[s] == old'.value)
                           && RebuiltFor(r, marks, u, now, t).member.revision == old'.value.revision
  {
  }

  lemma NotifyKeepsLedger(w: World, w': World, g: int, evs: seq<StateEvent>, now: int, lo: int)
    requires Ledger(w) && Notified(w, w', g, evs, now, lo) && EventsIssued(evs, w.stamps)
    ensures Ledger(w') && Advances(w, w')
    ensures forall i :: 0 <= i < |NewEvents(w, w')| ==>
              NewEvents(w, w')[i] in evs || Issued(NewEvents(w, w')[i].revision) in NewStamps(w, w')
  {
    hide Outranks, FreshEvents, EvictedIn, MembersStamped;
    forall h | h in w'.groups ensures MembersStamped(w'.groups[h], w'.stamps) {
      StampsStay(w.groups[h], w.stamps, w'.stamps);
      NotifiedAreStamped(w, w', g, evs, now, lo, h);
    }
    assert w'.stamps == w.stamps + NewStamps(w, w');
    assert w'.events == w.events + NewEvents(w, w');
    OutranksConcat(w.stamps, NewStamps(w, w'), 0, w.clock, w'.clock);
    assert forall s :: s in NewStamps(w, w') ==> s in w'.stamps;
  }

  lemma NotifiedAreStamped(w: World, w': World, g: int, evs: seq<StateEvent>, now: int, lo: int, h: int)
    requires Notified(w, w', g, evs, now, lo) && EventsIssued(evs, w.stamps)
    requires h in w.groups && MembersStamped(w.groups[h], w'.stamps)
    ensures MembersStamped(w'.groups[h], w'.stamps)
  {
    hide Outranks, FreshEvents;
    var r, r', src := w.groups[h], w'.groups[h], EventSources(evs, now);
    forall t | t in r'.members ensures HandedOut(w'.stamps, r'.members[t].revision) {
      assert StruckTo(r.members[t], r'.members[t], src, w.clock, w'.clock);
      if Struck(r.members[t], src) {
        var e := EventOf(h, r'.members[t]);
        assert e in NewEvents(w, w');
        assert e in evs || Issued(e.revision) in NewStamps(w, w');
        assert Issued(e.revision) in w'.stamps;
      } else {
        assert HandedOut(w'.stamps, r.members[t].revision);
      }
    }
  }

  lemma ReconcileKeepsLedger(w: World, mid: World, w': World, g: int, u: Update, now: int, evs: seq<StateEvent>)
    requires Ledger(w) && g in w.groups && OneTagPerNode(w.groups[g].members)
    requires Reconciled(w, mid, g, u, now, evs) && Notified(mid, w', g, evs, now, w.clock)
    ensures Ledger(w') && Grows(w, w')
    ensures forall t ::
              t in u.members && OldMember(w.groups[g], u.members[t].nodeId).None? && u.members[t].revision > 0 ==>
                Restored(u.members[t].revision) in NewStamps(w, w')
  {
    hide Ledger, Reconciled, Notified, Outranks, OldMember;
    ReconciledLedger(w, mid, g, u, now, evs);
    NotifyKeepsLedger(mid, w', g, evs, now, w.clock);
    AdvancesFurther(w, mid, w');
    LaterStamps(w, mid, w');
    assert NewEvents(w, w') == NewEvents(mid, w');
  }

  // -------------------------------------------------------------------------------------------
  // Whole runs
  // -------------------------------------------------------------------------------------------

  /** The persisted revisions a call reads back. */
  ghost predicate Restores(w: World, c: Call, revision: int) {
    && revision > 0
    && match c
       case Install(_, _, _, _, initial, _, _) => exists t :: t in initial && initial[t].revision == revision
       case Reconcile(g, u, _) =>
         && g in w.groups && OneTagPerNode(w.groups[g].members)
         && exists t :: t in u.members && u.members[t].revision == revision
                        && OldMember(w.groups[g], u.members[t].nodeId).None?
       case _ => false
  }

  // A change of one group's members that stamps nothing.
  lemma SilentKeepsLedger(w: World, w': World)
    requires Ledger(w) && w'.clock == w.clock && w'.events == w.events && w'.stamps == w.stamps
    requires forall g, t :: Holds(w', g, t) ==>
             Holds(w, g, t) && w'.groups[g].members[t].revision == w.groups[g].members[t].revision
    ensures Ledger(w') && Grows(w, w')
  {
  }

  /** Every call keeps the ledger, stamps its announcements above everything handed out before it, and records
      what it reads back. */
  lemma CallKeepsLedger(w: World, w': World, c: Call)
    requires Ledger(w) && Does(w, w', c)
    ensures Ledger(w') && Grows(w, w')
    ensures forall revision :: Restores(w, c, revision) ==> Restored(revision) in NewStamps(w, w')
  {
    hide Ledger, Grows, Reported, Succeeded, FreedEverywhere, Installed, Reconciled, Notified, RegisteredMembers,
      OldMember, ReadCurrent, ReadAvailable, NewcomersMarked;
    match c
    case FailDial(g, t, at, cause) =>
      if Holds(w, g, t) {
        OutcomesStamp(w, g, t, "", at, cause);
        ReportKeepsLedger(w, w', g, t, DialOutcome(w, g, t, at, cause));
      } else {
        StayKeepsLedger(w);
      }
    case FailProbe(g, t, probe, at, cause) =>
      if Holds(w, g, t) {
        OutcomesStamp(w, g, t, probe, at, cause);
        ReportKeepsLedger(w, w', g, t, ProbeFailureOutcome(w, g, t, probe, at, cause));
      } else {
        StayKeepsLedger(w);
      }
    case PassProbe(g, t, probe, at) =>
      if Holds(w, g, t) {
        OutcomesStamp(w, g, t, probe, at, None);
        SuccessKeepsLedger(w, w', g, t, ProbeSuccessOutcome(w, g, t, probe, at));
      } else {
        StayKeepsLedger(w);
      }
    case RestoreNode(g, n) =>
      if g in w.groups {
        RestoreKeepsLedger(w, w', n);
      } else {
        StayKeepsLedger(w);
      }
    case Install(g, window, threshold, preferred, initial, policy, at) =>
      var marks := w.marks + EvictedNodes(initial);
      var members := RegisteredMembers(initial, marks, at);
      RegisterKeepsLedger(w, w', g, RegisteredRuntime(g, window, threshold, preferred, members, Normalize(policy)),
          initial, marks, at);
    case Reconcile(g, u, at) =>
      if g in w.groups && OneTagPerNode(w.groups[g].members) {
        var mid, evs :| Reconciled(w, mid, g, u, at, evs) && Notified(mid, w', g, evs, at, w.clock);
        ReconcileKeepsLedger(w, mid, w', g, u, at, evs);
      } else {
        StayKeepsLedger(w);
      }
    case _ =>
      SilentCallsKeepLedger(w, w', c);
  }

  lemma StayKeepsLedger(w: World)
    requires Ledger(w)
    ensures Grows(w, w)
  {
  }

  lemma SilentCallsKeepLedger(w: World, w': World, c: Call)
    requires Ledger(w) && Does(w, w', c) && (c.Uninstall? || c.Select? || c.AskCurrent? || c.AskAvailable?)
    ensures Ledger(w') && Grows(w, w')
  {
    hide Ledger, Grows, Survivors;
    SilentKeepsLedger(w, w');
  }

  lemma {:induction false} RunsKeepLedger(ws: seq<World>, cs: seq<Call>)
    requires GroupInvariants.Run(ws, cs)
    ensures forall i :: 0 <= i < |ws| ==> Ledger(ws[i])
    decreases |cs|
  {
    hide Ledger, Does, Grows;
    if cs == [] {
      NothingHandedOut();
    } else {
      var ws', cs' := ws[..|ws| - 1], cs[..|cs| - 1];
      assert GroupInvariants.Run(ws', cs') by {
        forall i | 0 <= i < |cs'| ensures Does(ws'[i], ws'[i + 1], cs'[i]) {
          assert Does(ws[i], ws[i + 1], cs[i]);
        }
      }
      RunsKeepLedger(ws', cs');
      assert Ledger(ws'[|ws'| - 1]);
      CallKeepsLedger(ws[|cs| - 1], ws[|cs|], cs[|cs| - 1]);
    }
  }

  lemma NothingHandedOut()
    ensures Ledger(World(map[], {}, 0, [], []))
  {
  }

  // Stamps are never taken back, and what a call reads back is among them from then on.
  lemma {:induction false} StampsAccumulate(ws: seq<World>, cs: seq<Call>, i: nat, k: nat)
    requires GroupInvariants.Run(ws, cs) && i <= k < |ws|
    ensures ws[i].stamps <= ws[k].stamps && ws[i].events <= ws[k].events
    decreases k - i
  {
    hide Does, Ledger, Restores;
    if i < k {
      CallGrows(ws, cs, i);
      StampsAccumulate(ws, cs, i + 1, k);
    }
  }

  /** The ordering token over whole runs.  Take any announcement made so far: its revision was issued at one
      moment, it is above every revision issued or read back before that moment, and no other announcement
      carries it. */
  lemma AnnouncementsOutrank(ws: seq<World>, cs: seq<Call>, k: nat, i: nat)
    requires GroupInvariants.Run(ws, cs) && k < |ws| && i < |ws[k].events|
    ensures exists p ::
              && 0 <= p < |ws[k].stamps| && ws[k].stamps[p] == Issued(ws[k].events[i].revision)
              && forall q :: 0 <= q < p ==> ws[k].stamps[q].revision < ws[k].events[i].revision
    ensures forall j :: 0 <= j < |ws[k].events| && j != i ==> ws[k].events[j].revision != ws[k].events[i].revision
  {
    hide Does, Shape, Agrees, Sound, MembersStamped;
    RunsKeepLedger(ws, cs);
    RunsKeepInv(ws, cs);
    var w := ws[k];
    assert Ledger(w) && EventsOrdered(w);
    assert Issued(w.events[i].revision) in w.stamps;
    var p :| 0 <= p < |w.stamps| && w.stamps[p] == Issued(w.events[i].revision);
    assert forall q :: 0 <= q < p ==> w.stamps[q].revision < w.stamps[p].revision;
    forall j | 0 <= j < |w.events| && j != i ensures w.events[j].revision != w.events[i].revision {
      if j < i {
        assert w.events[j].revision != w.events[i].revision;
      }
    }
  }

  /** Across calls: an announcement of call `k` outranks every announcement made, every revision read back and
      every revision held by a member up to then. */
  lemma LaterAnnouncementsOutrank(ws: seq<World>, cs: seq<Call>, i: nat, k: nat, e: StateEvent, revision: int)
    requires GroupInvariants.Run(ws, cs) && i <= k < |cs|
    requires ws[k].events <= ws[k + 1].events && e in NewEvents(ws[k], ws[k + 1])
    requires
      || (i < k && Restores(ws[i], cs[i], revision))
      || (exists j :: 0 <= j < |ws[i].events| && ws[i].events[j].revision == revision)
      || (exists g, t :: Holds(ws[i], g, t) && ws[i].groups[g].members[t].revision == revision)
    ensures revision < e.revision
  {
    hide Does, RuntimeShape, Outranks;
    assert Ledger(ws[i]) && Ledger(ws[k]) && Grows(ws[k], ws[k + 1]) by {
      RunsKeepLedger(ws, cs);
      CallGrows(ws, cs, k);
    }
    StampsAccumulate(ws, cs, i, k);
    if i < k && Restores(ws[i], cs[i], revision) {
      CallGrows(ws, cs, i);
      StampsAccumulate(ws, cs, i + 1, k);
      assert Restored(revision) in ws[k].stamps;
    } else if exists j :: 0 <= j < |ws[i].events| && ws[i].events[j].revision == revision {
      assert Issued(revision) in ws[k].stamps;
    } else {
      var g, t :| Holds(ws[i], g, t) && ws[i].groups[g].members[t].revision == revision;
      assert MembersStamped(ws[i].groups[g], ws[i].stamps);
      assert HandedOut(ws[k].stamps, revision);
    }
    IssuedLater(ws[k], ws[k + 1], revision, e);
  }

  lemma CallGrows(ws: seq<World>, cs: seq<Call>, k: nat)
    requires GroupInvariants.Run(ws, cs) && k < |cs|
    ensures Grows(ws[k], ws[k + 1]) && ws[k].stamps <= ws[k + 1].stamps && ws[k].events <= ws[k + 1].events
    ensures forall revision :: Restores(ws[k], cs[k], revision) ==> Restored(revision) in NewStamps(ws[k], ws[k + 1])
    ensures forall revision :: Restores(ws[k], cs[k], revision) ==> Restored(revision) in ws[k + 1].stamps
  {
    hide Does, Outranks, Restores;
    RunsKeepLedger(ws, cs);
    assert Ledger(ws[k]) && Does(ws[k], ws[k + 1], cs[k]);
    CallKeepsLedger(ws[k], ws[k + 1], cs[k]);
  }

  lemma IssuedLater(w: World, w': World, revision: int, e: StateEvent)
    requires Ledger(w) && Grows(w, w') && e in NewEvents(w, w') && HandedOut(w.stamps, revision)
    ensures revision < e.revision
  {
  }
}
