/** What a plan says, in the terms of its candidates: whom it adds and removes, whom it probes, what it refreshes and
    what it reports. */
module PlanContents {
  import opened HealPlanner

  // -------------------------------------------------------------------------------------------
  // Lists by candidate
  // -------------------------------------------------------------------------------------------

  lemma ListedIff(cs: seq<Candidate>, within: set<int>, id: int)
    requires Ready(cs)
    ensures StrictlyUp(IdsOf(cs, within))
    ensures id in IdsOf(cs, within) <==> id in within && exists c :: c in cs && c.nodeId == id
  {
    IdsOfListed(cs, within);
    assert id in IdsOf(cs, within) <==> id in SetOf(IdsOf(cs, within));
    assert id in AllIds(cs) <==> exists c :: c in cs && c.nodeId == id;
  }

  lemma {:induction false} DueIdsListed(cs: seq<Candidate>, now: int)
    requires Ready(cs)
    ensures StrictlyUp(DueIds(cs, now))
    ensures forall id :: id in DueIds(cs, now) <==> exists c :: c in cs && c.nodeId == id && Due(c, now)
  {
    if cs != [] {
      var init, c := cs[..|cs| - 1], cs[|cs| - 1];
      DueIdsListed(init, now);
      assert cs == init + [c];
      var before := DueIds(init, now);
      assert forall i :: 0 <= i < |before| ==> before[i] in before;
      assert forall d :: d in init ==> d.nodeId < c.nodeId;
    }
  }

  lemma SameCandidate(cs: seq<Candidate>, c: Candidate, d: Candidate)
    requires Ready(cs) && c in cs && d in cs && c.nodeId == d.nodeId
    ensures c == d
  {
  }

  // -------------------------------------------------------------------------------------------
  // Promotions
  // -------------------------------------------------------------------------------------------

  // The candidate was measured lately and is well.
  predicate Proven(c: Candidate, now: int, maxAge: int) {
    && c.status == "ALIVE" && c.available && c.checked && !c.provisional
    && c.checkedAt.Some? && c.checkedAt.value <= now && now <= c.checkedAt.value + maxAge
  }

  /** A plan promotes if and only if it wants a set of nodes other than the active one, once and first of all: what it
      adds are the desired candidates that are not active, what it removes the active ones that are not desired, each
      list in order. */
  lemma PromotionIsTheDifference(cs: seq<Candidate>, p: HealPolicy, subscriptions: seq<int>, now: int, maxAge: int,
                                 c: Candidate)
    requires Ready(cs) && GoodSizes(p) && c in cs
    ensures var plan := PlanOf(cs, p, subscriptions, now, maxAge);
            && (forall i :: 0 <= i < |plan.actions| && plan.actions[i].Promote? ==>
                  && i == 0 && StrictlyUp(plan.actions[0].added) && StrictlyUp(plan.actions[0].removed)
                  && (c.nodeId in plan.actions[0].added <==> !c.active && c.nodeId in plan.desired)
                  && (c.nodeId in plan.actions[0].removed <==> c.active && c.nodeId !in plan.desired)
                  && (forall id :: id in plan.actions[0].added + plan.actions[0].removed ==>
                     exists d :: d in cs && d.nodeId == id))
            && (c.active != (c.nodeId in plan.desired) ==> plan.actions != [] && plan.actions[0].Promote?)
  {
    var selected := Selection(cs, p, now, maxAge);
    var plan := PlanOf(cs, p, subscriptions, now, maxAge);
    var added, removed := IdsOf(cs, selected - ActiveIds(cs)), IdsOf(cs, ActiveIds(cs) - selected);
    ActiveIdsOf(cs, c);
    ListedIff(cs, selected, c.nodeId);
    ListedIff(cs, selected - ActiveIds(cs), c.nodeId);
    ListedIff(cs, ActiveIds(cs) - selected, c.nodeId);
    forall id | id in added + removed ensures exists d :: d in cs && d.nodeId == id {
      ListedIff(cs, selected - ActiveIds(cs), id);
      ListedIff(cs, ActiveIds(cs) - selected, id);
    }
    NoPromotion(p.refill, cs, subscriptions, now);
    hide Selection, IdsOf, ActiveIds, AllIds, RefillActions, StrictlyUp, Ready, CountHealthyIn, CountWanted;
  }

  lemma ActiveIdsOf(cs: seq<Candidate>, c: Candidate)
    requires Ready(cs) && c in cs
    ensures c.nodeId in ActiveIds(cs) <==> c.active
  {
    forall d | d in cs && d.nodeId == c.nodeId ensures d == c {
      SameCandidate(cs, c, d);
    }
  }

  /** A plan whose desired set is the active one promotes nobody. */
  lemma NoDifferenceNoPromotion(cs: seq<Candidate>, p: HealPolicy, subscriptions: seq<int>, now: int, maxAge: int)
    requires Ready(cs) && GoodSizes(p)
    requires forall c :: c in cs ==> (c.active <==> c.nodeId in PlanOf(cs, p, subscriptions, now, maxAge).desired)
    ensures var plan := PlanOf(cs, p, subscriptions, now, maxAge);
            forall i :: 0 <= i < |plan.actions| ==> !plan.actions[i].Promote?
  {
    var plan := PlanOf(cs, p, subscriptions, now, maxAge);
    if exists i :: 0 <= i < |plan.actions| && plan.actions[i].Promote? {
      var i :| 0 <= i < |plan.actions| && plan.actions[i].Promote?;
      SomethingMoves(cs, p, subscriptions, now, maxAge, i);
    }
  }

  lemma SomethingMoves(cs: seq<Candidate>, p: HealPolicy, subscriptions: seq<int>, now: int, maxAge: int, i: nat)
    requires Ready(cs) && GoodSizes(p)
    requires var plan := PlanOf(cs, p, subscriptions, now, maxAge); i < |plan.actions| && plan.actions[i].Promote?
    ensures exists c :: c in cs && c.active != (c.nodeId in PlanOf(cs, p, subscriptions, now, maxAge).desired)
  {
    var plan := PlanOf(cs, p, subscriptions, now, maxAge);
    NoPromotion(p.refill, cs, subscriptions, now);
    var selected := Selection(cs, p, now, maxAge);
    var added, removed := IdsOf(cs, selected - ActiveIds(cs)), IdsOf(cs, ActiveIds(cs) - selected);
    hide Selection, IdsOf, ActiveIds, RefillActions, Ready, CountHealthyIn, CountWanted;
    assert added != [] || removed != [];
    var id := if added != [] then added[0] else removed[0];
    ListedIff(cs, selected - ActiveIds(cs), id);
    ListedIff(cs, ActiveIds(cs) - selected, id);
    ListedIff(cs, selected, id);
    var c :| c in cs && c.nodeId == id;
    ActiveIdsOf(cs, c);
  }

  /** Nobody joins unproven: a desired candidate that is not active was measured lately, and is well. */
  lemma AddedAreProven(cs: seq<Candidate>, p: HealPolicy, subscriptions: seq<int>, now: int, maxAge: int, c: Candidate)
    requires Ready(cs) && GoodSizes(p) && c in cs && !c.active
    requires c.nodeId in PlanOf(cs, p, subscriptions, now, maxAge).desired
    ensures Proven(c, now, maxAge) && PromoteStandby in p.refill
    ensures |set d | d in cs && d.active && Proven(d, now, maxAge)| < p.minHealthy
  {
    var selected := Selection(cs, p, now, maxAge);
    ListedIff(cs, selected, c.nodeId);
    StandbyChosen(cs, p, now, maxAge, c);
    var well := set d | d in cs && d.active && Proven(d, now, maxAge);
    SetByCandidate(cs, well, IdsWanted(cs, HealthyActive, now, maxAge));
  }

  lemma StandbyChosen(cs: seq<Candidate>, p: HealPolicy, now: int, maxAge: int, c: Candidate)
    requires Ready(cs) && GoodSizes(p) && c in cs && !c.active && c.nodeId in Selection(cs, p, now, maxAge)
    ensures Proven(c, now, maxAge) && PromoteStandby in p.refill
    ensures |IdsWanted(cs, HealthyActive, now, maxAge)| < p.minHealthy
  {
    HealthyChosen(cs, p, now, maxAge);
    var t := p.targetSize;
    var first := Select({}, cs, HealthyActive, now, maxAge, t);
    SelectBounds({}, cs, HealthyActive, now, maxAge, t);
    var promoted := Select(first, cs, HealthyStandby, now, maxAge, t);
    SelectBounds(first, cs, HealthyStandby, now, maxAge, t);
    SelectBounds(promoted, cs, AnyActive, now, maxAge, t);
    SelectBounds(first, cs, AnyActive, now, maxAge, t);
    ActiveIdsOf(cs, c);
    WantedBy(cs, HealthyActive, now, maxAge, c);
    WantedBy(cs, HealthyStandby, now, maxAge, c);
    WantedBy(cs, AnyActive, now, maxAge, c);
    hide Select, IdsWanted, Ready;
  }

  lemma WantedBy(cs: seq<Candidate>, pass: Pass, now: int, maxAge: int, c: Candidate)
    requires Ready(cs) && c in cs
    ensures c.nodeId in IdsWanted(cs, pass, now, maxAge) <==> Wanted(pass, c, now, maxAge)
  {
    forall d | d in cs && d.nodeId == c.nodeId ensures d == c {
      SameCandidate(cs, c, d);
    }
  }

  // Candidates with distinct IDs are as many as their IDs.
  lemma {:induction false} SetByCandidate(cs: seq<Candidate>, some: set<Candidate>, ids: set<int>)
    requires Ready(cs) && (forall c :: c in some ==> c in cs) && ids == set c | c in some :: c.nodeId
    ensures |some| == |ids|
    decreases some
  {
    if some != {} {
      var c :| c in some;
      var rest := some - {c};
      forall d | d in rest ensures d.nodeId != c.nodeId {
        if d.nodeId == c.nodeId {
          SameCandidate(cs, c, d);
        }
      }
      assert ids == (set d | d in rest :: d.nodeId) + {c.nodeId};
      SetByCandidate(cs, rest, set d | d in rest :: d.nodeId);
    }
  }

  // -------------------------------------------------------------------------------------------
  // Who is chosen among equals
  // -------------------------------------------------------------------------------------------

  /** A pass takes the lowest IDs it wants. */
  lemma {:induction false} PassTakesLowest(selected: set<int>, cs: seq<Candidate>, pass: Pass, now: int, maxAge: int,
                                           target: int, c: Candidate, d: Candidate)
    requires Ready(cs) && c in cs && d in cs && Wanted(pass, c, now, maxAge) && Wanted(pass, d, now, maxAge)
    requires var r := Select(selected, cs, pass, now, maxAge, target); c.nodeId in r && d.nodeId !in r
    ensures c.nodeId in selected || c.nodeId < d.nodeId
  {
    var init, last := cs[..|cs| - 1], cs[|cs| - 1];
    assert cs == init + [last];
    var before := Select(selected, init, pass, now, maxAge, target);
    SelectBounds(selected, init, pass, now, maxAge, target);
    if c in init && d in init {
      SameUnlessLast(init, last, c);
      PassTakesLowest(selected, init, pass, now, maxAge, target, c, d);
    } else if d in init {
      assert c == last && d.nodeId !in before;
      if c.nodeId !in selected {
        RoomWasLeft(selected, init, pass, now, maxAge, target, d);
      }
    }
  }

  lemma SameUnlessLast(init: seq<Candidate>, last: Candidate, c: Candidate)
    requires Ready(init + [last]) && c in init
    ensures Ready(init) && c.nodeId < last.nodeId
  {
    assert forall i :: 0 <= i < |init| ==> (init + [last])[i] == init[i];
    assert (init + [last])[|init|] == last;
  }

  // A pass that passed somebody over has no room left.
  lemma RoomWasLeft(selected: set<int>, cs: seq<Candidate>, pass: Pass, now: int, maxAge: int, target: int,
                    d: Candidate)
    requires d in cs && Wanted(pass, d, now, maxAge) && d.nodeId !in Select(selected, cs, pass, now, maxAge, target)
    ensures |Select(selected, cs, pass, now, maxAge, target)| >= target
  {
    SelectBounds(selected, cs, pass, now, maxAge, target);
    assert d.nodeId in IdsWanted(cs, pass, now, maxAge);
  }

  /** Among proven active candidates the lowest IDs stay, and among proven standby candidates the lowest join. */
  lemma LowestAreChosen(cs: seq<Candidate>, p: HealPolicy, subscriptions: seq<int>, now: int, maxAge: int, c: Candidate,
                        d: Candidate)
    requires Ready(cs) && GoodSizes(p) && c in cs && d in cs && c.active == d.active
    requires Proven(c, now, maxAge) && Proven(d, now, maxAge)
    requires var desired := PlanOf(cs, p, subscriptions, now, maxAge).desired;
             c.nodeId in desired && d.nodeId !in desired
    ensures c.nodeId < d.nodeId
  {
    var t := p.targetSize;
    var first := Select({}, cs, HealthyActive, now, maxAge, t);
    var promoted := Select(first, cs, HealthyStandby, now, maxAge, t);
    ListedIff(cs, Selection(cs, p, now, maxAge), c.nodeId);
    ListedIff(cs, Selection(cs, p, now, maxAge), d.nodeId);
    SelectBounds({}, cs, HealthyActive, now, maxAge, t);
    SelectBounds(first, cs, HealthyStandby, now, maxAge, t);
    SelectBounds(first, cs, AnyActive, now, maxAge, t);
    SelectBounds(promoted, cs, AnyActive, now, maxAge, t);
    WantedBy(cs, HealthyActive, now, maxAge, c);
    WantedBy(cs, AnyActive, now, maxAge, c);
    hide Select, IdsWanted, Ready, IdsOf;
    if c.active {
      if c.nodeId in first {
        PassTakesLowest({}, cs, HealthyActive, now, maxAge, t, c, d);
      } else {
        FullAfter(cs, first, promoted, now, maxAge, t, c);
      }
    } else {
      StandbyChosen(cs, p, now, maxAge, c);
      PassTakesLowest(first, cs, HealthyStandby, now, maxAge, t, c, d);
    }
  }

  // A pass that was full leaves no room for the passes after it.
  lemma FullAfter(cs: seq<Candidate>, first: set<int>, promoted: set<int>, now: int, maxAge: int, t: int, c: Candidate)
    requires Ready(cs) && c in cs && Wanted(HealthyActive, c, now, maxAge) && 0 <= t
    requires first == Select({}, cs, HealthyActive, now, maxAge, t) && c.nodeId !in first
    requires promoted == Select(first, cs, HealthyStandby, now, maxAge, t)
    ensures c.nodeId !in Select(first, cs, AnyActive, now, maxAge, t)
    ensures c.nodeId !in Select(promoted, cs, AnyActive, now, maxAge, t)
  {
    RoomWasLeft({}, cs, HealthyActive, now, maxAge, t, c);
    FullStays(first, cs, HealthyStandby, now, maxAge, t);
    FullStays(first, cs, AnyActive, now, maxAge, t);
  }

  lemma {:induction false} FullStays(selected: set<int>, cs: seq<Candidate>, pass: Pass, now: int, maxAge: int,
                                     target: int)
    requires |selected| >= target
    ensures Select(selected, cs, pass, now, maxAge, target) == selected
  {
    if cs != [] {
      FullStays(selected, cs[..|cs| - 1], pass, now, maxAge, target);
    }
  }

  // -------------------------------------------------------------------------------------------
  // Figures and requests
  // -------------------------------------------------------------------------------------------

  /** The figures of a plan count candidates: those proven and active, those proven and desired, and how many of these
      are missing. */
  lemma FiguresCount(cs: seq<Candidate>, p: HealPolicy, subscriptions: seq<int>, now: int, maxAge: int)
    requires Ready(cs) && GoodSizes(p)
    ensures var plan := PlanOf(cs, p, subscriptions, now, maxAge);
            && plan.healthy == |set c | c in cs && c.active && Proven(c, now, maxAge)|
            && plan.projected == |set c | c in cs && c.nodeId in plan.desired && Proven(c, now, maxAge)|
            && (plan.projected < p.minHealthy ==> plan.projected + plan.deficit == p.minHealthy)
            && (plan.projected >= p.minHealthy ==> plan.deficit == 0)
            && plan.dryRun == !p.execute
  {
    var plan := PlanOf(cs, p, subscriptions, now, maxAge);
    var selected := Selection(cs, p, now, maxAge);
    var well := set c | c in cs && c.active && Proven(c, now, maxAge);
    CountIsIds(cs, HealthyActive, now, maxAge);
    SetByCandidate(cs, well, IdsWanted(cs, HealthyActive, now, maxAge));
    CountIsCardinality(cs, selected, now, maxAge);
    forall c | c in cs ensures c.nodeId in plan.desired <==> c.nodeId in selected {
      ListedIff(cs, selected, c.nodeId);
    }
    var chosen := set c | c in cs && c.nodeId in plan.desired && Proven(c, now, maxAge);
    ChosenIds(cs, selected, now, maxAge, plan.desired, chosen);
    hide Selection, IdsOf, IdsWanted, CountHealthyIn, CountWanted, RefillActions, Ready, Healthy, Proven;
  }

  lemma ChosenIds(cs: seq<Candidate>, selected: set<int>, now: int, maxAge: int, desired: seq<int>,
                  chosen: set<Candidate>)
    requires Ready(cs) && (forall c :: c in cs ==> (c.nodeId in desired <==> c.nodeId in selected))
    requires chosen == set c | c in cs && c.nodeId in desired && Proven(c, now, maxAge)
    ensures |chosen| == |selected * HealthyIds(cs, now, maxAge)|
  {
    SetByCandidate(cs, chosen, selected * HealthyIds(cs, now, maxAge));
  }

  lemma {:induction false} CountIsIds(cs: seq<Candidate>, pass: Pass, now: int, maxAge: int)
    requires Ready(cs)
    ensures CountWanted(cs, pass, now, maxAge) == |IdsWanted(cs, pass, now, maxAge)|
  {
    if cs != [] {
      var init, c := cs[..|cs| - 1], cs[|cs| - 1];
      assert cs == init + [c];
      CountIsIds(init, pass, now, maxAge);
      IdsWantedAdded(init, c, pass, now, maxAge);
      assert forall d :: d in init ==> d.nodeId < c.nodeId;
      assert c.nodeId !in IdsWanted(init, pass, now, maxAge);
      hide Wanted, IdsWanted, Ready;
    }
  }

  // Somebody who was evicted may be tried again: recovery is on and its cooldown is over.
  predicate MayBeTried(c: Candidate, now: int) {
    c.status == "EVICTED" && c.recovery && (c.cooldownEnd.Some? ==> c.cooldownEnd.value <= now)
  }

  // The action asks for what can be done about the shortage.
  ghost predicate RightRequest(cs: seq<Candidate>, subscriptions: seq<int>, now: int, a: HealAction) {
    match a
    case Probe(ids) =>
      ids != [] && StrictlyUp(ids) && forall id :: id in ids <==>
          exists c :: c in cs && c.nodeId == id && MayBeTried(c, now)
    case Refresh(ids) => ids != [] && StrictlyUp(ids) && forall id :: id in ids <==> id in subscriptions && id > 0
    case _ => false
  }

  lemma {:induction false} RefillsAre(refill: seq<Refill>, cs: seq<Candidate>, subscriptions: seq<int>, now: int)
    requires Ready(cs)
    ensures var actions := RefillActions(refill, cs, subscriptions, now);
            && (forall a :: a in actions ==> RightRequest(cs, subscriptions, now, a))
            && ((exists a :: a in actions && a.Probe?) <==>
                  ProbeQuarantined in refill && exists c :: c in cs && MayBeTried(c, now))
            && ((exists a :: a in actions && a.Refresh?) <==>
                  RefreshSubscription in refill && exists id :: id in subscriptions && id > 0)
  {
    if refill != [] {
      var init, last := refill[..|refill| - 1], refill[|refill| - 1];
      assert refill == init + [last];
      RefillsAre(init, cs, subscriptions, now);
      var before, actions := RefillActions(init, cs, subscriptions, now), RefillActions(refill, cs, subscriptions, now);
      ProbeIsRight(cs, subscriptions, now);
      RefreshIsRight(cs, subscriptions, now);
      hide RightRequest, MayBeTried, DueIds, UniquePositive, Ready;
      assert actions == before || (exists a :: actions == before + [a]);
      forall a | a in before ensures a in actions {
      }
    }
  }

  lemma ProbeIsRight(cs: seq<Candidate>, subscriptions: seq<int>, now: int)
    requires Ready(cs)
    ensures DueIds(cs, now) == [] <==> !exists c :: c in cs && MayBeTried(c, now)
    ensures DueIds(cs, now) != [] ==> RightRequest(cs, subscriptions, now, Probe(DueIds(cs, now)))
  {
    DueIdsListed(cs, now);
    var ids := DueIds(cs, now);
    if ids != [] {
      assert ids[0] in ids;
    }
    assert forall c :: c in cs ==> (Due(c, now) <==> MayBeTried(c, now));
    forall c | c in cs && MayBeTried(c, now) ensures ids != [] {
      assert c.nodeId in ids;
    }
  }

  lemma RefreshIsRight(cs: seq<Candidate>, subscriptions: seq<int>, now: int)
    ensures UniquePositive(subscriptions) == [] <==> !exists id :: id in subscriptions && id > 0
    ensures UniquePositive(subscriptions) != [] ==>
              RightRequest(cs, subscriptions, now, Refresh(UniquePositive(subscriptions)))
  {
    UniquePositiveSorts(subscriptions);
    var ids := UniquePositive(subscriptions);
    if ids != [] {
      assert ids[0] in ids;
    }
  }

  /** What a plan asks for while healthy capacity is short, and only then: a probe of exactly the evicted candidates
      that may be tried again, a refresh of exactly the known subscriptions, each if it is configured and there is
      something to ask for, and at the end an alert with the two numbers. */
  lemma RequestsFollowShortage(cs: seq<Candidate>, p: HealPolicy, subscriptions: seq<int>, now: int, maxAge: int)
    requires Ready(cs) && GoodSizes(p)
    ensures var plan := PlanOf(cs, p, subscriptions, now, maxAge);
            && (forall a :: a in plan.actions && (a.Probe? || a.Refresh?) ==> RightRequest(cs, subscriptions, now, a))
            && ((exists a :: a in plan.actions && a.Probe?) <==>
                  plan.deficit > 0 && ProbeQuarantined in p.refill && exists c :: c in cs && MayBeTried(c, now))
            && ((exists a :: a in plan.actions && a.Refresh?) <==>
                  plan.deficit > 0 && RefreshSubscription in p.refill && exists id :: id in subscriptions && id > 0)
            && (forall a :: a in plan.actions && a.Alert? ==> a == Alert(plan.projected, p.minHealthy))
            && (plan.deficit > 0 <==> plan.actions != [] && plan.actions[|plan.actions| - 1].Alert?)
  {
    var plan := PlanOf(cs, p, subscriptions, now, maxAge);
    var refills := RefillActions(p.refill, cs, subscriptions, now);
    RefillsAre(p.refill, cs, subscriptions, now);
    OnlyRequests(cs, subscriptions, now, refills);
    var promote := PlanParts(cs, p, subscriptions, now, maxAge);
    hide RightRequest, MayBeTried, PlanOf, RefillActions, Ready;
    var alert := Alert(plan.projected, p.minHealthy);
    if plan.deficit > 0 {
      assert forall a :: a in plan.actions <==> a in promote || a in refills || a == alert;
    } else {
      assert plan.actions == promote;
    }
  }

  // The promotion, if there is one, and the requests and the alert in a shortage.
  lemma PlanParts(cs: seq<Candidate>, p: HealPolicy, subscriptions: seq<int>, now: int, maxAge: int)
    returns (promote: seq<HealAction>)
    ensures forall a :: a in promote ==> a.Promote?
    ensures var plan := PlanOf(cs, p, subscriptions, now, maxAge);
            plan.actions == promote + if plan.deficit == 0 then []
                                      else RefillActions(p.refill, cs, subscriptions, now)
                                           + [Alert(plan.projected, p.minHealthy)]
  {
    var selected := Selection(cs, p, now, maxAge);
    var added, removed := IdsOf(cs, selected - ActiveIds(cs)), IdsOf(cs, ActiveIds(cs) - selected);
    promote := if added == [] && removed == [] then [] else [Promote(added, removed)];
  }

  lemma OnlyRequests(cs: seq<Candidate>, subscriptions: seq<int>, now: int, actions: seq<HealAction>)
    requires forall a :: a in actions ==> RightRequest(cs, subscriptions, now, a)
    ensures forall a :: a in actions ==> a.Probe? || a.Refresh?
  {
  }
}
