/** What the coordinator does about a group, in the terms of the group's candidates and subscriptions. */
module HealerOutcomes {
  import opened HealCoordinator
  import opened Healer
  import PC = PlanContents
  import HP = HealPlanner

  // Too few of the active candidates were measured lately and are well.
  ghost predicate Short(i: HP.HealInput) {
    i.now.Some?
    && |set c | c in i.candidates && c.active && PC.Proven(c, i.now.value, i.maxAge)| < i.policy.minHealthy
  }

  // -------------------------------------------------------------------------------------------
  // What a plan asks for
  // -------------------------------------------------------------------------------------------

  lemma SortedSame(i: HP.HealInput, c: HP.Candidate)
    ensures c in HP.SortById(i.candidates) <==> c in i.candidates
  {
    HP.SortByIdKeeps(i.candidates);
    assert c in HP.SortById(i.candidates) <==> c in multiset(HP.SortById(i.candidates));
    assert c in i.candidates <==> c in multiset(i.candidates);
  }

  /** A promotion is asked for exactly while the candidates that are active are not those that should be. */
  lemma PromotionAskedIff(i: HP.HealInput, group: int, id: int)
    requires PlanFor(i).Some? && i.policy.targetSize > 0
    ensures Asks(i, group, Key(Promotion, id)) <==>
            i.policy.execute && id == group
            && exists c :: c in i.candidates && c.active != (c.nodeId in PlanFor(i).value.desired)
  {
    var cs := HP.SortById(i.candidates);
    var plan := PlanFor(i).value;
    if c :| c in i.candidates && c.active != (c.nodeId in plan.desired) {
      SortedSame(i, c);
      PC.PromotionIsTheDifference(cs, i.policy, i.subscriptions, i.now.value, i.maxAge, c);
    } else {
      forall c | c in cs ensures c.active <==> c.nodeId in plan.desired {
        SortedSame(i, c);
      }
      PC.NoDifferenceNoPromotion(cs, i.policy, i.subscriptions, i.now.value, i.maxAge);
    }
    hide HP.PlanOf, HP.SortById, HP.Ready, HP.GoodRefill;
  }

  /** A probe is asked for exactly of the evicted candidates that may be tried again, while the active candidates that
      are well are too few, whoever stands by. */
  lemma ProbeAskedIff(i: HP.HealInput, group: int, id: int)
    requires PlanFor(Observed(i)).Some? && i.policy.targetSize > 0
    ensures Asks(i, group, Key(Probing, id)) <==>
            i.policy.execute && HP.ProbeQuarantined in i.policy.refill && Short(i)
            && exists c :: c in i.candidates && c.nodeId == id && PC.MayBeTried(c, i.now.value)
  {
    var cs := HP.SortById(i.candidates);
    ShortIff(i);
    WithoutPromotionHas(i.policy.refill, HP.ProbeQuarantined);
    ProbeInPlan(cs, Observed(i).policy, i.subscriptions, i.now.value, i.maxAge, id);
    TriedSame(i, cs, i.now.value, id);
    hide HP.PlanOf, HP.SortById, HP.Ready, HP.GoodRefill, PC.MayBeTried, Short, WithoutPromotion;
  }

  lemma ProbeInPlan(cs: seq<HP.Candidate>, p: HP.HealPolicy, subscriptions: seq<int>, now: int, maxAge: int, id: int)
    requires HP.Ready(cs) && HP.GoodSizes(p)
    ensures var plan := HP.PlanOf(cs, p, subscriptions, now, maxAge);
            (exists n :: 0 <= n < |plan.actions| && plan.actions[n].Probe? && id in plan.actions[n].nodeIds) <==>
            plan.deficit > 0 && HP.ProbeQuarantined in p.refill
            && exists c :: c in cs && c.nodeId == id && PC.MayBeTried(c, now)
  {
    hide HP.PlanOf, HP.Ready, HP.GoodSizes, PC.MayBeTried;
    var plan := HP.PlanOf(cs, p, subscriptions, now, maxAge);
    PC.RequestsFollowShortage(cs, p, subscriptions, now, maxAge);
    forall n | 0 <= n < |plan.actions| && plan.actions[n].Probe?
        ensures id in plan.actions[n].nodeIds <==> exists c :: c in cs && c.nodeId == id && PC.MayBeTried(c, now) {
      assert PC.RightRequest(cs, subscriptions, now, plan.actions[n]);
    }
    if a :| a in plan.actions && a.Probe? {
      var n :| 0 <= n < |plan.actions| && plan.actions[n] == a;
    }
  }

  lemma TriedSame(i: HP.HealInput, cs: seq<HP.Candidate>, now: int, id: int)
    requires cs == HP.SortById(i.candidates)
    ensures (exists c :: c in cs && c.nodeId == id && PC.MayBeTried(c, now)) <==>
            exists c :: c in i.candidates && c.nodeId == id && PC.MayBeTried(c, now)
  {
    forall c ensures c in cs <==> c in i.candidates {
      SortedSame(i, c);
    }
    hide HP.SortById, PC.MayBeTried;
  }

  lemma ShortIff(i: HP.HealInput)
    requires PlanFor(Observed(i)).Some? && i.policy.targetSize > 0
    ensures PlanFor(Observed(i)).value.deficit > 0 <==> Short(i)
  {
    var cs := HP.SortById(i.candidates);
    FallbackCountsActiveHealth(cs, i.policy, i.subscriptions, i.now.value, i.maxAge);
    PC.FiguresCount(cs, i.policy, i.subscriptions, i.now.value, i.maxAge);
    var there := set c | c in i.candidates && c.active && PC.Proven(c, i.now.value, i.maxAge);
    forall c ensures c in cs <==> c in i.candidates {
      SortedSame(i, c);
    }
    assert there == set c | c in cs && c.active && PC.Proven(c, i.now.value, i.maxAge);
    PC.SetByCandidate(cs, there, HP.IdsWanted(cs, HP.HealthyActive, i.now.value, i.maxAge));
    hide HP.SortById, HP.PlanOf, HP.GoodRefill;
  }

  /** A refresh is asked for exactly of the known subscriptions, while the active candidates that are well are too
      few. */
  lemma RefreshAskedIff(i: HP.HealInput, group: int, id: int)
    requires PlanFor(Observed(i)).Some? && i.policy.targetSize > 0
    ensures Asks(i, group, Key(Refreshing, id)) <==>
            i.policy.execute && HP.RefreshSubscription in i.policy.refill && Short(i)
            && id in i.subscriptions && id > 0
  {
    hide HP.PlanOf, HP.SortById, HP.Ready, HP.GoodRefill, HP.GoodSizes, Short, WithoutPromotion;
    SortedPlan(i);
    var cs := HP.SortById(i.candidates);
    ShortIff(i);
    WithoutPromotionHas(i.policy.refill, HP.RefreshSubscription);
    RefreshInPlan(cs, Observed(i).policy, i.subscriptions, i.now.value, i.maxAge, id);
  }

  lemma SortedPlan(i: HP.HealInput)
    requires PlanFor(Observed(i)).Some? && i.policy.targetSize > 0
    ensures HP.Ready(HP.SortById(i.candidates)) && HP.GoodSizes(Observed(i).policy)
  {
    hide HP.SortById, HP.Ready, HP.GoodRefill, HP.PlanOf;
  }

  lemma RefreshInPlan(cs: seq<HP.Candidate>, p: HP.HealPolicy, subscriptions: seq<int>, now: int, maxAge: int, id: int)
    requires HP.Ready(cs) && HP.GoodSizes(p)
    ensures var plan := HP.PlanOf(cs, p, subscriptions, now, maxAge);
            (exists n :: 0 <= n < |plan.actions| && plan.actions[n].Refresh?
                && id in plan.actions[n].subscriptionIds) <==>
            plan.deficit > 0 && HP.RefreshSubscription in p.refill && id in subscriptions && id > 0
  {
    hide HP.PlanOf, HP.Ready, HP.GoodSizes, PC.MayBeTried;
    var plan := HP.PlanOf(cs, p, subscriptions, now, maxAge);
    PC.RequestsFollowShortage(cs, p, subscriptions, now, maxAge);
    forall n | 0 <= n < |plan.actions| && plan.actions[n].Refresh?
        ensures id in plan.actions[n].subscriptionIds <==> id in subscriptions && id > 0 {
      assert PC.RightRequest(cs, subscriptions, now, plan.actions[n]);
    }
    if a :| a in plan.actions && a.Refresh? {
      var n :| 0 <= n < |plan.actions| && plan.actions[n] == a;
    }
  }

  // -------------------------------------------------------------------------------------------
  // What a stage does
  // -------------------------------------------------------------------------------------------

  // Every key of the kind that is asked for was run, or put off, or refused by the audit.
  lemma AskedIsSeenTo(i: HP.HealInput, group: int, kind: Kind, log: seq<Entry>, from: nat, id: int)
    requires StageDone(i, group, kind, log, from) && Asks(i, group, Key(kind, id))
    ensures exists n :: from <= n < |log| && !log[n].Window? && log[n].key == Key(kind, id)
  {
    hide PlanFor, Observed;
    var actions := PlanFor(if kind == Promotion then i else Observed(i)).value.actions;
    var n :| 0 <= n < |actions| && id in IdsFor(kind, actions[n], group);
    assert Touched(log, from, Key(kind, id));
  }
}
