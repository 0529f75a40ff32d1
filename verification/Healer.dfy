/** The coordinator as an object: the start of a tick, one action, and one group's stages. */
module Healer {
  import opened Basics
  import opened FailureWindow
  import opened HealCoordinator
  import HP = HealPlanner

  // What the audit and the backend will answer, and when.
  datatype Answer = Answer(now: int, audited: bool, result: Result, end: int)

  /** Answers come in time order. */
  ghost predicate Ordered(answers: nat -> Answer) {
    (forall n: nat :: answers(n).now <= answers(n).end)
    && forall m: nat, n: nat :: m < n ==> answers(m).end <= answers(n).now
  }

  /** The plan for an input, when there is one. */
  function PlanFor(i: HP.HealInput): Option<HP.HealPlan> {
    if !HP.GoodPolicy(i.policy) then None
    else if i.policy.targetSize == 0 then Some(HP.EMPTY_PLAN.(dryRun := !i.policy.execute))
    else if i.now.None? || i.maxAge <= 0 || !HP.Ready(HP.SortById(i.candidates)) then None
    else Some(HP.PlanOf(HP.SortById(i.candidates), i.policy, i.subscriptions, i.now.value, i.maxAge))
  }

  function WithoutPromotion(refill: seq<HP.Refill>): seq<HP.Refill> {
    if refill == [] then []
    else
      var before := WithoutPromotion(refill[..|refill| - 1]);
      if refill[|refill| - 1] == HP.PromoteStandby then before else before + [refill[|refill| - 1]]
  }

  /** The input a fallback action is planned from: a promotion that has not happened is not counted on. */
  function Observed(i: HP.HealInput): HP.HealInput {
    i.(policy := i.policy.(refill := WithoutPromotion(i.policy.refill)))
  }

  /** A fresh, executable plan asks for the action. */
  predicate Asks(i: HP.HealInput, group: int, key: Key) {
    i.policy.execute
    && match key.kind
       case Promotion =>
         key.id == group && PlanFor(i).Some?
         && exists n :: 0 <= n < |PlanFor(i).value.actions| && PlanFor(i).value.actions[n].Promote?
       case Probing =>
         var plan := PlanFor(Observed(i));
         plan.Some?
         && exists n :: 0 <= n < |plan.value.actions| && plan.value.actions[n].Probe?
                        && key.id in plan.value.actions[n].nodeIds
       case Refreshing =>
         var plan := PlanFor(Observed(i));
         plan.Some?
         && exists n :: 0 <= n < |plan.value.actions| && plan.value.actions[n].Refresh?
                        && key.id in plan.value.actions[n].subscriptionIds
  }

  // What a stage performs of one action.
  function IdsFor(kind: Kind, a: HP.HealAction, group: int): seq<int> {
    match a
    case Promote(_, _) => if kind == Promotion then [group] else []
    case Probe(ids) => if kind == Probing then ids else []
    case Refresh(ids) => if kind == Refreshing then ids else []
    case Alert(_, _) => []
  }

  lemma IdsAreAsked(i: HP.HealInput, group: int, kind: Kind, n: nat, id: int)
    requires i.policy.execute
    requires var plan := PlanFor(if kind == Promotion then i else Observed(i));
             plan.Some? && n < |plan.value.actions| && id in IdsFor(kind, plan.value.actions[n], group)
    ensures Asks(i, group, Key(kind, id))
  {
    hide PlanFor, Observed;
  }

  lemma NothingNew(i: HP.HealInput, group: int, log: seq<Entry>)
    ensures AskedBy(i, group, log, |log|)
  {
  }

  predicate AskedBy(i: HP.HealInput, group: int, log: seq<Entry>, from: nat) {
    forall n :: from <= n < |log| && log[n].Ran? ==> Asks(i, group, log[n].key)
  }

  predicate AskedByAny(rereads: nat -> Option<HP.HealInput>, group: int, log: seq<Entry>, from: nat) {
    forall n :: from <= n < |log| && log[n].Ran? ==>
      exists r: nat :: r < 4 && rereads(r).Some? && Asks(rereads(r).value, group, log[n].key)
  }

  // The log has an entry about the key: deferred, or announced (and run).
  predicate Touched(log: seq<Entry>, from: nat, key: Key) {
    exists n :: from <= n < |log| && !log[n].Window? && log[n].key == key
  }

  /** Everything a stage's plan asks for has been dealt with. */
  predicate StageDone(i: HP.HealInput, group: int, kind: Kind, log: seq<Entry>, from: nat) {
    var plan := PlanFor(if kind == Promotion then i else Observed(i));
    plan.Some? ==> ActionsDone(plan.value.actions, |plan.value.actions|, group, kind, log, from)
  }

  predicate ActionsDone(actions: seq<HP.HealAction>, done: nat, group: int, kind: Kind, log: seq<Entry>, from: nat) {
    forall n :: 0 <= n < done && n < |actions| ==> forall id :: id in IdsFor(kind, actions[n], group) ==>
        Touched(log, from, Key(kind, id))
  }

  // A stage is carried out when its input can be read, is executable and can be planned.
  predicate Plannable(latest: Option<HP.HealInput>, kind: Kind) {
    latest.Some? && latest.value.policy.execute && PlanFor(latest.value).Some?
    && PlanFor(if kind == Promotion then latest.value else Observed(latest.value)).Some?
  }

  lemma NoneDone(actions: seq<HP.HealAction>, group: int, kind: Kind, log: seq<Entry>, from: nat)
    ensures ActionsDone(actions, 0, group, kind, log, from)
  {
  }

  lemma TouchedFrom(log: seq<Entry>, start: nat, from: nat, key: Key)
    requires start <= from && Touched(log, from, key)
    ensures Touched(log, start, key)
  {
  }

  lemma OneMoreDone(actions: seq<HP.HealAction>, n: nat, group: int, kind: Kind, log: seq<Entry>, from: nat)
    requires n < |actions| && ActionsDone(actions, n, group, kind, log, from)
    requires forall b :: 0 <= b < |IdsFor(kind, actions[n], group)| ==>
             Touched(log, from, Key(kind, IdsFor(kind, actions[n], group)[b]))
    ensures ActionsDone(actions, n + 1, group, kind, log, from)
  {
  }

  lemma StillTouched(log: seq<Entry>, more: seq<Entry>, from: nat, key: Key)
    requires log <= more && Touched(log, from, key)
    ensures Touched(more, from, key)
  {
  }

  lemma StillDone(actions: seq<HP.HealAction>, done: nat, group: int, kind: Kind, log: seq<Entry>, more: seq<Entry>,
                  from: nat, start: nat)
    requires log <= more && start <= from && ActionsDone(actions, done, group, kind, log, from)
    ensures ActionsDone(actions, done, group, kind, more, start)
  {
    forall n, id | 0 <= n < done && n < |actions| && id in IdsFor(kind, actions[n], group)
        ensures Touched(more, start, Key(kind, id)) {
      assert Touched(log, from, Key(kind, id));
      var k :| from <= k < |log| && !log[k].Window? && log[k].key == Key(kind, id);
      assert more[k] == log[k];
    }
  }

  // The stages of a group, in order.
  const Stages: seq<Kind> := [Promotion, Probing, Promotion, Refreshing]

  // A stretch of the log about keys of one kind.
  predicate OfKind(log: seq<Entry>, from: nat, to: nat, kind: Kind) {
    forall n :: from <= n < to && n < |log| ==> !log[n].Window? && log[n].key.kind == kind
  }

  /** Promotions first, then probes, then promotions once more, and refreshes last. */
  ghost predicate InStages(log: seq<Entry>, from: nat) {
    exists a: nat, b: nat, c: nat ::
      from <= a <= b <= c <= |log| && OfKind(log, from, a, Promotion) && OfKind(log, a, b, Probing)
      && OfKind(log, b, c, Promotion) && OfKind(log, c, |log|, Refreshing)
  }

  // Where the stages so far ended.
  predicate CutAt(log: seq<Entry>, cuts: seq<nat>, r: nat) {
    && r <= 4 && |cuts| == r + 1 && cuts[r] == |log|
    && forall k: nat :: k < r ==> cuts[k] <= cuts[k + 1] && OfKind(log, cuts[k], cuts[k + 1], StageKind(k))
  }

  lemma NothingOfKind(log: seq<Entry>, from: nat)
    requires from == |log|
    ensures CutAt(log, [from], 0)
  {
  }

  lemma CutOneMore(log: seq<Entry>, more: seq<Entry>, cuts: seq<nat>, r: nat)
    requires r < 4 && CutAt(log, cuts, r) && log <= more && OfKind(more, |log|, |more|, StageKind(r))
    ensures CutAt(more, cuts + [|more|], r + 1)
  {
    var longer := cuts + [|more|];
    forall k: nat | k < r + 1 ensures longer[k] <= longer[k + 1]
        && OfKind(more, longer[k], longer[k + 1], StageKind(k)) {
      if k < r {
        assert longer[k] == cuts[k] && longer[k + 1] == cuts[k + 1] && OfKind(log, cuts[k], cuts[k + 1], StageKind(k));
        CutsWithin(log, cuts, r, k + 1);
      }
    }
  }

  lemma {:induction false} CutsWithin(log: seq<Entry>, cuts: seq<nat>, r: nat, k: nat)
    requires CutAt(log, cuts, r) && k <= r
    ensures cuts[k] <= |log|
    decreases r - k
  {
    if k < r {
      CutsWithin(log, cuts, r, k + 1);
    }
  }

  lemma CutsInStages(log: seq<Entry>, cuts: seq<nat>, r: nat)
    requires CutAt(log, cuts, r)
    ensures InStages(log, cuts[0])
  {
    CutsWithin(log, cuts, r, 0);
    if r >= 1 { CutsWithin(log, cuts, r, 1); }
    if r >= 2 { CutsWithin(log, cuts, r, 2); }
    if r >= 3 { CutsWithin(log, cuts, r, 3); }
    var a := if r >= 1 then cuts[1] else |log|;
    var b := if r >= 2 then cuts[2] else |log|;
    var c := if r >= 3 then cuts[3] else |log|;
    assert r >= 1 ==> OfKind(log, cuts[0], cuts[1], StageKind(0)) && cuts[0] <= cuts[1];
    assert r >= 2 ==> OfKind(log, cuts[1], cuts[2], StageKind(1)) && cuts[1] <= cuts[2];
    assert r >= 3 ==> OfKind(log, cuts[2], cuts[3], StageKind(2)) && cuts[2] <= cuts[3];
    assert r >= 4 ==> OfKind(log, cuts[3], cuts[4], StageKind(3)) && cuts[3] <= cuts[4];
    assert OfKind(log, cuts[0], a, Promotion) && OfKind(log, a, b, Probing) && OfKind(log, b, c, Promotion)
        && OfKind(log, c, |log|, Refreshing);
  }

  function StageKind(r: nat): Kind {
    if r == 1 then Probing else if r == 3 then Refreshing else Promotion
  }

  lemma {:induction false} WithoutPromotionHas(refill: seq<HP.Refill>, a: HP.Refill)
    ensures a in WithoutPromotion(refill) <==> a in refill && a != HP.PromoteStandby
  {
    if refill != [] {
      var init := refill[..|refill| - 1];
      WithoutPromotionHas(init, a);
      assert refill == init + [refill[|refill| - 1]];
    }
  }

  /** Probes and refreshes are asked for exactly when the active members that are healthy now are too few, whatever a
      promotion might add. */
  lemma FallbackCountsActiveHealth(cs: seq<HP.Candidate>, p: HP.HealPolicy, subscriptions: seq<int>, now: int,
                                   maxAge: int)
    requires HP.Ready(cs) && HP.GoodSizes(p)
    ensures var plan := HP.PlanOf(cs, p.(refill := WithoutPromotion(p.refill)), subscriptions, now, maxAge);
            plan.deficit > 0 <==> |HP.IdsWanted(cs, HP.HealthyActive, now, maxAge)| < p.minHealthy
  {
    var q := p.(refill := WithoutPromotion(p.refill));
    WithoutPromotionHas(p.refill, HP.PromoteStandby);
    HP.PlanPartitions(cs, q, subscriptions, now, maxAge);
    hide HP.IdsWanted, HP.Selection, HP.IdsOf, HP.CountHealthyIn, HP.CountWanted;
  }

  class Coordinator {
    var attempts: map<Key, Attempt>
    var window: Option<int>
    var probes: nat
    var refreshes: nat
    ghost var windows: nat
    ghost var log: seq<Entry>
    ghost var clock: int

    ghost function Value(): State
      reads this
    {
      State(attempts, window, probes, refreshes, windows, log, clock)
    }

    constructor (ghost clock: int)
      ensures Value() == Initial(clock)
    {
      attempts, window, probes, refreshes := map[], None, 0, 0;
      windows, log := 0, [];
      this.clock := clock;
    }

    /** The start of Tick. */
    method BeginTick(now: int)
      requires Inv(Value()) && clock <= now
      modifies this
      ensures Value() == Ticked(old(Value()), now) && Inv(Value())
    {
      StepKeepsInv(Value(), Tick(now));
      hide Inv;
      if window.None? || now - window.value >= MINUTE {
        window, probes, refreshes := Some(now), 0, 0;
        windows, log := windows + 1, log + [Window(now)];
      }
      Forget(now);
      clock := now;
    }

    // Attempts more than an hour past are dropped.
    method Forget(now: int)
      modifies this`attempts
      ensures attempts == Remembered(old(attempts), now)
    {
      var todo := attempts.Keys;
      while todo != {}
        invariant todo <= old(attempts).Keys
        invariant attempts == map k | k in old(attempts)
                  && (k in todo || !Stale(old(attempts)[k], now)) :: old(attempts)[k]
      {
        var k := Pick(todo);
        if Stale(attempts[k], now) {
          attempts := attempts - {k};
        }
        todo := todo - {k};
      }
    }

    // When the key may run again, and its failures in a row.
    method Reckon(kind: Kind, known: nat, result: Result, end: int) returns (next: int, failures: nat)
      ensures failures == FailuresAfter(known, result) && next == Due(kind, end, result, failures)
    {
      var delay := if kind == Refreshing then 5 * MINUTE else if kind == Promotion then 10 * SECOND else MINUTE;
      failures := known;
      match result {
        case Deferred(until) => next := Later(end + delay, until);
        case Failed =>
          failures := failures + 1;
          DelayIsBackoff(kind, failures);
          delay := delay * Pow2(Min(failures - 1, 4));
          if kind == Refreshing && failures >= 3 {
            delay := 30 * MINUTE;
          }
          next := end + Min(delay, 30 * MINUTE);
        case Succeeded =>
          failures := 0;
          next := end + delay;
      }
    }

    /** perform: `a` holds the answers of the audit and of the backend. */
    method Perform(key: Key, a: Answer)
      requires Inv(Value()) && Enabled(Value(), HealCoordinator.Perform(key, a.now, a.audited, a.result, a.end))
      modifies this
      ensures Value() == Performed(old(Value()), key, a.now, a.audited, a.result, a.end) && Inv(Value())
      ensures window == old(window)
    {
      StepKeepsInv(Value(), HealCoordinator.Perform(key, a.now, a.audited, a.result, a.end));
      hide Inv, Due, FailuresAfter;
      var previous := if key in attempts then attempts[key] else Attempt(None, 0);
      var refused := previous.next.Some? && a.now < previous.next.value;
      if key.kind == Probing && probes >= PROBE_BUDGET {
        refused := true;
      }
      if key.kind == Refreshing && refreshes >= REFRESH_BUDGET {
        refused := true;
      }
      clock := a.now;
      if refused {
        log := log + [PutOff(key, a.now)];
        return;
      }
      if !a.audited {
        log := log + [Planned(key, a.now, false)];
        return;
      }
      if key.kind == Probing {
        probes := probes + 1;
      }
      if key.kind == Refreshing {
        refreshes := refreshes + 1;
      }
      var next, failures := Reckon(key.kind, previous.failures, a.result, a.end);
      attempts := attempts[key := Attempt(Some(next), failures)];
      log := log + [Planned(key, a.now, true), Ran(key, a.now, a.end, a.result, previous.failures, failures, next,
          windows)];
      clock := a.end;
    }

    // The plan, when there is one.
    method Planning(i: HP.HealInput) returns (plan: Option<HP.HealPlan>)
      ensures plan == PlanFor(i)
    {
      var planned := HP.PlanHealing(i);
      plan := if planned.Plan? then Some(planned.plan) else None;
    }

    /** A stage of one group: its actions of one kind from a plan, one at a time. */
    method Stage(group: int, i: HP.HealInput, kind: Kind, answers: nat -> Answer, from: nat)
                 returns (ok: bool, next: nat)
      requires Inv(Value()) && Ordered(answers) && clock <= answers(from).now && window.Some? && i.policy.execute
      modifies this
      ensures Inv(Value()) && clock <= answers(next).now && window.Some?
      ensures old(log) <= log && AskedBy(i, group, log, |old(log)|)
      ensures ok <==> PlanFor(if kind == Promotion then i else Observed(i)).Some?
      ensures !ok ==> log == old(log)
      ensures OfKind(log, |old(log)|, |log|, kind)
      ensures StageDone(i, group, kind, log, |old(log)|)
    {
      hide Inv, Performed, Enabled, Asks, IdsFor, AskedBy, Touched, ActionsDone, Ordered, PlanFor, Observed;
      NothingNew(i, group, log);
      next := from;
      var plan := Planning(if kind == Promotion then i else Observed(i));
      ok := plan.Some?;
      if !ok {
        return;
      }
      var actions := plan.value.actions;
      ghost var start := |log|;
      assert ActionsDone(actions, 0, group, kind, log, start) by { NoneDone(actions, group, kind, log, start); }
      hide OfKind;
      for n := 0 to |actions|
        invariant Inv(Value()) && clock <= answers(next).now && window.Some?
        invariant old(log) <= log && AskedBy(i, group, log, start) && start == |old(log)|
        invariant ActionsDone(actions, n, group, kind, log, start) && OfKind(log, start, |log|, kind)
      {
        ghost var before := log;
        next := PerformAll(group, i, kind, n, IdsFor(kind, actions[n], group), answers, next, start);
        StillDone(actions, n, group, kind, before, log, start, start);
        OneMoreDone(actions, n, group, kind, log, start);
      }
    }

    // The n-th action of a plan, one ID at a time.
    method PerformAll(group: int, i: HP.HealInput, kind: Kind, ghost n: nat, ids: seq<int>, answers: nat -> Answer,
                      from: nat, ghost start: nat)
        returns (next: nat)
      requires Inv(Value()) && Ordered(answers) && clock <= answers(from).now && window.Some?
      requires start <= |log| && AskedBy(i, group, log, start)
      requires i.policy.execute
      requires var plan := PlanFor(if kind == Promotion then i else Observed(i));
               plan.Some? && n < |plan.value.actions| && ids == IdsFor(kind, plan.value.actions[n], group)
      modifies this
      ensures Inv(Value()) && clock <= answers(next).now && window.Some?
      ensures old(log) <= log && AskedBy(i, group, log, start)
      ensures forall b :: 0 <= b < |ids| ==> Touched(log, start, Key(kind, ids[b]))
      ensures OfKind(log, |old(log)|, |log|, kind)
    {
      hide Inv, Performed, Enabled, Asks, IdsFor, AskedBy, Touched, PlanFor, Observed, Ordered;
      next := from;
      for m := 0 to |ids|
        invariant Inv(Value()) && clock <= answers(next).now && window.Some?
        invariant old(log) <= log && AskedBy(i, group, log, start)
        invariant forall b :: 0 <= b < m ==> Touched(log, start, Key(kind, ids[b]))
        invariant OfKind(log, |old(log)|, |log|, kind)
      {
        IdsAreAsked(i, group, kind, n, ids[m]);
        ghost var now := log;
        next := One(group, i, Key(kind, ids[m]), answers, next, start);
        TouchedFrom(log, start, |now|, Key(kind, ids[m]));
        forall b | 0 <= b < m ensures Touched(log, start, Key(kind, ids[b])) {
          StillTouched(now, log, start, Key(kind, ids[b]));
        }
      }
    }

    // One action that the plan asks for.
    method One(group: int, i: HP.HealInput, key: Key, answers: nat -> Answer, from: nat, ghost start: nat)
               returns (next: nat)
      requires Inv(Value()) && Ordered(answers) && clock <= answers(from).now && window.Some?
      requires Asks(i, group, key) && start <= |log| && AskedBy(i, group, log, start)
      modifies this
      ensures Inv(Value()) && clock <= answers(next).now && window.Some?
      ensures old(log) <= log && AskedBy(i, group, log, start)
      ensures Touched(log, |old(log)|, key) && OfKind(log, |old(log)|, |log|, key.kind)
    {
      hide Inv, Asks, Due;
      Perform(key, answers(from));
      next := from + 1;
      assert !log[|old(log)|].Window? && log[|old(log)|].key == key;
    }

    /** runGroup: every stage reads and plans afresh, and nothing runs that a fresh executable plan did not ask for. */
    method RunGroup(group: int, initial: HP.HealInput, rereads: nat -> Option<HP.HealInput>, answers: nat -> Answer,
                    from: nat)
        returns (next: nat)
      requires Inv(Value()) && Ordered(answers) && clock <= answers(from).now && window.Some?
      modifies this
      ensures Inv(Value()) && clock <= answers(next).now && window.Some?
      ensures old(log) <= log && AskedByAny(rereads, group, log, |old(log)|)
      ensures PlanFor(initial).None? || PlanFor(initial).value.dryRun ==> log == old(log)
      ensures PlanFor(initial).Some? && !PlanFor(initial).value.dryRun ==>
                forall r: nat :: r < 4 && (forall k: nat :: k <= r ==> Plannable(rereads(k), Stages[k])) ==>
                  StageDone(rereads(r).value, group, Stages[r], log, |old(log)|)
      ensures InStages(log, |old(log)|)
    {
      hide Inv, Asks, StageDone, AskedBy, OfKind;
      next := from;
      NothingOfKind(log, |old(log)|);
      ghost var cuts: seq<nat> := [|log|];
      var planned := HP.PlanHealing(initial);
      if !planned.Plan? || planned.plan.dryRun {
        CutsInStages(log, cuts, 0);
        return;
      }
      for r := 0 to 4
        invariant Inv(Value()) && clock <= answers(next).now && window.Some?
        invariant old(log) <= log && AskedByAny(rereads, group, log, |old(log)|)
        invariant forall k: nat :: k < r ==>
                  Plannable(rereads(k), StageKind(k))
                  && StageDone(rereads(k).value, group, StageKind(k), log, |old(log)|)
        invariant CutAt(log, cuts, r) && cuts[0] == |old(log)|
      {
        var latest := rereads(r);
        if latest.None? {
          CutsInStages(log, cuts, r);
          return;
        }
        var replanned := HP.PlanHealing(latest.value);
        if !replanned.Plan? || !latest.value.policy.execute {
          CutsInStages(log, cuts, r);
          return;
        }
        ghost var before := log;
        var ok;
        ok, next := Stage(group, latest.value, StageKind(r), answers, next);
        AskedLater(rereads, group, r, before, log, |old(log)|);
        forall k: nat | k < r ensures StageDone(rereads(k).value, group, StageKind(k), log, |old(log)|) {
          StageStays(rereads(k).value, group, StageKind(k), before, log, |old(log)|, |old(log)|);
        }
        StageStays(latest.value, group, StageKind(r), log, log, |before|, |old(log)|);
        CutOneMore(before, log, cuts, r);
        cuts := cuts + [|log|];
        if !ok {
          CutsInStages(log, cuts, r + 1);
          return;
        }
      }
      CutsInStages(log, cuts, 4);
    }
  }

  lemma StageStays(i: HP.HealInput, group: int, kind: Kind, log: seq<Entry>, more: seq<Entry>, from: nat, start: nat)
    requires log <= more && start <= from && StageDone(i, group, kind, log, from)
    ensures StageDone(i, group, kind, more, start)
  {
    var plan := PlanFor(if kind == Promotion then i else Observed(i));
    if plan.Some? {
      StillDone(plan.value.actions, |plan.value.actions|, group, kind, log, more, from, start);
    }
    hide PlanFor, Observed, ActionsDone;
  }

  lemma AskedLater(rereads: nat -> Option<HP.HealInput>, group: int, r: nat, log: seq<Entry>, more: seq<Entry>,
                   start: nat)
    requires r < 4 && rereads(r).Some? && log <= more && start <= |log|
    requires AskedByAny(rereads, group, log, start) && AskedBy(rereads(r).value, group, more, |log|)
    ensures AskedByAny(rereads, group, more, start)
  {
    hide Asks;
    assert forall n :: 0 <= n < |log| ==> more[n] == log[n];
  }

  lemma DelayIsBackoff(k: Kind, f: nat)
    requires f > 0
    ensures Backoff(k, f) == Min(if k == Refreshing && f >= 3 then 30 * MINUTE else Base(k) * Pow2(Min(f - 1, 4)),
            30 * MINUTE)
  {
  }
}
