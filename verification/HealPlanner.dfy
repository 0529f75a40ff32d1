/** The capacity planner: which candidates of a group carry traffic, and what to try when too few are healthy. */
module HealPlanner {
  import opened Basics

  datatype Refill = PromoteStandby | ProbeQuarantined | RefreshSubscription | OtherAction(name: string)

  datatype HealPolicy = HealPolicy(minHealthy: int, targetSize: int, execute: bool, refill: seq<Refill>)

  datatype Candidate = Candidate(nodeId: int, active: bool, status: string, available: bool, checked: bool,
                                 provisional: bool, checkedAt: Option<int>, recovery: bool, cooldownEnd: Option<int>)

  /** The input of one planning; a missing clock reading is Go's zero time. */
  datatype HealInput = HealInput(policy: HealPolicy, candidates: seq<Candidate>, subscriptions: seq<int>,
                                 now: Option<int>, maxAge: int)

  datatype HealAction =
    | Promote(added: seq<int>, removed: seq<int>)
    | Probe(nodeIds: seq<int>)
    | Refresh(subscriptionIds: seq<int>)
    | Alert(projected: int, minimum: int)

  datatype HealPlan = HealPlan(dryRun: bool, healthy: nat, projected: nat, deficit: nat, desired: seq<int>,
                               standby: seq<int>, actions: seq<HealAction>)

  datatype PolicyError = BadSizes | UnknownAction | DuplicateAction | WrongOrder

  datatype Planned = Plan(plan: HealPlan) | BadPolicy(error: PolicyError) | NoClock | BadCandidate(id: int)

  // -------------------------------------------------------------------------------------------
  // The policy
  // -------------------------------------------------------------------------------------------

  function Rank(a: Refill): int {
    match a
    case PromoteStandby => 0
    case ProbeQuarantined => 1
    case RefreshSubscription => 2
    case OtherAction(_) => -1
  }

  predicate GoodSizes(p: HealPolicy) {
    0 <= p.minHealthy <= p.targetSize <= 100000
  }

  /** Known actions, each at most once, in the fixed order. */
  predicate GoodRefill(refill: seq<Refill>) {
    (forall i :: 0 <= i < |refill| ==> !refill[i].OtherAction?)
    && forall i, j :: 0 <= i < j < |refill| ==> Rank(refill[i]) < Rank(refill[j])
  }

  /** The lists of actions that are accepted, one by one. */
  lemma RefillsInOrder(refill: seq<Refill>)
    ensures GoodRefill(refill) <==>
            refill in {[], [PromoteStandby], [ProbeQuarantined], [RefreshSubscription],
                       [PromoteStandby, ProbeQuarantined], [PromoteStandby, RefreshSubscription],
                       [ProbeQuarantined, RefreshSubscription],
                       [PromoteStandby, ProbeQuarantined, RefreshSubscription]}
  {
    if GoodRefill(refill) {
      assert |refill| > 3 ==> Rank(refill[0]) < Rank(refill[1]) < Rank(refill[2]) < Rank(refill[3]);
      if |refill| == 1 {
        assert refill == [refill[0]];
      } else if |refill| == 2 {
        assert refill == [refill[0], refill[1]];
      } else if |refill| == 3 {
        assert refill == [refill[0], refill[1], refill[2]];
      }
    }
  }

  /** Validate: accepts exactly the well-formed policies. */
  method Validate(p: HealPolicy) returns (error: Option<PolicyError>)
    ensures error.None? <==> GoodSizes(p) && GoodRefill(p.refill)
    ensures error == Some(BadSizes) <==> !GoodSizes(p)
    ensures error.None? <==>
              0 <= p.minHealthy <= p.targetSize <= 100000
              && p.refill in {[], [PromoteStandby], [ProbeQuarantined], [RefreshSubscription],
                              [PromoteStandby, ProbeQuarantined], [PromoteStandby, RefreshSubscription],
                              [ProbeQuarantined, RefreshSubscription],
                              [PromoteStandby, ProbeQuarantined, RefreshSubscription]}
  {
    RefillsInOrder(p.refill);
    hide GoodRefill, Rank;
    NothingRefilled();
    if p.minHealthy < 0 || p.targetSize < 0 || p.minHealthy > p.targetSize || p.targetSize > 100000 {
      return Some(BadSizes);
    }
    var seen: set<Refill> := {};
    var previous := -1;
    for i := 0 to |p.refill|
      invariant GoodRefill(p.refill[..i])
      invariant forall a :: a in seen <==> a in p.refill[..i]
      invariant previous == if i == 0 then -1 else Rank(p.refill[i - 1])
    {
      var action := p.refill[i];
      OneMoreRefill(p.refill, i);
      if action.OtherAction? {
        return Some(UnknownAction);
      }
      if action in seen {
        return Some(DuplicateAction);
      }
      seen := seen + {action};
      if Rank(action) < previous {
        return Some(WrongOrder);
      }
      previous := Rank(action);
    }
    assert p.refill[..|p.refill|] == p.refill;
    return None;
  }

  lemma NothingRefilled()
    ensures GoodRefill([])
  {
  }

  // One more action is good if it is known, new and not lower than the one before.
  lemma OneMoreRefill(refill: seq<Refill>, i: nat)
    requires i < |refill| && GoodRefill(refill[..i])
    ensures forall a :: a in refill[..i + 1] <==> a in refill[..i] || a == refill[i]
    ensures refill[i].OtherAction? || refill[i] in refill[..i] || (i > 0 && Rank(refill[i]) < Rank(refill[i - 1])) ==>
              !GoodRefill(refill)
    ensures (!refill[i].OtherAction? && refill[i] !in refill[..i] && (i > 0 ==> Rank(refill[i]) >= Rank(refill[i - 1])))
            ==> GoodRefill(refill[..i + 1])
    ensures Rank(refill[i]) >= -1
  {
    assert refill[..i + 1] == refill[..i] + [refill[i]];
    if i > 0 {
      assert refill[..i][i - 1] == refill[i - 1];
    }
  }

  // -------------------------------------------------------------------------------------------
  // Ordering
  // -------------------------------------------------------------------------------------------

  predicate Ascending(cs: seq<Candidate>) {
    forall i, j :: 0 <= i < j < |cs| ==> cs[i].nodeId <= cs[j].nodeId
  }

  // Valid candidates in planning order: positive IDs, none twice.
  predicate Ready(cs: seq<Candidate>) {
    (forall i :: 0 <= i < |cs| ==> cs[i].nodeId > 0)
    && forall i, j :: 0 <= i < j < |cs| ==> cs[i].nodeId < cs[j].nodeId
  }

  function Insert(cs: seq<Candidate>, c: Candidate): seq<Candidate> {
    if cs == [] || cs[|cs| - 1].nodeId <= c.nodeId then cs + [c]
    else Insert(cs[..|cs| - 1], c) + [cs[|cs| - 1]]
  }

  function SortById(cs: seq<Candidate>): seq<Candidate> {
    if cs == [] then [] else Insert(SortById(cs[..|cs| - 1]), cs[|cs| - 1])
  }

  lemma {:induction false} InsertKeeps(cs: seq<Candidate>, c: Candidate)
    requires Ascending(cs)
    ensures Ascending(Insert(cs, c)) && multiset(Insert(cs, c)) == multiset(cs) + multiset{c}
  {
    hide Ascending;
    if cs == [] || cs[|cs| - 1].nodeId <= c.nodeId {
      AppendsHighest(cs, c);
    } else {
      var init, last := cs[..|cs| - 1], cs[|cs| - 1];
      assert cs == init + [last];
      BelowLast(init, last);
      InsertKeeps(init, c);
      AppendAscending(Insert(init, c), init, c, last);
    }
  }

  lemma AppendsHighest(cs: seq<Candidate>, c: Candidate)
    requires Ascending(cs) && (cs != [] ==> cs[|cs| - 1].nodeId <= c.nodeId)
    ensures Ascending(cs + [c])
  {
  }

  lemma BelowLast(init: seq<Candidate>, last: Candidate)
    requires Ascending(init + [last])
    ensures Ascending(init) && forall i :: 0 <= i < |init| ==> init[i].nodeId <= last.nodeId
  {
    var cs := init + [last];
    assert cs[|init|] == last && forall i :: 0 <= i < |init| ==> cs[i] == init[i];
  }

  lemma AppendAscending(cs: seq<Candidate>, init: seq<Candidate>, c: Candidate, last: Candidate)
    requires Ascending(cs) && multiset(cs) == multiset(init) + multiset{c}
    requires c.nodeId <= last.nodeId && forall i :: 0 <= i < |init| ==> init[i].nodeId <= last.nodeId
    ensures Ascending(cs + [last])
  {
    forall i | 0 <= i < |cs| ensures cs[i].nodeId <= last.nodeId {
      assert cs[i] in multiset(cs);
      assert cs[i] in multiset(init) || cs[i] == c;
      assert cs[i] in multiset(init) ==> cs[i] in init;
    }
  }

  lemma {:induction false} SortByIdKeeps(cs: seq<Candidate>)
    ensures Ascending(SortById(cs)) && multiset(SortById(cs)) == multiset(cs)
  {
    if cs != [] {
      SortByIdKeeps(cs[..|cs| - 1]);
      assert cs == cs[..|cs| - 1] + [cs[|cs| - 1]];
      InsertKeeps(SortById(cs[..|cs| - 1]), cs[|cs| - 1]);
    }
  }

  lemma LastEqual(a: seq<Candidate>, b: seq<Candidate>)
    requires Ready(a) && Ascending(b) && a != [] && b != [] && multiset(a) == multiset(b)
    ensures a[|a| - 1] == b[|b| - 1]
  {
    var x, y := a[|a| - 1], b[|b| - 1];
    assert x in multiset(a) && y in multiset(b);
    assert x in b && y in a;
    var i :| 0 <= i < |b| && b[i] == x;
    var j :| 0 <= j < |a| && a[j] == y;
    assert a[j].nodeId <= x.nodeId && b[i].nodeId <= y.nodeId;
  }

  lemma Peel(a: seq<Candidate>)
    requires a != []
    ensures multiset(a[..|a| - 1]) == multiset(a) - multiset{a[|a| - 1]}
  {
    assert a == a[..|a| - 1] + [a[|a| - 1]];
  }

  /** Ascending lists of the same candidates with distinct IDs are equal. */
  lemma {:induction false} SameSorted(a: seq<Candidate>, b: seq<Candidate>)
    requires Ready(a) && Ascending(b) && multiset(a) == multiset(b)
    ensures a == b
  {
    hide Ready, Ascending;
    assert |a| == |multiset(a)| && |b| == |multiset(b)|;
    if a != [] {
      var x, y := a[..|a| - 1], b[..|b| - 1];
      LastEqual(a, b);
      Peel(a);
      Peel(b);
      Shortened(a, b);
      SameSorted(x, y);
      assert a == x + [a[|a| - 1]] && b == y + [b[|b| - 1]];
    }
  }

  lemma Shortened(a: seq<Candidate>, b: seq<Candidate>)
    requires a != [] && b != [] && Ready(a) && Ascending(b)
    ensures Ready(a[..|a| - 1]) && Ascending(b[..|b| - 1])
  {
  }

  // -------------------------------------------------------------------------------------------
  // Health and selection
  // -------------------------------------------------------------------------------------------

  /** Fresh positive evidence. */
  predicate Healthy(c: Candidate, now: int, maxAge: int) {
    c.status == "ALIVE" && c.available && c.checked && !c.provisional
    && c.checkedAt.Some? && 0 <= now - c.checkedAt.value <= maxAge
  }

  datatype Pass = HealthyActive | HealthyStandby | AnyActive

  predicate Wanted(pass: Pass, c: Candidate, now: int, maxAge: int) {
    match pass
    case HealthyActive => c.active && Healthy(c, now, maxAge)
    case HealthyStandby => !c.active && Healthy(c, now, maxAge)
    case AnyActive => c.active
  }

  /** One pass over the candidates, taking what it wants while there is room. */
  function Select(selected: set<int>, cs: seq<Candidate>, pass: Pass, now: int, maxAge: int, target: int): set<int> {
    if cs == [] then selected
    else
      var before := Select(selected, cs[..|cs| - 1], pass, now, maxAge, target);
      var c := cs[|cs| - 1];
      if Wanted(pass, c, now, maxAge) && |before| < target then before + {c.nodeId} else before
  }

  function IdsWanted(cs: seq<Candidate>, pass: Pass, now: int, maxAge: int): set<int> {
    set c | c in cs && Wanted(pass, c, now, maxAge) :: c.nodeId
  }

  function HealthyIds(cs: seq<Candidate>, now: int, maxAge: int): set<int> {
    set c | c in cs && Healthy(c, now, maxAge) :: c.nodeId
  }

  // Candidate IDs in a set, or out of it, in order.
  function IdsOf(cs: seq<Candidate>, within: set<int>): seq<int> {
    if cs == [] then []
    else
      var before := IdsOf(cs[..|cs| - 1], within);
      if cs[|cs| - 1].nodeId in within then before + [cs[|cs| - 1].nodeId] else before
  }

  function AllIds(cs: seq<Candidate>): set<int> {
    set c | c in cs :: c.nodeId
  }

  function CountWanted(cs: seq<Candidate>, pass: Pass, now: int, maxAge: int): nat {
    if cs == [] then 0
    else CountWanted(cs[..|cs| - 1], pass, now, maxAge) + if Wanted(pass, cs[|cs| - 1], now, maxAge) then 1 else 0
  }

  function CountHealthyIn(cs: seq<Candidate>, within: set<int>, now: int, maxAge: int): nat {
    if cs == [] then 0
    else
      CountHealthyIn(cs[..|cs| - 1], within, now, maxAge)
      + if cs[|cs| - 1].nodeId in within && Healthy(cs[|cs| - 1], now, maxAge) then 1 else 0
  }

  predicate Due(c: Candidate, now: int) {
    c.status == "EVICTED" && c.recovery && (c.cooldownEnd.None? || now >= c.cooldownEnd.value)
  }

  function DueIds(cs: seq<Candidate>, now: int): seq<int> {
    if cs == [] then []
    else
      var before := DueIds(cs[..|cs| - 1], now);
      if Due(cs[|cs| - 1], now) then before + [cs[|cs| - 1].nodeId] else before
  }

  /** What a plan decides, over candidates in planning order. */
  function Selection(cs: seq<Candidate>, p: HealPolicy, now: int, maxAge: int): set<int> {
    var first := Select({}, cs, HealthyActive, now, maxAge, p.targetSize);
    var promoted := if |first| < p.minHealthy && PromoteStandby in p.refill
                    then Select(first, cs, HealthyStandby, now, maxAge, p.targetSize) else first;
    Select(promoted, cs, AnyActive, now, maxAge, p.targetSize)
  }

  function ActiveIds(cs: seq<Candidate>): set<int> {
    set c | c in cs && c.active :: c.nodeId
  }

  lemma {:induction false} SelectBounds(selected: set<int>, cs: seq<Candidate>, pass: Pass, now: int, maxAge: int,
                                        target: int)
    ensures var r := Select(selected, cs, pass, now, maxAge, target);
            selected <= r <= selected + IdsWanted(cs, pass, now, maxAge)
            && (|r| <= target || r == selected)
            && (|r| >= target || IdsWanted(cs, pass, now, maxAge) <= r)
  {
    if cs != [] {
      var init := cs[..|cs| - 1];
      SelectBounds(selected, init, pass, now, maxAge, target);
      assert cs == init + [cs[|cs| - 1]];
      IdsWantedAdded(init, cs[|cs| - 1], pass, now, maxAge);
    }
  }

  lemma IdsWantedAdded(cs: seq<Candidate>, c: Candidate, pass: Pass, now: int, maxAge: int)
    ensures IdsWanted(cs + [c], pass, now, maxAge)
         == IdsWanted(cs, pass, now, maxAge) + if Wanted(pass, c, now, maxAge) then {c.nodeId} else {}
  {
  }

  // -------------------------------------------------------------------------------------------
  // Optimality
  // -------------------------------------------------------------------------------------------

  // A pass fills the room there is with what it wants.
  lemma SelectFills(selected: set<int>, cs: seq<Candidate>, pass: Pass, now: int, maxAge: int, target: int)
    requires |selected| <= target && IdsWanted(cs, pass, now, maxAge) !! selected
    ensures var r, wanted := Select(selected, cs, pass, now, maxAge, target), |IdsWanted(cs, pass, now, maxAge)|;
            |r| == if |selected| + wanted <= target then |selected| + wanted else target
  {
    var r, wanted := Select(selected, cs, pass, now, maxAge, target), IdsWanted(cs, pass, now, maxAge);
    SelectBounds(selected, cs, pass, now, maxAge, target);
    assert |selected + wanted| == |selected| + |wanted|;
    Smaller(r, selected + wanted);
    if wanted <= r {
      assert r == selected + wanted;
    }
  }

  lemma Smaller(a: set<int>, b: set<int>)
    requires a <= b
    ensures |a| <= |b|
    ensures |a| == |b| ==> a == b
  {
    assert b == a + (b - a);
  }

  /** How many healthy candidates a plan may count on: the healthy active ones, and the healthy standby ones when
      the active ones are short and promotion is allowed. */
  function Reachable(cs: seq<Candidate>, p: HealPolicy, now: int, maxAge: int): set<int> {
    if |IdsWanted(cs, HealthyActive, now, maxAge)| < p.minHealthy && PromoteStandby in p.refill
    then IdsWanted(cs, HealthyActive, now, maxAge) + IdsWanted(cs, HealthyStandby, now, maxAge)
    else IdsWanted(cs, HealthyActive, now, maxAge)
  }

  /** A selection that respects the target and admits standby candidates only when promotion applies. */
  predicate Permitted(s: set<int>, cs: seq<Candidate>, p: HealPolicy, now: int, maxAge: int) {
    s <= AllIds(cs) && |s| <= p.targetSize
    && (s <= ActiveIds(cs)
        || (|IdsWanted(cs, HealthyActive, now, maxAge)| < p.minHealthy && PromoteStandby in p.refill))
  }

  lemma HealthySplits(cs: seq<Candidate>, now: int, maxAge: int)
    requires Ready(cs)
    ensures HealthyIds(cs, now, maxAge) == IdsWanted(cs, HealthyActive, now, maxAge)
            + IdsWanted(cs, HealthyStandby, now, maxAge)
    ensures IdsWanted(cs, HealthyActive, now, maxAge) !! IdsWanted(cs, HealthyStandby, now, maxAge)
    ensures HealthyIds(cs, now, maxAge) * ActiveIds(cs) == IdsWanted(cs, HealthyActive, now, maxAge)
    ensures IdsWanted(cs, AnyActive, now, maxAge) == ActiveIds(cs)
  {
  }

  /** What the first two passes choose: healthy candidates only, as many as there is room for. */
  lemma HealthyChosen(cs: seq<Candidate>, p: HealPolicy, now: int, maxAge: int)
    requires Ready(cs) && GoodSizes(p)
    ensures var s, reach := Selection(cs, p, now, maxAge), Reachable(cs, p, now, maxAge);
            |s * HealthyIds(cs, now, maxAge)| == (if |reach| <= p.targetSize then |reach| else p.targetSize)
            && |s| <= p.targetSize && s <= AllIds(cs) && Permitted(s, cs, p, now, maxAge)
            && (s * HealthyIds(cs, now, maxAge) <= reach)
  {
    hide Select, IdsWanted, Healthy, HealthyIds, AllIds, ActiveIds, Ready;
    var t, ha := p.targetSize, IdsWanted(cs, HealthyActive, now, maxAge);
    HealthySplits(cs, now, maxAge);
    var s1 := Select({}, cs, HealthyActive, now, maxAge, t);
    SelectBounds({}, cs, HealthyActive, now, maxAge, t);
    SelectFills({}, cs, HealthyActive, now, maxAge, t);
    SubsetsOfAll(cs, now, maxAge);
    if |s1| < p.minHealthy && PromoteStandby in p.refill {
      Promoted(cs, p, now, maxAge, s1);
    } else {
      ThirdPass(cs, s1, now, maxAge, t);
    }
  }

  lemma Promoted(cs: seq<Candidate>, p: HealPolicy, now: int, maxAge: int, s1: set<int>)
    requires Ready(cs) && GoodSizes(p) && |s1| < p.minHealthy
    requires var ha := IdsWanted(cs, HealthyActive, now, maxAge); s1 <= ha && (|s1| == |ha| || |s1| == p.targetSize)
    ensures var hs := IdsWanted(cs, HealthyStandby, now, maxAge);
            var s3 := Select(Select(s1, cs, HealthyStandby, now, maxAge, p.targetSize), cs, AnyActive, now, maxAge,
                p.targetSize);
            s3 * HealthyIds(cs, now, maxAge) <= s1 + hs && |s3| <= p.targetSize && s3 <= AllIds(cs)
            && |s3 * HealthyIds(cs, now, maxAge)| == (if |s1 + hs| <= p.targetSize then |s1 + hs| else p.targetSize)
            && s1 == IdsWanted(cs, HealthyActive, now, maxAge)
  {
    hide Select, IdsWanted, Healthy, HealthyIds, AllIds, ActiveIds, Ready;
    var t, ha, hs := p.targetSize, IdsWanted(cs, HealthyActive, now, maxAge),
        IdsWanted(cs, HealthyStandby, now, maxAge);
    HealthySplits(cs, now, maxAge);
    Smaller(s1, ha);
    assert s1 == ha;
    SelectBounds(s1, cs, HealthyStandby, now, maxAge, t);
    SelectFills(s1, cs, HealthyStandby, now, maxAge, t);
    assert |ha + hs| == |ha| + |hs|;
    ThirdPass(cs, Select(s1, cs, HealthyStandby, now, maxAge, t), now, maxAge, t);
    SubsetsOfAll(cs, now, maxAge);
  }

  lemma SubsetsOfAll(cs: seq<Candidate>, now: int, maxAge: int)
    ensures IdsWanted(cs, HealthyActive, now, maxAge) <= ActiveIds(cs) <= AllIds(cs)
    ensures IdsWanted(cs, HealthyStandby, now, maxAge) <= AllIds(cs)
  {
  }

  /** The last pass adds active candidates that are not healthy, or nothing. */
  lemma ThirdPass(cs: seq<Candidate>, s2: set<int>, now: int, maxAge: int, t: int)
    requires Ready(cs) && |s2| <= t && s2 <= HealthyIds(cs, now, maxAge)
    requires |s2| == t || IdsWanted(cs, HealthyActive, now, maxAge) <= s2
    ensures var s3 := Select(s2, cs, AnyActive, now, maxAge, t);
            s3 * HealthyIds(cs, now, maxAge) == s2 && |s3| <= t && s2 <= s3 <= s2 + ActiveIds(cs)
            && (|s3| < t ==> ActiveIds(cs) <= s3)
  {
    var s3 := Select(s2, cs, AnyActive, now, maxAge, t);
    HealthySplits(cs, now, maxAge);
    SelectBounds(s2, cs, AnyActive, now, maxAge, t);
    Smaller(s2, s3);
    hide Select, IdsWanted, Healthy, HealthyIds, AllIds, ActiveIds;
  }

  /** Optimality: a plan keeps exactly as many healthy candidates as its limits allow, and no permitted selection keeps
      more. */
  lemma PlanIsOptimal(cs: seq<Candidate>, p: HealPolicy, now: int, maxAge: int, other: set<int>)
    requires Ready(cs) && GoodSizes(p) && Permitted(other, cs, p, now, maxAge)
    ensures Permitted(Selection(cs, p, now, maxAge), cs, p, now, maxAge)
    ensures |other * HealthyIds(cs, now, maxAge)| <= |Selection(cs, p, now, maxAge) * HealthyIds(cs, now, maxAge)|
  {
    HealthyChosen(cs, p, now, maxAge);
    HealthySplits(cs, now, maxAge);
    var h, reach := HealthyIds(cs, now, maxAge), Reachable(cs, p, now, maxAge);
    Smaller(other * h, other);
    assert other * h <= reach;
    Smaller(other * h, reach);
    hide Select, IdsWanted, Healthy, HealthyIds, AllIds, ActiveIds;
  }

  // -------------------------------------------------------------------------------------------
  // The plan
  // -------------------------------------------------------------------------------------------

  predicate StrictlyUp(ids: seq<int>) {
    forall i, j :: 0 <= i < j < |ids| ==> ids[i] < ids[j]
  }

  function SetOf(ids: seq<int>): set<int> {
    set id | id in ids
  }

  // The last candidate brings a new ID.
  lemma LastId(cs: seq<Candidate>, now: int, maxAge: int)
    requires Ready(cs) && cs != []
    ensures var init, c := cs[..|cs| - 1], cs[|cs| - 1];
            Ready(init) && c.nodeId !in AllIds(init) && AllIds(cs) == AllIds(init) + {c.nodeId}
            && c.nodeId !in HealthyIds(init, now, maxAge)
            && HealthyIds(cs, now, maxAge) == HealthyIds(init, now, maxAge)
               + (if Healthy(c, now, maxAge) then {c.nodeId} else {})
            && forall i :: 0 <= i < |init| ==> init[i].nodeId < c.nodeId
  {
  }

  lemma MeetAdds(within: set<int>, ids: set<int>, id: int)
    requires id !in ids
    ensures within * (ids + {id}) == within * ids + if id in within then {id} else {}
    ensures |within * (ids + {id})| == |within * ids| + if id in within then 1 else 0
  {
  }

  lemma AppendId(ids: seq<int>, id: int)
    requires StrictlyUp(ids) && forall x :: x in SetOf(ids) ==> x < id
    ensures StrictlyUp(ids + [id]) && SetOf(ids + [id]) == SetOf(ids) + {id}
  {
    assert forall i :: 0 <= i < |ids| ==> ids[i] in SetOf(ids);
  }

  lemma {:induction false} IdsOfListed(cs: seq<Candidate>, within: set<int>)
    requires Ready(cs)
    ensures StrictlyUp(IdsOf(cs, within)) && SetOf(IdsOf(cs, within)) == within * AllIds(cs)
    ensures |IdsOf(cs, within)| == |within * AllIds(cs)|
  {
    hide AllIds, SetOf, StrictlyUp, Ready, HealthyIds;
    if cs == [] {
      NobodyReady();
      NoIdsYet(within);
    } else {
      var init, c := cs[..|cs| - 1], cs[|cs| - 1];
      LastId(cs, 0, 0);
      IdsOfListed(init, within);
      MeetAdds(within, AllIds(init), c.nodeId);
      BelowAll(init, c.nodeId);
      if c.nodeId in within {
        AppendId(IdsOf(init, within), c.nodeId);
      }
    }
  }

  lemma NoIdsYet(within: set<int>)
    ensures StrictlyUp([]) && SetOf([]) == within * {}
  {
  }

  lemma BelowAll(cs: seq<Candidate>, id: int)
    requires forall i :: 0 <= i < |cs| ==> cs[i].nodeId < id
    ensures forall x :: x in AllIds(cs) ==> x < id
  {
  }

  lemma {:induction false} CountIsCardinality(cs: seq<Candidate>, within: set<int>, now: int, maxAge: int)
    requires Ready(cs)
    ensures CountHealthyIn(cs, within, now, maxAge) == |within * HealthyIds(cs, now, maxAge)|
  {
    if cs == [] {
      assert within * HealthyIds(cs, now, maxAge) == {};
    } else {
      var init, c := cs[..|cs| - 1], cs[|cs| - 1];
      LastId(cs, now, maxAge);
      CountIsCardinality(init, within, now, maxAge);
      MeetAdds(within, HealthyIds(init, now, maxAge), c.nodeId);
      hide AllIds, Ready, HealthyIds, Healthy;
      if !Healthy(c, now, maxAge) {
        assert HealthyIds(cs, now, maxAge) == HealthyIds(init, now, maxAge);
      }
    }
  }

  // The asynchronous actions, in the configured order.
  function RefillActions(refill: seq<Refill>, cs: seq<Candidate>, subscriptions: seq<int>, now: int): seq<HealAction> {
    if refill == [] then []
    else
      var before := RefillActions(refill[..|refill| - 1], cs, subscriptions, now);
      match refill[|refill| - 1]
      case ProbeQuarantined =>
        if DueIds(cs, now) == [] then before else before + [Probe(DueIds(cs, now))]
      case RefreshSubscription =>
        if UniquePositive(subscriptions) == [] then before else before + [Refresh(UniquePositive(subscriptions))]
      case _ => before
  }

  /** The plan for candidates in planning order. */
  function PlanOf(cs: seq<Candidate>, p: HealPolicy, subscriptions: seq<int>, now: int, maxAge: int): HealPlan {
    var selected := Selection(cs, p, now, maxAge);
    var projected := CountHealthyIn(cs, selected, now, maxAge);
    var deficit := if p.minHealthy > projected then p.minHealthy - projected else 0;
    var added, removed := IdsOf(cs, selected - ActiveIds(cs)), IdsOf(cs, ActiveIds(cs) - selected);
    HealPlan(!p.execute, CountWanted(cs, HealthyActive, now, maxAge), projected, deficit,
             IdsOf(cs, selected), IdsOf(cs, AllIds(cs) - selected),
             (if added == [] && removed == [] then [] else [Promote(added, removed)])
             + (if deficit == 0 then []
                else RefillActions(p.refill, cs, subscriptions, now) + [Alert(projected, p.minHealthy)]))
  }

  /** The plan partitions the candidates into desired and standby, both in order, with at most the target desired, and
      its projection is the optimum of PlanIsOptimal. */
  lemma PlanPartitions(cs: seq<Candidate>, p: HealPolicy, subscriptions: seq<int>, now: int, maxAge: int)
    requires Ready(cs) && GoodSizes(p)
    ensures var plan := PlanOf(cs, p, subscriptions, now, maxAge);
            var reach := |Reachable(cs, p, now, maxAge)|;
            StrictlyUp(plan.desired) && StrictlyUp(plan.standby)
            && SetOf(plan.desired) + SetOf(plan.standby) == AllIds(cs) && SetOf(plan.desired) !! SetOf(plan.standby)
            && |plan.desired| <= p.targetSize
            && plan.projected == (if reach <= p.targetSize then reach else p.targetSize)
            && SetOf(plan.desired) == Selection(cs, p, now, maxAge)
  {
    hide Selection, IdsOf, HealthyIds, AllIds, CountHealthyIn, Reachable, Healthy, Permitted, RefillActions,
      StrictlyUp, SetOf, Ready;
    var selected, all := Selection(cs, p, now, maxAge), AllIds(cs);
    HealthyChosen(cs, p, now, maxAge);
    IdsOfListed(cs, selected);
    IdsOfListed(cs, all - selected);
    CountIsCardinality(cs, selected, now, maxAge);
    Splits(selected, all);
  }

  lemma Splits(part: set<int>, all: set<int>)
    requires part <= all
    ensures part * all == part && (all - part) * all == all - part && part + (all - part) == all && part !! (all - part)
  {
  }

  // -------------------------------------------------------------------------------------------
  // Replanning
  // -------------------------------------------------------------------------------------------

  /** The candidates once a selection is in force, with the same evidence. */
  function Reactivate(cs: seq<Candidate>, desired: set<int>): seq<Candidate> {
    if cs == [] then []
    else Reactivate(cs[..|cs| - 1], desired) + [cs[|cs| - 1].(active := cs[|cs| - 1].nodeId in desired)]
  }

  lemma {:induction false} ReactivateAt(cs: seq<Candidate>, desired: set<int>)
    ensures |Reactivate(cs, desired)| == |cs|
    ensures forall i :: 0 <= i < |cs| ==> Reactivate(cs, desired)[i] == cs[i].(active := cs[i].nodeId in desired)
  {
    if cs != [] {
      ReactivateAt(cs[..|cs| - 1], desired);
    }
  }

  lemma ReactivatedIds(cs: seq<Candidate>, desired: set<int>, now: int, maxAge: int)
    requires Ready(cs)
    ensures var r := Reactivate(cs, desired);
            Ready(r) && AllIds(r) == AllIds(cs) && HealthyIds(r, now, maxAge) == HealthyIds(cs, now, maxAge)
            && ActiveIds(r) == desired * AllIds(cs)
  {
    var r := Reactivate(cs, desired);
    ReactivateAt(cs, desired);
    hide Reactivate, Healthy;
    ReactivatedHave(cs, r, desired, now, maxAge);
    ReactivatedCome(cs, r, desired, now, maxAge);
  }

  // Every candidate is still there, changed only in being active.
  lemma ReactivatedHave(cs: seq<Candidate>, r: seq<Candidate>, desired: set<int>, now: int, maxAge: int)
    requires |r| == |cs| && forall i :: 0 <= i < |cs| ==> r[i] == cs[i].(active := cs[i].nodeId in desired)
    ensures AllIds(cs) <= AllIds(r) && HealthyIds(cs, now, maxAge) <= HealthyIds(r, now, maxAge)
    ensures desired * AllIds(cs) <= ActiveIds(r)
  {
  }

  // And nobody else is.
  lemma ReactivatedCome(cs: seq<Candidate>, r: seq<Candidate>, desired: set<int>, now: int, maxAge: int)
    requires |r| == |cs| && forall i :: 0 <= i < |cs| ==> r[i] == cs[i].(active := cs[i].nodeId in desired)
    ensures AllIds(r) <= AllIds(cs) && HealthyIds(r, now, maxAge) <= HealthyIds(cs, now, maxAge)
    ensures ActiveIds(r) <= desired * AllIds(cs)
    ensures Ready(cs) ==> Ready(r)
  {
  }

  /** Replanning with a selection in force selects it again. */
  lemma SelectionIsFixed(cs: seq<Candidate>, p: HealPolicy, now: int, maxAge: int)
    requires Ready(cs) && GoodSizes(p)
    ensures var s := Selection(cs, p, now, maxAge);
            Selection(Reactivate(cs, s), p, now, maxAge) == s && ActiveIds(Reactivate(cs, s)) == s
  {
    hide Select, IdsWanted, Healthy, HealthyIds, AllIds, ActiveIds, Ready, Selection, Reactivate;
    var s := Selection(cs, p, now, maxAge);
    var r := Reactivate(cs, s);
    HealthyChosen(cs, p, now, maxAge);
    ReactivatedIds(cs, s, now, maxAge);
    assert s * AllIds(cs) == s;
    StablePlan(cs, p, now, maxAge);
    HealthySplits(r, now, maxAge);
    FixedPasses(r, p, now, maxAge, s);
  }

  /** After a plan, health is short only where promotion is not allowed or found nobody left. */
  lemma StablePlan(cs: seq<Candidate>, p: HealPolicy, now: int, maxAge: int)
    requires Ready(cs) && GoodSizes(p)
    ensures var s, h := Selection(cs, p, now, maxAge), HealthyIds(cs, now, maxAge);
            |s * h| >= p.minHealthy || PromoteStandby !in p.refill || h <= s
  {
    hide Select, IdsWanted, Healthy, HealthyIds, AllIds, ActiveIds, Ready, Selection;
    var s, h := Selection(cs, p, now, maxAge), HealthyIds(cs, now, maxAge);
    HealthyChosen(cs, p, now, maxAge);
    HealthySplits(cs, now, maxAge);
    if |s * h| < p.minHealthy && PromoteStandby in p.refill {
      assert |Reachable(cs, p, now, maxAge)| == |s * h|;
      Smaller(s * h, Reachable(cs, p, now, maxAge));
      assert Reachable(cs, p, now, maxAge) == h;
    }
  }

  lemma FixedPasses(r: seq<Candidate>, p: HealPolicy, now: int, maxAge: int, s: set<int>)
    requires Ready(r) && GoodSizes(p) && |s| <= p.targetSize && ActiveIds(r) == s
    requires var h := HealthyIds(r, now, maxAge); |s * h| >= p.minHealthy || PromoteStandby !in p.refill || h <= s
    ensures Selection(r, p, now, maxAge) == s
  {
    hide Select, IdsWanted, Healthy, HealthyIds, AllIds, ActiveIds, Ready;
    var t, h := p.targetSize, HealthyIds(r, now, maxAge);
    HealthySplits(r, now, maxAge);
    assert IdsWanted(r, HealthyActive, now, maxAge) == s * h;
    var s1 := Select({}, r, HealthyActive, now, maxAge, t);
    SelectBounds({}, r, HealthyActive, now, maxAge, t);
    SelectFills({}, r, HealthyActive, now, maxAge, t);
    Smaller(s * h, s);
    Smaller(s1, s * h);
    assert s1 == s * h;
    if |s1| < p.minHealthy && PromoteStandby in p.refill {
      assert IdsWanted(r, HealthyStandby, now, maxAge) == {};
      SelectBounds(s1, r, HealthyStandby, now, maxAge, t);
      assert Select(s1, r, HealthyStandby, now, maxAge, t) == s1;
    }
    var s3 := Select(s1, r, AnyActive, now, maxAge, t);
    SelectBounds(s1, r, AnyActive, now, maxAge, t);
    assert s3 <= s;
    Smaller(s3, s);
  }

  /** Fixed point: replanning with the plan in force and the same evidence desires the same nodes, in the same order,
      and promotes nobody. */
  lemma PlanIsFixed(cs: seq<Candidate>, p: HealPolicy, subscriptions: seq<int>, now: int, maxAge: int)
    requires Ready(cs) && GoodSizes(p)
    ensures var plan := PlanOf(cs, p, subscriptions, now, maxAge);
            var again := PlanOf(Reactivate(cs, SetOf(plan.desired)), p, subscriptions, now, maxAge);
            again.desired == plan.desired && again.standby == plan.standby && again.projected == plan.projected
            && forall i :: 0 <= i < |again.actions| ==> !again.actions[i].Promote?
  {
    hide Selection, IdsOf, HealthyIds, AllIds, ActiveIds, CountHealthyIn, Healthy, RefillActions, Reactivate, Ready,
      StrictlyUp, SetOf;
    var s := Selection(cs, p, now, maxAge);
    var r := Reactivate(cs, s);
    PlanPartitions(cs, p, subscriptions, now, maxAge);
    SelectionIsFixed(cs, p, now, maxAge);
    SameIds(cs, s, s);
    SameIds(cs, s, AllIds(cs) - s);
    ReactivatedIds(cs, s, now, maxAge);
    CountIsCardinality(cs, s, now, maxAge);
    CountIsCardinality(r, s, now, maxAge);
    NoIds(r, s - s);
    NoPromotion(p.refill, r, subscriptions, now);
  }

  lemma {:induction false} SameIds(cs: seq<Candidate>, desired: set<int>, within: set<int>)
    ensures IdsOf(Reactivate(cs, desired), within) == IdsOf(cs, within)
  {
    if cs != [] {
      SameIds(cs[..|cs| - 1], desired, within);
    }
  }

  lemma {:induction false} NoIds(cs: seq<Candidate>, none: set<int>)
    requires none == {}
    ensures IdsOf(cs, none) == []
  {
    if cs != [] {
      NoIds(cs[..|cs| - 1], none);
    }
  }

  lemma {:induction false} NoPromotion(refill: seq<Refill>, cs: seq<Candidate>, subscriptions: seq<int>, now: int)
    ensures forall i :: 0 <= i < |RefillActions(refill, cs, subscriptions, now)| ==>
              !RefillActions(refill, cs, subscriptions, now)[i].Promote?
  {
    if refill != [] {
      NoPromotion(refill[..|refill| - 1], cs, subscriptions, now);
    }
  }

  /** A pool that is healthy enough and within its target is left alone. */
  lemma SufficientPoolStays(cs: seq<Candidate>, p: HealPolicy, now: int, maxAge: int)
    requires Ready(cs) && GoodSizes(p) && |ActiveIds(cs)| <= p.targetSize
    requires |IdsWanted(cs, HealthyActive, now, maxAge)| >= p.minHealthy
    ensures Selection(cs, p, now, maxAge) == ActiveIds(cs)
  {
    HealthySplits(cs, now, maxAge);
    assert ActiveIds(cs) * HealthyIds(cs, now, maxAge) == IdsWanted(cs, HealthyActive, now, maxAge);
    FixedPasses(cs, p, now, maxAge, ActiveIds(cs));
  }

  // -------------------------------------------------------------------------------------------
  // Order of the candidates
  // -------------------------------------------------------------------------------------------

  /** The order in which candidates are given does not matter. */
  lemma OrderDoesNotMatter(a: seq<Candidate>, b: seq<Candidate>)
    requires multiset(a) == multiset(b) && Ready(SortById(a))
    ensures SortById(a) == SortById(b)
  {
    SortByIdKeeps(a);
    SortByIdKeeps(b);
    SameSorted(SortById(a), SortById(b));
  }

  lemma {:induction false} ReactivateInsert(cs: seq<Candidate>, c: Candidate, desired: set<int>)
    ensures Reactivate(Insert(cs, c), desired) == Insert(Reactivate(cs, desired), c.(active := c.nodeId in desired))
  {
    ReactivateAt(cs, desired);
    if cs == [] || cs[|cs| - 1].nodeId <= c.nodeId {
      assert (cs + [c])[..|cs|] == cs;
    } else {
      var init, last := cs[..|cs| - 1], cs[|cs| - 1];
      ReactivateInsert(init, c, desired);
      assert (Insert(init, c) + [last])[..|Insert(init, c)|] == Insert(init, c);
      var r := Reactivate(cs, desired);
      assert r[..|r| - 1] == Reactivate(init, desired);
    }
  }

  /** Putting a selection into force before or after sorting is the same. */
  lemma {:induction false} ReactivateSorted(cs: seq<Candidate>, desired: set<int>)
    ensures SortById(Reactivate(cs, desired)) == Reactivate(SortById(cs), desired)
  {
    if cs != [] {
      var init := cs[..|cs| - 1];
      ReactivateSorted(init, desired);
      ReactivateInsert(SortById(init), cs[|cs| - 1], desired);
      var r := Reactivate(cs, desired);
      assert r[..|r| - 1] == Reactivate(init, desired);
    }
  }

  // -------------------------------------------------------------------------------------------
  // Traffic slots
  // -------------------------------------------------------------------------------------------

  function InsertId(ids: seq<int>, id: int): seq<int> {
    if ids == [] || ids[|ids| - 1] < id then ids + [id]
    else if ids[|ids| - 1] == id then ids
    else InsertId(ids[..|ids| - 1], id) + [ids[|ids| - 1]]
  }

  /** uniquePositiveIDs: the positive IDs in increasing order, each once. */
  function UniquePositive(ids: seq<int>): seq<int> {
    if ids == [] then []
    else
      var before := UniquePositive(ids[..|ids| - 1]);
      if ids[|ids| - 1] > 0 then InsertId(before, ids[|ids| - 1]) else before
  }

  lemma {:induction false} InsertIdKeeps(ids: seq<int>, id: int)
    requires StrictlyUp(ids)
    ensures StrictlyUp(InsertId(ids, id)) && SetOf(InsertId(ids, id)) == SetOf(ids) + {id}
  {
    if ids != [] && ids[|ids| - 1] > id {
      var init, last := ids[..|ids| - 1], ids[|ids| - 1];
      LastOfUp(ids);
      hide SetOf, StrictlyUp;
      InsertIdKeeps(init, id);
      AppendId(InsertId(init, id), last);
    } else if ids == [] || ids[|ids| - 1] < id {
      UpBelow(ids, id);
      AppendId(ids, id);
    } else {
      assert id in SetOf(ids);
    }
  }

  lemma LastOfUp(ids: seq<int>)
    requires StrictlyUp(ids) && ids != []
    ensures var init, last := ids[..|ids| - 1], ids[|ids| - 1];
            StrictlyUp(init) && SetOf(ids) == SetOf(init) + {last} && forall x :: x in SetOf(init) ==> x < last
  {
  }

  lemma UpBelow(ids: seq<int>, id: int)
    requires StrictlyUp(ids) && (ids == [] || ids[|ids| - 1] < id)
    ensures forall x :: x in SetOf(ids) ==> x < id
  {
  }

  lemma {:induction false} UniquePositiveSorts(ids: seq<int>)
    ensures StrictlyUp(UniquePositive(ids))
    ensures forall id :: id in UniquePositive(ids) <==> id in ids && id > 0
  {
    if ids != [] {
      var init, last := ids[..|ids| - 1], ids[|ids| - 1];
      UniquePositiveSorts(init);
      assert ids == init + [last];
      InsertIdKeeps(UniquePositive(init), last);
      assert forall id :: id in InsertId(UniquePositive(init), last) <==>
             id in SetOf(InsertId(UniquePositive(init), last));
    }
  }

  // The first IDs of a list that are allowed, up to the target.
  function KeepAllowed(ids: seq<int>, allowed: set<int>, target: int): seq<int> {
    if ids == [] then []
    else
      var before := KeepAllowed(ids[..|ids| - 1], allowed, target);
      if ids[|ids| - 1] in allowed && |before| < target then before + [ids[|ids| - 1]] else before
  }

  /** CapacitySelection; a nil previous selection is None. */
  function Slots(candidates: seq<int>, previous: Option<seq<int>>, target: int): seq<int> {
    var ids := UniquePositive(candidates);
    if target <= 0 then ids
    else if previous.None? then (if |ids| <= target then ids else ids[..target])
    else KeepAllowed(UniquePositive(previous.value), SetOf(ids), target)
  }

  lemma {:induction false} KeepAllowedBounds(ids: seq<int>, allowed: set<int>, target: int)
    requires StrictlyUp(ids) && target >= 0
    ensures var r := KeepAllowed(ids, allowed, target);
            StrictlyUp(r) && |r| <= target && |r| <= |ids| && (forall id :: id in r ==> id in ids && id in allowed)
            && (|r| < target ==> forall id :: id in ids && id in allowed ==> id in r)
  {
    if ids != [] {
      var before := KeepAllowed(ids[..|ids| - 1], allowed, target);
      KeepAllowedBounds(ids[..|ids| - 1], allowed, target);
      assert ids == ids[..|ids| - 1] + [ids[|ids| - 1]];
      assert forall i :: 0 <= i < |before| ==> before[i] in before;
    }
  }

  lemma {:induction false} KeepAll(ids: seq<int>, allowed: set<int>, target: int)
    requires |ids| <= target && forall id :: id in ids ==> id in allowed
    ensures KeepAllowed(ids, allowed, target) == ids
  {
    if ids != [] {
      var init, last := ids[..|ids| - 1], ids[|ids| - 1];
      assert ids == init + [last];
      assert last in ids && forall id :: id in init ==> id in ids;
      KeepAll(init, allowed, target);
      assert KeepAllowed(ids, allowed, target) == init + [last];
    }
  }

  lemma {:induction false} UniquePositiveOfSorted(ids: seq<int>)
    requires StrictlyUp(ids) && forall i :: 0 <= i < |ids| ==> ids[i] > 0
    ensures UniquePositive(ids) == ids
  {
    if ids != [] {
      UniquePositiveOfSorted(ids[..|ids| - 1]);
    }
  }

  /** Slots never admit a node that was not selected before, and leave none unused that still qualifies. */
  lemma SlotsNeverAdmit(candidates: seq<int>, previous: seq<int>, target: int)
    requires target > 0
    ensures var r := Slots(candidates, Some(previous), target);
            StrictlyUp(r) && |r| <= target
            && (forall id :: id in r ==> id in previous && id in candidates)
            && (|r| < target ==> forall id :: id in previous && id in candidates && id > 0 ==> id in r)
  {
    UniquePositiveSorts(candidates);
    UniquePositiveSorts(previous);
    KeepAllowedBounds(UniquePositive(previous), SetOf(UniquePositive(candidates)), target);
  }

  /** When the target cuts a selection short, the lowest IDs keep their slots. */
  lemma LowestSlotsStay(candidates: seq<int>, previous: seq<int>, target: int, id: int)
    requires target > 0 && id in previous && id in candidates && id > 0
    ensures var r := Slots(candidates, Some(previous), target);
            id !in r ==> |r| == target && forall x :: x in r ==> x < id
  {
    UniquePositiveSorts(candidates);
    UniquePositiveSorts(previous);
    KeepsLowest(UniquePositive(previous), SetOf(UniquePositive(candidates)), target, id);
  }

  lemma {:induction false} KeepsLowest(ids: seq<int>, allowed: set<int>, target: int, id: int)
    requires StrictlyUp(ids) && id in ids && id in allowed && target > 0
    ensures var r := KeepAllowed(ids, allowed, target);
            id !in r ==> |r| == target && forall x :: x in r ==> x < id
  {
    var init, last := ids[..|ids| - 1], ids[|ids| - 1];
    assert ids == init + [last];
    KeepAllowedBounds(init, allowed, target);
    if id in init {
      KeepsLowest(init, allowed, target, id);
      var i :| 0 <= i < |init| && init[i] == id;
      assert id < last;
    } else {
      assert forall x :: x in init ==> x < last;
    }
  }

  /** Without a target every candidate carries traffic, whatever was selected before; a first selection takes the lowest
      IDs. */
  lemma SlotsWithoutChoice(candidates: seq<int>, previous: Option<seq<int>>, target: int, id: int)
    ensures target <= 0 ==>
              StrictlyUp(Slots(candidates, previous, target))
              && (id in Slots(candidates, previous, target) <==> id in candidates && id > 0)
    ensures target > 0 && previous.None? ==>
              var r := Slots(candidates, None, target);
              StrictlyUp(r) && |r| <= target && (id in r ==> id in candidates && id > 0)
              && (id in candidates && id > 0 && id !in r ==> |r| == target && forall x :: x in r ==> x < id)
  {
    UniquePositiveSorts(candidates);
    var ids := UniquePositive(candidates);
    if target > 0 && previous.None? {
      var r := Slots(candidates, None, target);
      assert forall i :: 0 <= i < |r| ==> r[i] == ids[i];
      if id in ids && id !in r {
        var i :| 0 <= i < |ids| && ids[i] == id;
        assert i >= |r|;
      }
    }
  }

  /** Selecting again from a selection changes nothing. */
  lemma SlotsIdempotent(candidates: seq<int>, previous: Option<seq<int>>, target: int)
    requires target > 0
    ensures var r := Slots(candidates, previous, target);
            Slots(candidates, Some(r), target) == r
  {
    var ids, r := UniquePositive(candidates), Slots(candidates, previous, target);
    UniquePositiveSorts(candidates);
    if previous.Some? {
      UniquePositiveSorts(previous.value);
      KeepAllowedBounds(UniquePositive(previous.value), SetOf(ids), target);
    }
    assert forall i :: 0 <= i < |r| ==> r[i] in r;
    assert forall id :: id in r ==> id in ids;
    UniquePositiveOfSorted(r);
    KeepAll(r, SetOf(ids), target);
  }

  /** A healing selection survives normal reconciliation unchanged, an empty one included. */
  lemma SlotsKeepHealing(cs: seq<Candidate>, p: HealPolicy, subscriptions: seq<int>, now: int, maxAge: int,
                         candidates: seq<int>)
    requires Ready(cs) && GoodSizes(p) && p.targetSize > 0 && SetOf(candidates) == AllIds(cs)
    ensures var desired := PlanOf(cs, p, subscriptions, now, maxAge).desired;
            Slots(candidates, Some(desired), p.targetSize) == desired
  {
    hide PlanOf, Selection, Reachable, KeepAllowed, UniquePositive, Healthy, IdsWanted;
    var desired := PlanOf(cs, p, subscriptions, now, maxAge).desired;
    PlanPartitions(cs, p, subscriptions, now, maxAge);
    UniquePositiveSorts(candidates);
    assert forall id :: id in desired ==> id in SetOf(desired);
    forall id | id in desired ensures id > 0 && id in UniquePositive(candidates) {
      assert id in AllIds(cs) && id in SetOf(candidates);
    }
    assert forall i :: 0 <= i < |desired| ==> desired[i] in desired;
    UniquePositiveOfSorted(desired);
    KeepAll(desired, SetOf(UniquePositive(candidates)), p.targetSize);
  }

  /** An empty selection and none at all differ: were an empty one passed on as none, it would select afresh, so a
      selection survives that exactly when it is not empty or there is nothing to select. The caller copies a plan's
      selection into a list of its own, so the case does not arise (`SlotsKeepHealing`,
      `CapacitySlots.HealingStays`). */
  lemma NilSelectionStartsAfreshIff(desired: seq<int>, candidates: seq<int>, target: int)
    requires target > 0 && StrictlyUp(desired) && |desired| <= target
    requires forall id :: id in desired ==> id in candidates && id > 0
    ensures Slots(candidates, if desired == [] then None else Some(desired), target) == desired
       <==> desired != [] || forall id :: id in candidates ==> id <= 0
  {
    UniquePositiveSorts(candidates);
    assert forall i :: 0 <= i < |desired| ==> desired[i] in desired;
    if desired == [] {
      var ids := UniquePositive(candidates);
      assert ids != [] ==> ids[0] in ids;
      assert forall id :: id in candidates && id > 0 ==> id in ids;
    } else {
      UniquePositiveOfSorted(desired);
      KeepAll(desired, SetOf(UniquePositive(candidates)), target);
    }
  }

  // -------------------------------------------------------------------------------------------
  // The planner's loops
  // -------------------------------------------------------------------------------------------

  predicate GoodPolicy(p: HealPolicy) {
    GoodSizes(p) && GoodRefill(p.refill)
  }

  const EMPTY_PLAN := HealPlan(true, 0, 0, 0, [], [], [])

  lemma PrefixStep<T>(xs: seq<T>, i: nat)
    requires i < |xs|
    ensures xs[..i + 1][..i] == xs[..i] && xs[..i + 1][i] == xs[i] && xs[..|xs|] == xs
  {
  }

  // One of the planner's selecting loops.
  method RunPass(selected: set<int>, cs: seq<Candidate>, pass: Pass, now: int, maxAge: int, target: int)
      returns (result: set<int>, count: nat)
    ensures result == Select(selected, cs, pass, now, maxAge, target)
    ensures count == CountWanted(cs, pass, now, maxAge)
  {
    result, count := selected, 0;
    for i := 0 to |cs|
      invariant result == Select(selected, cs[..i], pass, now, maxAge, target)
      invariant count == CountWanted(cs[..i], pass, now, maxAge)
    {
      PrefixStep(cs, i);
      if Wanted(pass, cs[i], now, maxAge) {
        count := count + 1;
        if |result| < target {
          result := result + {cs[i].nodeId};
        }
      }
    }
    assert cs[..|cs|] == cs;
  }

  // The loop that sorts candidates into desired and standby and counts.
  method Distribute(cs: seq<Candidate>, selected: set<int>, now: int, maxAge: int)
      returns (desired: seq<int>, standby: seq<int>, added: seq<int>, removed: seq<int>, projected: nat)
    requires Ready(cs)
    ensures desired == IdsOf(cs, selected) && standby == IdsOf(cs, AllIds(cs) - selected)
    ensures added == IdsOf(cs, selected - ActiveIds(cs)) && removed == IdsOf(cs, ActiveIds(cs) - selected)
    ensures projected == CountHealthyIn(cs, selected, now, maxAge)
  {
    desired, standby, added, removed, projected := [], [], [], [], 0;
    for i := 0 to |cs|
      invariant desired == IdsOf(cs[..i], selected) && standby == IdsOf(cs[..i], AllIds(cs) - selected)
      invariant added == IdsOf(cs[..i], selected - ActiveIds(cs)) && removed == IdsOf(cs[..i], ActiveIds(cs) - selected)
      invariant projected == CountHealthyIn(cs[..i], selected, now, maxAge)
    {
      var n := cs[i];
      PrefixStep(cs, i);
      ActiveById(cs, i);
      if n.nodeId in selected {
        desired := desired + [n.nodeId];
        if Healthy(n, now, maxAge) {
          projected := projected + 1;
        }
        if !n.active {
          added := added + [n.nodeId];
        }
      } else {
        standby := standby + [n.nodeId];
        if n.active {
          removed := removed + [n.nodeId];
        }
      }
    }
    assert cs[..|cs|] == cs;
  }

  lemma ActiveById(cs: seq<Candidate>, i: nat)
    requires Ready(cs) && i < |cs|
    ensures cs[i].nodeId in AllIds(cs) && (cs[i].nodeId in ActiveIds(cs) <==> cs[i].active)
  {
  }

  // The follow-up actions of a plan that stays short.
  method Refills(refill: seq<Refill>, cs: seq<Candidate>, subscriptions: seq<int>, now: int)
                 returns (actions: seq<HealAction>)
    ensures actions == RefillActions(refill, cs, subscriptions, now)
  {
    actions := [];
    for i := 0 to |refill|
      invariant actions == RefillActions(refill[..i], cs, subscriptions, now)
    {
      PrefixStep(refill, i);
      match refill[i] {
        case ProbeQuarantined =>
          var ids := [];
          for j := 0 to |cs|
            invariant ids == DueIds(cs[..j], now)
          {
            PrefixStep(cs, j);
            if Due(cs[j], now) {
              ids := ids + [cs[j].nodeId];
            }
          }
          assert cs[..|cs|] == cs;
          if ids != [] {
            actions := actions + [Probe(ids)];
          }
        case RefreshSubscription =>
          var ids := UniquePositive(subscriptions);
          if ids != [] {
            actions := actions + [Refresh(ids)];
          }
        case _ =>
      }
    }
    assert refill[..|refill|] == refill;
  }

  /** PlanHealing: the first applicable refusal, or the plan for the candidates in ID order. */
  method PlanHealing(input: HealInput) returns (planned: Planned)
    ensures planned.BadPolicy? <==> !GoodPolicy(input.policy)
    ensures planned.NoClock? <==>
            GoodPolicy(input.policy) && input.policy.targetSize != 0 && (input.now.None? || input.maxAge <= 0)
    ensures planned.BadCandidate? <==>
            GoodPolicy(input.policy) && input.policy.targetSize != 0 && input.now.Some? && input.maxAge > 0
            && !Ready(SortById(input.candidates))
    ensures planned.Plan? ==>
            planned.plan == if input.policy.targetSize == 0 then EMPTY_PLAN.(dryRun := !input.policy.execute)
                            else PlanOf(SortById(input.candidates), input.policy, input.subscriptions, input.now.value,
                                input.maxAge)
  {
    hide SortById, Select, IdsOf, CountHealthyIn, Healthy, Wanted, RefillActions;
    var p := input.policy;
    var error := Validate(p);
    if error.Some? {
      return BadPolicy(error.value);
    }
    if p.targetSize == 0 {
      return Plan(EMPTY_PLAN.(dryRun := !p.execute));
    }
    if input.now.None? || input.maxAge <= 0 {
      return NoClock;
    }
    var now, maxAge := input.now.value, input.maxAge;
    var cs := SortById(input.candidates);
    SortByIdKeeps(input.candidates);
    var bad := FirstBad(cs);
    if bad.Some? {
      return BadCandidate(bad.value);
    }
    var selected, healthy := RunPass({}, cs, HealthyActive, now, maxAge, p.targetSize);
    var ignored := 0;
    if |selected| < p.minHealthy && PromoteStandby in p.refill {
      selected, ignored := RunPass(selected, cs, HealthyStandby, now, maxAge, p.targetSize);
    }
    selected, ignored := RunPass(selected, cs, AnyActive, now, maxAge, p.targetSize);
    var desired, standby, added, removed, projected := Distribute(cs, selected, now, maxAge);
    var deficit := if p.minHealthy > projected then p.minHealthy - projected else 0;
    var actions := if added == [] && removed == [] then [] else [Promote(added, removed)];
    if deficit > 0 {
      var refills := Refills(p.refill, cs, input.subscriptions, now);
      actions := actions + (refills + [Alert(projected, p.minHealthy)]);
    }
    planned := Plan(HealPlan(!p.execute, healthy, projected, deficit, desired, standby, actions));
  }

  // The loop that refuses a candidate without a positive ID or with an ID seen before.
  method FirstBad(cs: seq<Candidate>) returns (bad: Option<int>)
    requires Ascending(cs)
    ensures bad.None? <==> Ready(cs)
  {
    hide Ready, Ascending, AllIds;
    var seen: set<int> := {};
    assert Ready([]) && AllIds([]) == {} by { NobodyReady(); }
    assert cs[..0] == [];
    for i := 0 to |cs|
      invariant Ready(cs[..i])
      invariant seen == AllIds(cs[..i])
    {
      var id := cs[i].nodeId;
      OneMoreReady(cs, i);
      if id <= 0 || id in seen {
        return Some(id);
      }
      seen := seen + {id};
    }
    assert cs[..|cs|] == cs;
    return None;
  }

  lemma NobodyReady()
    ensures Ready([]) && AllIds([]) == {}
  {
  }

  lemma OneMoreReady(cs: seq<Candidate>, i: nat)
    requires Ascending(cs) && i < |cs| && Ready(cs[..i])
    ensures AllIds(cs[..i + 1]) == AllIds(cs[..i]) + {cs[i].nodeId}
    ensures Ready(cs[..i + 1]) || !Ready(cs)
    ensures Ready(cs[..i + 1]) <==> cs[i].nodeId > 0 && cs[i].nodeId !in AllIds(cs[..i])
  {
    assert cs[..i + 1] == cs[..i] + [cs[i]];
    AppendReady(cs[..i], cs[i]);
    hide AllIds;
  }

  lemma AppendReady(cs: seq<Candidate>, c: Candidate)
    requires Ready(cs) && forall j :: 0 <= j < |cs| ==> cs[j].nodeId <= c.nodeId
    ensures AllIds(cs + [c]) == AllIds(cs) + {c.nodeId}
    ensures Ready(cs + [c]) <==> c.nodeId > 0 && c.nodeId !in AllIds(cs)
  {
    var more := cs + [c];
    assert more[|cs|] == c && forall j :: 0 <= j < |cs| ==> more[j] == cs[j] && cs[j] in cs;
    if c.nodeId in AllIds(cs) {
      var j :| 0 <= j < |cs| && cs[j].nodeId == c.nodeId;
      assert more[j].nodeId == more[|cs|].nodeId;
    }
  }

  predicate DistinctIds(cs: seq<Candidate>) {
    forall i, j :: 0 <= i < j < |cs| ==> cs[i].nodeId != cs[j].nodeId
  }

  lemma AppendDistinct(cs: seq<Candidate>, c: Candidate)
    ensures DistinctIds(cs + [c]) <==> DistinctIds(cs) && c.nodeId !in AllIds(cs)
    ensures AllIds(cs + [c]) == AllIds(cs) + {c.nodeId}
  {
    var more := cs + [c];
    assert forall i :: 0 <= i < |cs| ==> more[i] == cs[i] && cs[i] in cs;
    assert more[|cs|] == c;
    if c.nodeId in AllIds(cs) {
      var i :| 0 <= i < |cs| && cs[i].nodeId == c.nodeId;
      assert more[i].nodeId == more[|cs|].nodeId;
    }
  }

  lemma {:induction false} InsertDistinct(cs: seq<Candidate>, c: Candidate)
    ensures DistinctIds(Insert(cs, c)) <==> DistinctIds(cs) && c.nodeId !in AllIds(cs)
    ensures AllIds(Insert(cs, c)) == AllIds(cs) + {c.nodeId}
  {
    hide DistinctIds, AllIds;
    if cs == [] || cs[|cs| - 1].nodeId <= c.nodeId {
      AppendDistinct(cs, c);
    } else {
      var init, last := cs[..|cs| - 1], cs[|cs| - 1];
      InsertDistinct(init, c);
      AppendDistinct(Insert(init, c), last);
      AppendDistinct(init, last);
      assert cs == init + [last];
    }
  }

  lemma {:induction false} SortDistinct(cs: seq<Candidate>)
    ensures DistinctIds(SortById(cs)) <==> DistinctIds(cs)
    ensures AllIds(SortById(cs)) == AllIds(cs)
  {
    if cs != [] {
      var init, last := cs[..|cs| - 1], cs[|cs| - 1];
      SortDistinct(init);
      InsertDistinct(SortById(init), last);
      AppendDistinct(init, last);
      assert cs == init + [last];
      hide DistinctIds, AllIds;
    }
  }

  /** The candidates are refused exactly when an ID is not positive or occurs twice, in whatever order they come. */
  lemma ReadyIff(cs: seq<Candidate>)
    ensures Ready(SortById(cs)) <==> DistinctIds(cs) && forall id :: id in AllIds(cs) ==> id > 0
  {
    var sorted := SortById(cs);
    SortByIdKeeps(cs);
    SortDistinct(cs);
    assert forall i :: 0 <= i < |sorted| ==> sorted[i] in sorted;
    assert forall i :: 0 <= i < |sorted| ==> sorted[i].nodeId in AllIds(sorted);
  }

  /** CapacitySelection, with its loops. */
  method CapacitySelection(candidates: seq<int>, previous: Option<seq<int>>, target: int) returns (selected: seq<int>)
    ensures selected == Slots(candidates, previous, target)
  {
    var ids := UniquePositive(candidates);
    if target <= 0 {
      return ids;
    }
    if previous.None? {
      return if |ids| <= target then ids else ids[..target];
    }
    var allowed: set<int> := {};
    for i := 0 to |ids|
      invariant allowed == SetOf(ids[..i])
    {
      assert ids[..i + 1] == ids[..i] + [ids[i]];
      allowed := allowed + {ids[i]};
    }
    assert ids[..|ids|] == ids;
    selected := [];
    var wanted := UniquePositive(previous.value);
    for i := 0 to |wanted|
      invariant selected == KeepAllowed(wanted[..i], allowed, target)
    {
      PrefixStep(wanted, i);
      if wanted[i] in allowed && |selected| < target {
        selected := selected + [wanted[i]];
      }
    }
    assert wanted[..|wanted|] == wanted;
  }
}
