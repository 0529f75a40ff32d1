/** The traffic slots of a pool from update to update.  The pool keeps its selection in its options: a normal update
    brings none and carries the old one over, a healing update brings one, and switching execution on starts afresh. */
module CapacitySlots {
  import opened Basics
  import opened HealPlanner

  // The capacity options of a pool; no selection was made yet when `active` is None.
  datatype Capacity = Capacity(target: int, active: Option<seq<int>>)

  // `selection` is what a healing brings; an update that copies it never turns an empty one into none.
  datatype Update = Update(target: int, selection: Option<seq<int>>, candidates: seq<int>)

  /** PrepareUpdate and Commit on the selection. */
  function Commit(c: Capacity, u: Update): Capacity {
    var previous := if u.selection.None? && u.target > 0 && c.target > 0 then c.active else u.selection;
    Capacity(u.target, Some(Slots(u.candidates, previous, u.target)))
  }

  function After(c: Capacity, us: seq<Update>): Capacity {
    if us == [] then c else Commit(After(c, us[..|us| - 1]), us[|us| - 1])
  }

  function Active(c: Capacity): set<int> {
    if c.active.Some? then SetOf(c.active.value) else {}
  }

  // An update in the middle of operation: execution stays on and nothing is healed.
  predicate Normal(u: Update) {
    u.target > 0 && u.selection.None?
  }

  predicate Executing(c: Capacity) {
    c.target > 0 && c.active.Some?
  }

  /** Without a selection to carry over, because execution was off or is now, or because none was ever made, an update
      selects afresh: everybody without a target, else the lowest IDs. */
  lemma SelectsAfresh(c: Capacity, u: Update, id: int)
    requires u.selection.None? && (u.target <= 0 || c.target <= 0 || c.active.None?)
    ensures Commit(c, u).target == u.target && Commit(c, u).active.Some?
    ensures var r := Commit(c, u).active.value;
            && StrictlyUp(r)
            && (u.target <= 0 ==> (id in r <==> id in u.candidates && id > 0))
            && (u.target > 0 ==>
                  && |r| <= u.target && (id in r ==> id in u.candidates && id > 0)
                  && (id in u.candidates && id > 0 && id !in r ==> |r| == u.target && forall x :: x in r ==> x < id))
  {
    SlotsWithoutChoice(u.candidates, None, u.target, id);
    hide Slots;
  }

  lemma NormalStep(c: Capacity, u: Update)
    requires Executing(c) && Normal(u)
    ensures Executing(Commit(c, u)) && Active(Commit(c, u)) <= Active(c)
    ensures forall id :: id in Active(Commit(c, u)) ==> id in u.candidates
    ensures StrictlyUp(Commit(c, u).active.value)
  {
    hide Slots;
    SlotsNeverAdmit(u.candidates, c.active.value, u.target);
    var kept := Slots(u.candidates, c.active, u.target);
    assert Commit(c, u) == Capacity(u.target, Some(kept)) && c.active == Some(c.active.value);
    assert forall id :: id in SetOf(kept) ==> id in kept;
    assert forall id :: id in c.active.value ==> id in SetOf(c.active.value);
  }

  /** Over any run of normal updates the active set never gains a node, and a slot lost on the way stays lost. */
  lemma {:induction false} NormalRunsOnlyLose(c: Capacity, us: seq<Update>, i: nat)
    requires Executing(c) && i <= |us| && forall u :: u in us ==> Normal(u)
    ensures Executing(After(c, us)) && Active(After(c, us)) <= Active(After(c, us[..i])) <= Active(c)
  {
    if i == |us| {
      assert us[..i] == us;
      if us != [] {
        var init := us[..|us| - 1];
        NormalRunsOnlyLose(c, init, |init|);
        NormalStep(After(c, init), us[|us| - 1]);
      }
    } else {
      var init := us[..|us| - 1];
      NormalRunsOnlyLose(c, init, i);
      assert init[..i] == us[..i];
      NormalStep(After(c, init), us[|us| - 1]);
    }
  }

  /** Exactly which slots are left: while the target never falls below what is selected, those whose node was a
      candidate at every update. */
  lemma {:induction false} SlotsLeftIff(c: Capacity, us: seq<Update>, id: int)
    requires Executing(c) && Selected(c.active.value)
    requires forall u :: u in us ==> Normal(u) && |c.active.value| <= u.target
    ensures Executing(After(c, us)) && Selected(After(c, us).active.value)
    ensures |After(c, us).active.value| <= |c.active.value|
    ensures id in Active(After(c, us)) <==> id in Active(c) && forall u :: u in us ==> id in u.candidates
  {
    if us != [] {
      var init, last := us[..|us| - 1], us[|us| - 1];
      assert us == init + [last];
      SlotsLeftIff(c, init, id);
      SlotsFilter(After(c, init).active.value, last.candidates, last.target, id);
    }
  }

  // What CapacitySelection returns: positive IDs in order.
  predicate Selected(ids: seq<int>) {
    StrictlyUp(ids) && forall i :: 0 <= i < |ids| ==> ids[i] > 0
  }

  lemma SlotsFilter(previous: seq<int>, candidates: seq<int>, target: int, id: int)
    requires Selected(previous) && 0 < target && |previous| <= target
    ensures var r := Slots(candidates, Some(previous), target);
            Selected(r) && |r| <= |previous| && (id in r <==> id in previous && id in candidates)
  {
    UniquePositiveOfSorted(previous);
    UniquePositiveSorts(candidates);
    var allowed := SetOf(UniquePositive(candidates));
    KeepAllowedBounds(previous, allowed, target);
    FilterKeeps(previous, allowed, target, id);
    var r := KeepAllowed(previous, allowed, target);
    forall i | 0 <= i < |r| ensures r[i] > 0 {
      assert r[i] in r && r[i] in previous;
    }
    assert id in previous ==> id > 0;
  }

  // A list within the target loses only what is not allowed.
  lemma {:induction false} FilterKeeps(ids: seq<int>, allowed: set<int>, target: int, id: int)
    requires |ids| <= target
    ensures |KeepAllowed(ids, allowed, target)| <= |ids|
    ensures id in KeepAllowed(ids, allowed, target) <==> id in ids && id in allowed
  {
    if ids != [] {
      var init, last := ids[..|ids| - 1], ids[|ids| - 1];
      assert ids == init + [last];
      FilterKeeps(init, allowed, target, id);
    }
  }

  /** While execution stays on, a node joins the active set only through an update that brings a selection naming it. */
  lemma {:induction false} OnlyHealingAdmits(c: Capacity, us: seq<Update>, id: int)
    requires Executing(c) && (forall u :: u in us ==> u.target > 0)
    requires id in Active(After(c, us)) && id !in Active(c)
    ensures exists i :: 0 <= i < |us| && us[i].selection.Some? && id in us[i].selection.value
    ensures Executing(After(c, us))
  {
    var init, last := us[..|us| - 1], us[|us| - 1];
    assert us == init + [last];
    StaysExecuting(c, init);
    if last.selection.Some? {
      SlotsNeverAdmit(last.candidates, last.selection.value, last.target);
    } else {
      NormalStep(After(c, init), last);
      OnlyHealingAdmits(c, init, id);
      var i :| 0 <= i < |init| && init[i].selection.Some? && id in init[i].selection.value;
      assert us[i] == init[i];
    }
  }

  lemma {:induction false} StaysExecuting(c: Capacity, us: seq<Update>)
    requires Executing(c) && forall u :: u in us ==> u.target > 0
    ensures Executing(After(c, us))
  {
    if us != [] {
      StaysExecuting(c, us[..|us| - 1]);
    }
  }

  /** A healing plan stays in force: after the update that brings it and any run of normal updates with the same nodes
      and target the active set is exactly the plan's, an empty one included. */
  lemma {:induction false} HealingStays(c: Capacity, cs: seq<Candidate>, p: HealPolicy, subscriptions: seq<int>,
                                        now: int, maxAge: int, candidates: seq<int>, us: seq<Update>)
    requires Ready(cs) && GoodSizes(p) && p.targetSize > 0 && SetOf(candidates) == AllIds(cs)
    requires forall u :: u in us ==> Normal(u) && u.target == p.targetSize && SetOf(u.candidates) == AllIds(cs)
    ensures var desired := PlanOf(cs, p, subscriptions, now, maxAge).desired;
            After(c, [Update(p.targetSize, Some(desired), candidates)] + us) == Capacity(p.targetSize, Some(desired))
  {
    hide PlanOf, Slots;
    var desired := PlanOf(cs, p, subscriptions, now, maxAge).desired;
    var all := [Update(p.targetSize, Some(desired), candidates)] + us;
    if us == [] {
      assert all[..0] == [];
      SlotsKeepHealing(cs, p, subscriptions, now, maxAge, candidates);
    } else {
      var init, last := us[..|us| - 1], us[|us| - 1];
      assert all[..|all| - 1] == [all[0]] + init && all[|all| - 1] == last && last in us;
      HealingStays(c, cs, p, subscriptions, now, maxAge, candidates, init);
      SlotsKeepHealing(cs, p, subscriptions, now, maxAge, last.candidates);
    }
  }
}
