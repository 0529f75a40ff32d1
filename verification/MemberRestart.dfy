/** A member after a restart: restored from its stored row, with an empty replay ring and no recovery streak, and
    fed the journal rows after the stored cursor. */
module MemberRestart {
  import opened Basics
  import opened FailureWindow
  import opened ProbeRing
  import opened GroupMember

  // What a restart keeps of a member.
  function Restored(m: Member): Member {
    m.(streak := 0, ring := [])
  }

  predicate SameButRing(a: Member, b: Member) {
    a == b.(ring := a.ring)
  }

  // Each event is a probe with a name of its own, unknown to the ring.
  predicate NewProbes(es: seq<Event>, ring: seq<ProbeId>) {
    && (forall i :: 0 <= i < |es| && IsProbe(es[i]) ==> es[i].probe != "" && es[i].probe !in ring)
    && (forall i, j :: 0 <= i < j < |es| && IsProbe(es[i]) && IsProbe(es[j]) ==> es[i].probe != es[j].probe)
  }

  predicate RingFrom(ring: seq<ProbeId>, old': seq<ProbeId>, es: seq<Event>) {
    forall p :: p in ring ==> p in old' || exists i :: 0 <= i < |es| && IsProbe(es[i]) && es[i].probe == p
  }

  /** A row stored together with the cursor: whatever the restored member is fed that it had not seen, it agrees with
      the member that never died in everything but the length of its memory, if and only if no recovery was under way.
      Rows do not store the streak. */
  lemma RestoredCatchesUpIff(c: Config, m: Member)
    ensures (forall es :: NewProbes(es, m.ring) ==> SameButRing(After(c, Restored(m), es), After(c, m, es)))
       <==> m.streak == 0
  {
    if m.streak == 0 {
      forall es | NewProbes(es, m.ring) ensures SameButRing(After(c, Restored(m), es), After(c, m, es)) {
        RestoredCatchesUp(c, m, es);
      }
    } else {
      assert NewProbes([], m.ring) && !SameButRing(After(c, Restored(m), []), After(c, m, []));
    }
  }

  lemma {:induction false} RestoredCatchesUp(c: Config, m: Member, es: seq<Event>)
    requires m.streak == 0 && NewProbes(es, m.ring)
    ensures SameButRing(After(c, Restored(m), es), After(c, m, es))
    ensures RingFrom(After(c, m, es).ring, m.ring, es) && RingFrom(After(c, Restored(m), es).ring, m.ring, es)
  {
    hide Step, RingFrom;
    if es == [] {
      NothingOffered(m);
    } else {
      var init, e := es[..|es| - 1], es[|es| - 1];
      RestoredCatchesUp(c, m, init);
      var a, b := After(c, Restored(m), init), After(c, m, init);
      RingGrows(c, a, m.ring, es);
      RingGrows(c, b, m.ring, es);
      hide After;
      NewToBoth(c, a, b, e, |es|);
    }
  }

  lemma NothingOffered(m: Member)
    ensures RingFrom(m.ring, m.ring, []) && RingFrom([], m.ring, [])
  {
  }

  // A new probe is in nobody's ring, and joins it.
  lemma RingGrows(c: Config, m: Member, known: seq<ProbeId>, es: seq<Event>)
    requires es != [] && NewProbes(es, known) && RingFrom(m.ring, known, es[..|es| - 1])
    ensures IsProbe(es[|es| - 1]) ==> es[|es| - 1].probe !in m.ring
    ensures RingFrom(Step(c, m, es[|es| - 1], |es|).ring, known, es)
  {
    hide Step, Offer;
    StepRing(c, m, es[|es| - 1], |es|);
    if IsProbe(es[|es| - 1]) {
      OfferAdds(m.ring, es[|es| - 1]);
    }
    var init := es[..|es| - 1];
    assert forall i :: 0 <= i < |init| ==> es[i] == init[i];
  }

  lemma OfferAdds(ring: seq<ProbeId>, e: Event)
    requires IsProbe(e)
    ensures forall p :: p in Offer(ring, e.probe) ==> p in ring || p == e.probe
  {
  }

  lemma NewToBoth(c: Config, a: Member, b: Member, e: Event, stamp: int)
    requires SameButRing(a, b) && (IsProbe(e) ==> e.probe !in a.ring && e.probe !in b.ring)
    ensures SameButRing(Step(c, a, e, stamp), Step(c, b, e, stamp))
  {
    hide AfterReport, SameSecond, Survivors, Cutoff, Unix, Offer, OnFailure, OnProbeSuccess;
    match e
    case DialFailure(at, cause) => FailsBoth(c, a, b, at, cause, stamp);
    case ProbeFailure(at, probe, cause) =>
      FailsBoth(c, a.(ring := Offer(a.ring, probe)), b.(ring := Offer(b.ring, probe)), at, cause, stamp);
    case ProbeSuccess(at, probe) => SucceedsBoth(c, a, b, at, probe, stamp);
    case _ =>
  }

  lemma FailsBoth(c: Config, a: Member, b: Member, at: int, cause: Option<string>, stamp: int)
    requires SameButRing(a, b)
    ensures SameButRing(OnFailure(a, c.window, c.threshold, at, cause, stamp).member,
                        OnFailure(b, c.window, c.threshold, at, cause, stamp).member)
  {
    hide AfterReport, SameSecond;
  }

  lemma SucceedsBoth(c: Config, a: Member, b: Member, at: int, probe: ProbeId, stamp: int)
    requires SameButRing(a, b) && probe !in a.ring && probe !in b.ring
    ensures SameButRing(OnProbeSuccess(a, c.policy, probe, at, stamp).member,
            OnProbeSuccess(b, c.policy, probe, at, stamp).member)
  {
    hide Offer;
  }

  // -------------------------------------------------------------------------------------------
  // A recovery under way
  // -------------------------------------------------------------------------------------------

  /** Events after which the streak of an evicted member is gone, whatever it was. */
  predicate Resets(c: Config, m: Member, e: Event) {
    match e
    case DialFailure(_, _) => true
    case ProbeFailure(at, _, _) => m.history == [] || m.history[|m.history| - 1] != Unix(at)
    case ProbeSuccess(_, _) => !c.policy.enabled
    case PropagatedEviction(_, _) => false
    case Restore(_) => true
    case PruningRead(_) => false
  }

  predicate Recovers(c: Config, m: Member, e: Event) {
    e.ProbeSuccess? && OnProbeSuccess(m, c.policy, e.probe, e.at, 0).effect == Readmitted
  }

  // Some event of the run reset the streak of the member that never died.
  ghost predicate WasReset(c: Config, m: Member, es: seq<Event>) {
    exists j :: 0 <= j < |es| && Resets(c, After(c, m, es[..j]), es[j])
  }

  // The member that never died was not readmitted on the strength of the streak from before.
  ghost predicate NotYetRecovered(c: Config, m: Member, es: seq<Event>) {
    forall i :: 0 <= i < |es| && Recovers(c, After(c, m, es[..i]), es[i]) ==> WasReset(c, m, es[..i])
  }

  /** The restored member is evicted like the other, `d` successes behind. */
  predicate Behind(c: Config, a: Member, b: Member, d: int) {
    && a == b.(ring := a.ring, streak := a.streak)
    && b.evicted && 0 <= a.streak && a.streak + d == b.streak && 0 < d && b.streak < c.policy.successThreshold
  }

  // A member in the middle of its recovery.
  predicate Recovering(c: Config, m: Member) {
    m.evicted && 0 < m.streak < c.policy.successThreshold
  }

  lemma BehindStep(c: Config, a: Member, b: Member, d: int, e: Event, stamp: int)
    requires Behind(c, a, b, d)
    requires IsProbe(e) ==> e.probe != "" && e.probe !in a.ring && e.probe !in b.ring
    ensures var a', b' := Step(c, a, e, stamp), Step(c, b, e, stamp);
            if Resets(c, b, e) then SameButRing(a', b')
            else if Recovers(c, b, e) then
              b' == Cleared(b).(ring := b'.ring, revision := stamp) && a' == a.(ring := a'.ring, streak := a.streak + 1)
            else Behind(c, a', b', d)
  {
    hide Offer, Survivors, Unix;
  }

  /** The two meet again at the first event that resets the streak, a failure in a second of its own, a manual restore
      or a success under a disabled policy, and not before: until then the restored member is exactly the lost streak
      behind. */
  lemma {:induction false} MeetAgainIff(c: Config, m: Member, es: seq<Event>)
    requires Recovering(c, m) && NewProbes(es, m.ring) && NotYetRecovered(c, m, es)
    ensures SameButRing(After(c, Restored(m), es), After(c, m, es)) <==> WasReset(c, m, es)
    ensures !WasReset(c, m, es) ==> Behind(c, After(c, Restored(m), es), After(c, m, es), m.streak)
    ensures RingFrom(After(c, m, es).ring, m.ring, es) && RingFrom(After(c, Restored(m), es).ring, m.ring, es)
  {
    hide Step, RingFrom, Resets, Recovers;
    if es == [] {
      NothingOffered(m);
    } else {
      var init, e := es[..|es| - 1], es[|es| - 1];
      PrefixOfRun(c, m, es);
      MeetAgainIff(c, m, init);
      var a, b := After(c, Restored(m), init), After(c, m, init);
      RingGrows(c, a, m.ring, es);
      RingGrows(c, b, m.ring, es);
      hide After;
      if WasReset(c, m, init) {
        NewToBoth(c, a, b, e, |es|);
      } else {
        BehindStep(c, a, b, m.streak, e, |es|);
      }
    }
  }

  lemma PrefixOfRun(c: Config, m: Member, es: seq<Event>)
    requires es != [] && NewProbes(es, m.ring) && NotYetRecovered(c, m, es)
    ensures var init, e := es[..|es| - 1], es[|es| - 1];
            && NewProbes(init, m.ring) && NotYetRecovered(c, m, init)
            && (WasReset(c, m, es) <==> WasReset(c, m, init) || Resets(c, After(c, m, init), e))
            && (Recovers(c, After(c, m, init), e) ==> WasReset(c, m, init))
  {
    hide After, Resets, Recovers;
    var init, n := es[..|es| - 1], |es| - 1;
    assert forall i :: 0 <= i <= n ==> init[..i] == es[..i];
    assert forall i :: 0 <= i < n ==> init[i] == es[i];
    if Resets(c, After(c, m, init), es[n]) {
      assert es[..n] == init && Resets(c, After(c, m, es[..n]), es[n]);
    }
    if WasReset(c, m, init) {
      var j :| 0 <= j < |init| && Resets(c, After(c, m, init[..j]), init[j]);
      assert Resets(c, After(c, m, es[..j]), es[j]);
    }
    forall i | 0 <= i < |init| && Recovers(c, After(c, m, init[..i]), init[i]) ensures WasReset(c, m, init[..i]) {
      assert Recovers(c, After(c, m, es[..i]), es[i]);
    }
  }

  // Equal but for memory and the moment of the last change.
  predicate SameButStamp(a: Member, b: Member) {
    a == b.(ring := a.ring, revision := a.revision)
  }

  predicate OnlySuccesses(es: seq<Event>, from: int) {
    && (forall i :: 0 <= i < |es| ==> es[i].ProbeSuccess? && es[i].at >= from)
  }

  /** Without such an event the restart costs exactly the lost streak: when the member that never died is readmitted,
      the restored one is still evicted, and on further successes it follows after as many of them as the streak had. */
  lemma RecoveryIsLateBy(c: Config, m: Member, es: seq<Event>, e: Event, more: seq<Event>)
    requires Recovering(c, m) && NotYetRecovered(c, m, es) && !WasReset(c, m, es)
    requires NewProbes(es + [e] + more, m.ring) && Recovers(c, After(c, m, es), e) && OnlySuccesses(more, e.at)
    ensures var a, b := After(c, Restored(m), es + [e] + more), After(c, m, es + [e] + more);
            && !b.evicted && b.history == [] && b.streak == 0
            && (SameButStamp(a, b) <==> |more| >= m.streak) && (a.evicted <==> |more| < m.streak)
  {
    LateMember(c, m, es, e, more);
  }

  // The restored member between the two readmissions, and after.
  ghost predicate Late(c: Config, a: Member, b: Member, lost: int, n: int, at: int) {
    && !b.evicted && b.evictedAt.None? && b.history == [] && b.streak == 0 && b.lastError == "" && c.policy.enabled
    && if n < lost then
         a.evicted && Cooled(a, c.policy, at) && a.streak == c.policy.successThreshold - lost + n
         && a.standby == b.standby && a.nodeId == b.nodeId && a.tag == b.tag
       else SameButStamp(a, b)
  }

  lemma {:induction false} LateMember(c: Config, m: Member, es: seq<Event>, e: Event, more: seq<Event>)
    requires Recovering(c, m) && NotYetRecovered(c, m, es) && !WasReset(c, m, es)
    requires NewProbes(es + [e] + more, m.ring) && Recovers(c, After(c, m, es), e) && OnlySuccesses(more, e.at)
    ensures var all := es + [e] + more;
            && Late(c, After(c, Restored(m), all), After(c, m, all), m.streak, |more|, e.at)
            && RingFrom(After(c, m, all).ring, m.ring, all) && RingFrom(After(c, Restored(m), all).ring, m.ring, all)
  {
    hide Step, RingFrom, Resets, Late;
    var all := es + [e] + more;
    var init, last := all[..|all| - 1], all[|all| - 1];
    NewPrefix(all, m.ring);
    if more == [] {
      assert all == es + [e] && init == es && last == e;
      MeetAgainIff(c, m, es);
      var a, b := After(c, Restored(m), es), After(c, m, es);
      RingGrows(c, a, m.ring, all);
      RingGrows(c, b, m.ring, all);
      LateStart(c, a, b, m.streak, e, |all|);
    } else {
      var fewer := more[..|more| - 1];
      assert init == es + [e] + fewer && last == more[|more| - 1];
      LateMember(c, m, es, e, fewer);
      var a, b := After(c, Restored(m), init), After(c, m, init);
      RingGrows(c, a, m.ring, all);
      RingGrows(c, b, m.ring, all);
      LateStep(c, a, b, m.streak, |fewer|, e.at, last, |all|);
    }
  }

  lemma NewPrefix(es: seq<Event>, ring: seq<ProbeId>)
    requires es != [] && NewProbes(es, ring)
    ensures NewProbes(es[..|es| - 1], ring) && (IsProbe(es[|es| - 1]) ==> es[|es| - 1].probe != "")
  {
  }

  lemma LateStart(c: Config, a: Member, b: Member, lost: int, e: Event, stamp: int)
    requires Behind(c, a, b, lost) && Recovers(c, b, e) && e.probe != "" && e.probe !in a.ring && e.probe !in b.ring
    ensures Late(c, Step(c, a, e, stamp), Step(c, b, e, stamp), lost, 0, e.at)
  {
    hide Offer;
  }

  lemma LateStep(c: Config, a: Member, b: Member, lost: int, n: int, at: int, e: Event, stamp: int)
    requires Late(c, a, b, lost, n, at) && 0 <= n && lost < c.policy.successThreshold
    requires e.ProbeSuccess? && e.at >= at && e.probe != "" && e.probe !in a.ring && e.probe !in b.ring
    ensures Late(c, Step(c, a, e, stamp), Step(c, b, e, stamp), lost, n + 1, at)
  {
    hide Offer;
  }

  // -------------------------------------------------------------------------------------------
  // A row stored ahead of the cursor
  // -------------------------------------------------------------------------------------------

  /** The failures the row already counts: the last seconds of its history, in order, all still inside the window. */
  predicate CountedAlready(c: Config, h: seq<int>, es: seq<Event>) {
    && StrictlyIncreasing(h) && |es| <= |h|
    && (forall i :: 0 <= i < |es| ==>
          es[i].ProbeFailure? && Unix(es[i].at) == h[|h| - |es| + i] && Cutoff(es[i].at, c.window) <= h[0])
    && NewProbes(es, [])
  }

  /** The other writer can store a member's row before the cursor that covers it.  After a crash the failures in between
      are delivered again to a member without memory, and the history comes out as it was if and only if there is only
      one of them: two make at least one second count twice. */
  lemma ReplayedFailuresCountOnceIff(c: Config, m: Member, es: seq<Event>)
    requires m.ring == [] && !m.evicted && es != [] && CountedAlready(c, m.history, es)
    ensures After(c, m, es).history == m.history <==> |es| == 1
  {
    if |es| == 1 {
      assert es[..0] == [];
      hide Survivors;
    } else {
      ReplaysAccumulate(c, m, es, |es|);
      assert es[..|es|] == es;
    }
  }

  // From the first failure on the history is longer than it was.
  lemma {:induction false} ReplaysAccumulate(c: Config, m: Member, es: seq<Event>, k: nat)
    requires m.ring == [] && !m.evicted && |es| > 1 && CountedAlready(c, m.history, es) && 0 < k <= |es|
    ensures var h := After(c, m, es[..k]).history;
            |h| > |m.history| && forall x :: x in h ==> x >= m.history[0]
  {
    var e := es[k - 1];
    assert es[..k] == es[..k - 1] + [e];
    AfterStep(c, m, es[..k - 1], e);
    assert e.at == es[k - 1].at && Unix(e.at) in m.history;
    assert Unix(e.at) >= m.history[0];
    hide Step, After;
    var before := After(c, m, es[..k - 1]);
    if k == 1 {
      assert es[..0] == [];
      EmptyRun(c, m);
      assert m.history[|m.history| - 1] != Unix(e.at);
    } else {
      ReplaysAccumulate(c, m, es, k - 1);
    }
    HistoryGrows(c, before, e, k, m.history[0]);
  }

  lemma EmptyRun(c: Config, m: Member)
    ensures After(c, m, []) == m
  {
  }

  // A failure never shortens a history that lies inside its window, and lengthens it unless it names the last second.
  lemma HistoryGrows(c: Config, m: Member, e: Event, stamp: int, low: int)
    requires e.ProbeFailure? && Cutoff(e.at, c.window) <= low <= Unix(e.at)
    requires m.history != [] && forall x :: x in m.history ==> x >= low
    ensures var h := Step(c, m, e, stamp).history;
            |h| >= |m.history| && (forall x :: x in h ==> x >= low)
            && (!m.evicted && !IsReplay(m, e.probe) && m.history[|m.history| - 1] != Unix(e.at) ==> |h| > |m.history|)
  {
    hide AfterReport, SameSecond, Cutoff, Unix, Offer;
    ReportGrows(m.history, c.window, e.at, low);
  }

  lemma ReportGrows(h: seq<int>, window: int, at: int, low: int)
    requires Cutoff(at, window) <= low <= Unix(at) && h != [] && forall x :: x in h ==> x >= low
    ensures AfterReport(h, window, at) == if h[|h| - 1] == Unix(at) then h else h + [Unix(at)]
  {
    var cutoff := Cutoff(at, window);
    SurvivorsAll(h, cutoff);
    assert forall i :: 0 <= i < |h| ==> h[i] in h;
    assert h + h[|h|..] == h;
  }
}
