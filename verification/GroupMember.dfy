/** One member of one group runtime: what a dial failure, a health probe, a propagated eviction or a
    manual restore does to it, and what that means over whole runs. */
module GroupMember {
  import opened Basics
  import opened FailureWindow
  import opened ProbeRing

  type Tag = string

  /** Automatic re-admission of an evicted member. */
  datatype Policy = Policy(enabled: bool, successThreshold: int, cooldown: int)

  const DEFAULT_SUCCESS_THRESHOLD := 3
  const DEFAULT_COOLDOWN := 300 * SECOND
  const DEFAULT_POLICY := Policy(true, DEFAULT_SUCCESS_THRESHOLD, DEFAULT_COOLDOWN)

  // Fills in missing numbers; an explicitly disabled policy stays disabled.
  function Normalize(p: Policy): Policy {
    Policy(p.enabled,
           if p.successThreshold <= 0 then DEFAULT_SUCCESS_THRESHOLD else p.successThreshold,
           if p.cooldown < 0 then 0 else p.cooldown)
  }

  predicate Provided(p: Policy) {
    p.enabled || p.successThreshold != 0 || p.cooldown != 0
  }

  datatype Member = Member(standby: bool, nodeId: int, tag: Tag, history: seq<int>, evicted: bool,
                           lastError: string, evictedAt: Option<int>, streak: int, ring: seq<ProbeId>,
                           revision: int)

  /** What the caller has to announce after a member transition. */
  datatype Effect =
    | Silent           // no event
    | Suspected        // a counted failure below the threshold
    | Evicted          // a counted failure that reached the threshold
    | Readmitted       // automatic recovery of an evicted member
    | Trusted          // a success that cleared a failure history

  datatype Outcome = Outcome(member: Member, effect: Effect)

  // clearMemberEviction: the clean, never-failed state.
  function Cleared(m: Member): Member {
    m.(evicted := false, evictedAt := None, history := [], lastError := "", streak := 0)
  }

  /** RecordFailure on one member. */
  function OnFailure(m: Member, window: int, threshold: int, at: int, cause: Option<string>, stamp: int): Outcome {
    if m.evicted then Outcome(m.(streak := 0), Silent)
    else
      var h := AfterReport(m.history, window, at);
      if SameSecond(m.history, window, at) then Outcome(m.(history := h), Silent)
      else
        var evict := |h| >= threshold;
        var counted := m.(history := h, streak := 0, revision := stamp,
                          lastError := if cause.Some? then cause.value else m.lastError);
        if evict then Outcome(counted.(evicted := true, evictedAt := Some(at)), Evicted)
        else Outcome(counted, Suspected)
  }

  predicate IsReplay(m: Member, probe: ProbeId) {
    probe != "" && probe in m.ring
  }

  /** RecordGroupHealthFailure on one member: replay and same-second checks before the failure counts. */
  function OnProbeFailure(m: Member, window: int, threshold: int, probe: ProbeId, at: int, cause: Option<string>,
                          stamp: int): Outcome {
    if IsReplay(m, probe) then Outcome(m, Silent)
    else
      var offered := m.(ring := Offer(m.ring, probe));
      if m.history != [] && m.history[|m.history| - 1] == Unix(at) then Outcome(offered, Silent)
      else OnFailure(offered, window, threshold, at, cause, stamp)
  }

  // The cooldown has passed; an undated eviction is infinitely old.
  predicate Cooled(m: Member, policy: Policy, now: int) {
    m.evictedAt.None? || now - m.evictedAt.value >= policy.cooldown
  }

  /** RecordHealthSuccess on one member. */
  function OnProbeSuccess(m: Member, policy: Policy, probe: ProbeId, now: int, stamp: int): Outcome {
    if IsReplay(m, probe) then Outcome(m, Silent)
    else
      var offered := m.(ring := Offer(m.ring, probe));
      if m.evicted then
        if !policy.enabled then Outcome(offered.(streak := 0), Silent)
        else if !Cooled(m, policy, now) then Outcome(offered, Silent)
        else if m.streak + 1 < policy.successThreshold then Outcome(offered.(streak := m.streak + 1), Silent)
        else Outcome(Cleared(offered).(revision := stamp), Readmitted)
      else if m.history == [] then Outcome(offered.(streak := 0), Silent)
      else Outcome(offered.(history := [], lastError := "", streak := 0, revision := stamp), Trusted)
  }

  /** propagateEviction on one member of the node. */
  function OnPropagatedEviction(m: Member, at: int, err: string, stamp: int): Member {
    m.(evicted := true, evictedAt := Some(at), lastError := err, streak := 0, revision := stamp)
  }

  // pruneFailures on one member.
  function Pruned(m: Member, window: int, now: int): Member {
    var h := Survivors(m.history, Cutoff(now, window));
    m.(history := h, lastError := if m.history != [] && h == [] then "" else m.lastError)
  }

  // -------------------------------------------------------------------------------------------
  // Runs of one member between two reconciliations
  // -------------------------------------------------------------------------------------------

  datatype Config = Config(window: int, threshold: int, policy: Policy)

  datatype Event =
    | DialFailure(at: int, cause: Option<string>)
    | ProbeFailure(at: int, probe: ProbeId, cause: Option<string>)
    | ProbeSuccess(at: int, probe: ProbeId)
    | PropagatedEviction(at: int, err: string)
    | Restore(at: int)
    | PruningRead(at: int)

  function Step(c: Config, m: Member, e: Event, stamp: int): Member {
    match e
    case DialFailure(at, cause) => OnFailure(m, c.window, c.threshold, at, cause, stamp).member
    case ProbeFailure(at, probe, cause) =>
      OnProbeFailure(m, c.window, c.threshold, probe, at, cause, stamp).member
    case ProbeSuccess(at, probe) => OnProbeSuccess(m, c.policy, probe, at, stamp).member
    case PropagatedEviction(at, err) => if m.evicted then m else OnPropagatedEviction(m, at, err, stamp)
    case Restore(_) => Cleared(m).(revision := stamp)
    case PruningRead(at) => if m.evicted then m else Pruned(m, c.window, at)
  }

  /** The member after a run of events; stamps are positions in the run. */
  function After(c: Config, m: Member, es: seq<Event>): Member {
    if es == [] then m else Step(c, After(c, m, es[..|es| - 1]), es[|es| - 1], |es|)
  }

  predicate IsProbe(e: Event) {
    e.ProbeFailure? || e.ProbeSuccess?
  }

  function Offers(es: seq<Event>): seq<ProbeId> {
    if es == [] then []
    else
      var init, e := es[..|es| - 1], es[|es| - 1];
      if IsProbe(e) then Offers(init) + [e.probe] else Offers(init)
  }

  lemma StepRing(c: Config, m: Member, e: Event, stamp: int)
    ensures Step(c, m, e, stamp).ring == if IsProbe(e) then Offer(m.ring, e.probe) else m.ring
  {
  }

  lemma {:induction false} RingFollowsOffers(c: Config, m: Member, es: seq<Event>)
    requires m.ring == []
    ensures After(c, m, es).ring == RingOf(Offers(es))
  {
    if es != [] {
      var init, e := es[..|es| - 1], es[|es| - 1];
      RingFollowsOffers(c, m, init);
      StepRing(c, After(c, m, init), e, |es|);
      if IsProbe(e) {
        assert (Offers(init) + [e.probe])[..|Offers(init)|] == Offers(init);
      }
    }
  }

  /** Replay idempotence: whatever happened since, feeding back events that carry any of the last 64
      accepted probes leaves the whole member as it is. */
  lemma {:induction false} ReplayedEventsChangeNothing(c: Config, m: Member, es: seq<Event>, replays: seq<Event>)
    requires m.ring == []
    requires forall e :: e in replays ==> IsProbe(e) && e.probe in Latest(Accepted(Offers(es)), RING_SIZE)
    ensures After(c, m, es + replays) == After(c, m, es)
  {
    hide Step, Offers, Accepted, RingOf;
    if replays == [] {
      assert es + replays == es;
    } else {
      var init, e := replays[..|replays| - 1], replays[|replays| - 1];
      assert replays == init + [e] && e in replays;
      ReplayedEventsChangeNothing(c, m, es, init);
      assert (es + replays)[..|es + replays| - 1] == es + init;
      RingFollowsOffers(c, m, es);
      RingIsLatestAccepted(Offers(es));
      ProbesIdentified(Offers(es), e.probe);
      ReplayIsIgnored(c, After(c, m, es), e, |es + replays|);
    }
  }

  lemma ProbesIdentified(offers: seq<ProbeId>, probe: ProbeId)
    requires probe in RingOf(offers)
    ensures probe != ""
  {
  }

  lemma ReplayIsIgnored(c: Config, m: Member, e: Event, stamp: int)
    requires IsProbe(e) && e.probe != "" && e.probe in m.ring
    ensures Step(c, m, e, stamp) == m
  {
  }

  // -------------------------------------------------------------------------------------------
  // Automatic recovery
  // -------------------------------------------------------------------------------------------

  predicate TimesAscend(es: seq<Event>) {
    forall i, j :: 0 <= i <= j < |es| ==> es[i].at <= es[j].at
  }

  predicate IsFailure(e: Event) {
    e.DialFailure? || e.ProbeFailure?
  }

  // The event reached the member as a failure: it was not recognised as a replay.
  ghost predicate FailsAt(c: Config, m: Member, es: seq<Event>, j: nat)
    requires j < |es|
  {
    es[j].DialFailure? || (es[j].ProbeFailure? && !IsReplay(After(c, m, es[..j]), es[j].probe))
  }

  // No entry of the history is younger than the given instant.
  predicate NotAfter(h: seq<int>, at: int) {
    forall i :: 0 <= i < |h| ==> h[i] <= Unix(at)
  }

  predicate Plausible(m: Member, now: int) {
    && NotAfter(m.history, now)
    && (m.evicted ==> m.evictedAt.Some? && m.evictedAt.value <= now && NotAfter(m.history, m.evictedAt.value))
    && ValidRing(m.ring)
  }

  /** The successes that back a streak: positions in the run, in order, each a probe success after the
      cooldown of the current eviction, with no failure from the first of them on. */
  ghost predicate Backs(c: Config, m: Member, es: seq<Event>, log: seq<nat>, evictedAt: int) {
    && (forall i, j :: 0 <= i < j < |log| ==> log[i] < log[j])
    && (forall i :: 0 <= i < |log| ==> log[i] < |es| && es[log[i]].ProbeSuccess?)
    && (forall i :: 0 <= i < |log| ==> es[log[i]].at >= evictedAt + c.policy.cooldown)
    && (log != [] ==> forall j :: log[0] <= j < |es| ==> !FailsAt(c, m, es, j))
  }

  ghost function ProbesAt(es: seq<Event>, log: seq<nat>): (r: seq<ProbeId>)
    requires forall i :: 0 <= i < |log| ==> log[i] < |es| && IsProbe(es[log[i]])
    ensures |r| == |log|
  {
    seq(|log|, i requires 0 <= i < |log| && log[i] < |es| && IsProbe(es[log[i]]) => es[log[i]].probe)
  }

  // Members whose probes all carry an identity, as journal rows do.
  predicate Identified(es: seq<Event>) {
    forall i :: 0 <= i < |es| && IsProbe(es[i]) ==> es[i].probe != ""
  }

  /** The streak of an evicted member, backed by that many successes whose probes end the ring. */
  ghost predicate StreakBacked(c: Config, m: Member, es: seq<Event>, log: seq<nat>) {
    var now := After(c, m, es);
    && now.evicted && now.evictedAt.Some?
    && |log| == now.streak
    && Backs(c, m, es, log, now.evictedAt.value)
    && Latest(now.ring, |log|) == Latest(ProbesAt(es, log), RING_SIZE)
  }

  ghost predicate Explained(c: Config, m: Member, es: seq<Event>) {
    var now := After(c, m, es);
    && (es != [] ==> Plausible(now, es[|es| - 1].at))
    && (!now.evicted ==> now.streak == 0)
    && (now.evicted ==> exists log :: StreakBacked(c, m, es, log))
  }

  // A member whose streak has not begun: never evicted, just evicted, or just restored from disk.
  predicate Fresh(m: Member, es: seq<Event>) {
    && m.streak == 0
    && (m.evicted ==> m.evictedAt.Some?)
    && (es != [] ==> Plausible(m, es[0].at))
  }

  lemma PlausibleLater(m: Member, a: int, b: int)
    requires Plausible(m, a) && a <= b
    ensures Plausible(m, b)
  {
  }

  lemma StepPlausible(c: Config, m: Member, e: Event, stamp: int)
    requires Plausible(m, e.at)
    ensures Plausible(Step(c, m, e, stamp), e.at)
  {
    match e
    case DialFailure(at, cause) =>
      NotAfterReport(m.history, c.window, at);
    case ProbeFailure(at, probe, cause) =>
      OfferKeepsValid(m.ring, probe);
      NotAfterReport(m.history, c.window, at);
    case ProbeSuccess(at, probe) =>
      OfferKeepsValid(m.ring, probe);
    case PruningRead(at) =>
      NotAfterSurvivors(m.history, Cutoff(at, c.window), at);
    case _ =>
  }

  lemma NotAfterReport(h: seq<int>, window: int, at: int)
    requires NotAfter(h, at)
    ensures NotAfter(AfterReport(h, window, at), at)
  {
    NotAfterSurvivors(h, Cutoff(at, window), at);
  }

  lemma NotAfterSurvivors(h: seq<int>, cutoff: int, at: int)
    requires NotAfter(h, at)
    ensures NotAfter(Survivors(h, cutoff), at)
  {
  }

  /** Appending an event that is not an applied failure keeps the successes that back a streak. */
  lemma BacksExtend(c: Config, m: Member, init: seq<Event>, e: Event, log: seq<nat>, evictedAt: int)
    requires Backs(c, m, init, log, evictedAt)
    requires log != [] ==> !FailsAt(c, m, init + [e], |init|)
    ensures Backs(c, m, init + [e], log, evictedAt)
    ensures ProbesAt(init + [e], log) == ProbesAt(init, log)
  {
    var es := init + [e];
    if log != [] {
      forall j | log[0] <= j < |es| ensures !FailsAt(c, m, es, j) {
        if j < |init| {
          assert es[..j] == init[..j];
          assert !FailsAt(c, m, init, j);
        }
      }
    }
  }

  /** Appending a counted success appends its position. */
  lemma BacksPush(c: Config, m: Member, init: seq<Event>, e: Event, log: seq<nat>, evictedAt: int)
    requires Backs(c, m, init, log, evictedAt)
    requires e.ProbeSuccess? && e.at >= evictedAt + c.policy.cooldown
    ensures Backs(c, m, init + [e], log + [|init|], evictedAt)
    ensures ProbesAt(init + [e], log + [|init|]) == ProbesAt(init, log) + [e.probe]
  {
    var es, pushed := init + [e], log + [|init|];
    BacksExtend(c, m, init, e, log, evictedAt);
    assert forall i :: 0 <= i < |log| ==> pushed[i] == log[i];
    assert pushed[|log|] == |init|;
    forall j | pushed[0] <= j < |es| ensures !FailsAt(c, m, es, j) {
      if log == [] {
        assert j == |init|;
      }
    }
  }

  lemma RingEndsWithProbes(ring: seq<ProbeId>, probes: seq<ProbeId>, probe: ProbeId)
    requires Latest(ring, |probes|) == Latest(probes, RING_SIZE)
    requires probe != "" && probe !in ring && |ring| <= RING_SIZE
    ensures Latest(Offer(ring, probe), |probes| + 1) == Latest(probes + [probe], RING_SIZE)
  {
  }

  lemma RecentProbesDiffer(ring: seq<ProbeId>, probes: seq<ProbeId>, probe: ProbeId)
    requires ValidRing(ring) && probe !in ring && |probes| <= RING_SIZE
    requires Latest(ring, |probes|) == Latest(probes, RING_SIZE)
    ensures NoDuplicates(probes + [probe])
  {
  }

  /** A failure after a counted success lies in a later second than the whole history, so the same-second
      check cannot swallow it: the streak is reset. */
  lemma FailureResetsStreak(c: Config, m: Member, e: Event, stamp: int, counted: int)
    requires IsFailure(e) && m.evicted && m.evictedAt.Some? && NotAfter(m.history, m.evictedAt.value)
    requires c.policy.cooldown >= SECOND
    requires m.evictedAt.value + c.policy.cooldown <= counted <= e.at
    requires e.ProbeFailure? ==> !IsReplay(m, e.probe)
    ensures Step(c, m, e, stamp).streak == 0
  {
  }

  lemma NoStreak(c: Config, m: Member, es: seq<Event>)
    requires var now := After(c, m, es); now.evicted && now.evictedAt.Some? && now.streak == 0
    ensures StreakBacked(c, m, es, [])
  {
  }

  lemma {:induction false} StreaksAreExplained(c: Config, m: Member, es: seq<Event>)
    requires Fresh(m, es) && TimesAscend(es) && Identified(es)
    requires c.policy.cooldown >= SECOND
    ensures Explained(c, m, es)
  {
    if es == [] {
      if m.evicted {
        NoStreak(c, m, es);
      }
    } else {
      var init, e := es[..|es| - 1], es[|es| - 1];
      assert es == init + [e];
      assert TimesAscend(init) && Identified(init) by {
        assert forall i :: 0 <= i < |init| ==> init[i] == es[i];
      }
      assert init != [] ==> init[0] == es[0];
      StreaksAreExplained(c, m, init);
      if init == [] {
        assert e == es[0];
      } else {
        PlausibleLater(After(c, m, init), init[|init| - 1].at, e.at);
      }
      ExplainedStep(c, m, init, e);
    }
  }

  lemma ExplainedStep(c: Config, m: Member, init: seq<Event>, e: Event)
    requires Explained(c, m, init) && Plausible(After(c, m, init), e.at)
    requires TimesAscend(init + [e]) && Identified(init + [e])
    requires c.policy.cooldown >= SECOND
    ensures Explained(c, m, init + [e])
  {
    hide Step, After, Plausible, TimesAscend, Identified, StreakBacked;
    var es, before := init + [e], After(c, m, init);
    var now := After(c, m, es);
    AfterStep(c, m, init, e);
    StepPlausible(c, before, e, |es|);
    StepStreak(c, before, e, |es|);
    assert es[|es| - 1] == e;
    if now.evicted {
      if now.streak == 0 {
        NoStreak(c, m, es);
      } else {
        var log :| StreakBacked(c, m, init, log);
        BackedCount(c, m, init, log);
        StreakStep(c, m, init, e, log);
      }
    }
  }

  lemma BackedCount(c: Config, m: Member, es: seq<Event>, log: seq<nat>)
    requires StreakBacked(c, m, es, log)
    ensures After(c, m, es).evictedAt.Some? && After(c, m, es).streak == |log|
  {
  }

  // A streak belongs to an evicted member and grows from one.
  lemma StepStreak(c: Config, m: Member, e: Event, stamp: int)
    requires !m.evicted ==> m.streak == 0
    ensures var now := Step(c, m, e, stamp);
            (!now.evicted ==> now.streak == 0) && (now.evicted && now.streak != 0 ==> m.evicted)
            && (m.streak >= 0 ==> now.streak >= 0)
  {
  }

  /** One event that leaves an evicted member with a positive streak: it either counted, or touched nothing. */
  lemma StreakStep(c: Config, m: Member, init: seq<Event>, e: Event, log: seq<nat>)
    requires StreakBacked(c, m, init, log) && Plausible(After(c, m, init), e.at)
    requires TimesAscend(init + [e]) && Identified(init + [e])
    requires c.policy.cooldown >= SECOND
    requires var now := Step(c, After(c, m, init), e, |init| + 1); now.evicted && now.streak > 0
    ensures exists log' :: StreakBacked(c, m, init + [e], log')
  {
    var es := init + [e];
    assert es[..|es| - 1] == init && es[|init|] == e;
    assert es[..|init|] == init;
    var before := After(c, m, init);
    var evictedAt := before.evictedAt.value;
    var now := After(c, m, es);
    if e.ProbeSuccess? && !IsReplay(before, e.probe) {
      CountedStep(c, m, init, e, log);
    } else {
      UncountedStep(c, m, init, e, log);
    }
  }

  // A success that leaves a streak was counted, after the cooldown.
  lemma CountedMember(c: Config, m: Member, e: Event, stamp: int)
    requires e.ProbeSuccess? && !IsReplay(m, e.probe)
    requires var now := Step(c, m, e, stamp); now.evicted && now.streak > 0
    requires m.evicted && m.evictedAt.Some? && (m.streak > 0 ==> e.at >= m.evictedAt.value + c.policy.cooldown)
    ensures Step(c, m, e, stamp) == m.(ring := Offer(m.ring, e.probe), streak := m.streak + 1)
    ensures e.at >= m.evictedAt.value + c.policy.cooldown
  {
  }

  lemma CountedStep(c: Config, m: Member, init: seq<Event>, e: Event, log: seq<nat>)
    requires StreakBacked(c, m, init, log) && Plausible(After(c, m, init), e.at)
    requires TimesAscend(init + [e]) && Identified(init + [e])
    requires e.ProbeSuccess? && !IsReplay(After(c, m, init), e.probe)
    requires var now := Step(c, After(c, m, init), e, |init| + 1); now.evicted && now.streak > 0
    ensures StreakBacked(c, m, init + [e], log + [|init|])
  {
    hide Step, After;
    var es, before := init + [e], After(c, m, init);
    assert |before.ring| <= RING_SIZE;
    hide Plausible;
    AfterStep(c, m, init, e);
    assert es[|init|] == e;
    if log != [] {
      assert es[log[0]] == init[log[0]] && es[log[0]].at <= e.at;
    }
    CountedMember(c, before, e, |init| + 1);
    hide TimesAscend, Identified;
    BacksPush(c, m, init, e, log, before.evictedAt.value);
    RingEndsWithProbes(before.ring, ProbesAt(init, log), e.probe);
  }

  lemma UncountedStep(c: Config, m: Member, init: seq<Event>, e: Event, log: seq<nat>)
    requires StreakBacked(c, m, init, log) && Plausible(After(c, m, init), e.at)
    requires TimesAscend(init + [e]) && c.policy.cooldown >= SECOND
    requires !(e.ProbeSuccess? && !IsReplay(After(c, m, init), e.probe))
    requires var now := Step(c, After(c, m, init), e, |init| + 1); now.evicted && now.streak > 0
    ensures StreakBacked(c, m, init + [e], log)
  {
    var es := init + [e];
    AfterStep(c, m, init, e);
    assert es[|init|] == e && es[..|init|] == init;
    var before := After(c, m, init);
    if IsFailure(e) && log != [] && FailsAt(c, m, es, |init|) {
      assert es[log[0]] == init[log[0]] && es[log[0]].at <= e.at;
      FailureResetsStreak(c, before, e, |es|, es[log[0]].at);
      assert false;
    }
    BacksExtend(c, m, init, e, log, before.evictedAt.value);
    assert StreakBacked(c, m, es, log);
  }

  /** Automatic recovery is earned: it needs `successThreshold` probe successes, all after the cooldown of
      the current eviction, with no applied failure from the first to the last of them, and (as long as the
      ring can tell) pairwise different measurements. */
  lemma RecoveryIsEarned(c: Config, m: Member, es: seq<Event>, e: Event, stamp: int) returns (log: seq<nat>)
    requires Fresh(m, es + [e]) && TimesAscend(es + [e]) && Identified(es + [e])
    requires c.policy.cooldown >= SECOND && c.policy.successThreshold > 0
    requires e.ProbeSuccess?
    requires OnProbeSuccess(After(c, m, es), c.policy, e.probe, e.at, stamp).effect == Readmitted
    ensures After(c, m, es).evictedAt.Some?
    ensures |log| >= c.policy.successThreshold
    ensures Backs(c, m, es + [e], log, After(c, m, es).evictedAt.value)
    ensures |log| <= RING_SIZE + 1 ==> NoDuplicates(ProbesAt(es + [e], log))
  {
    hide OnProbeSuccess, After, TimesAscend, Identified, Fresh, StreakBacked, Backs, ProbesAt, IsReplay, Cooled,
      Plausible, NoDuplicates;
    RunPrefix(m, es, e);
    StreaksAreExplained(c, m, es);
    var before := After(c, m, es);
    ReadmissionNeeds(before, c.policy, e.probe, e.at, stamp);
    var backed :| StreakBacked(c, m, es, backed);
    BackedCount(c, m, es, backed);
    log := EarnedBy(c, m, es, e, backed);
  }

  lemma RunPrefix(m: Member, es: seq<Event>, e: Event)
    requires Fresh(m, es + [e]) && TimesAscend(es + [e]) && Identified(es + [e])
    ensures Fresh(m, es) && TimesAscend(es) && Identified(es)
    ensures ValidRing(m.ring)
    ensures IsProbe(e) ==> e.probe != ""
  {
    var all := es + [e];
    assert all[|es|] == e;
    assert forall i :: 0 <= i < |es| ==> es[i] == all[i];
    assert es != [] ==> es[0] == all[0];
  }

  lemma ReadmissionNeeds(m: Member, policy: Policy, probe: ProbeId, now: int, stamp: int)
    ensures OnProbeSuccess(m, policy, probe, now, stamp).effect == Readmitted
       <==> m.evicted && !IsReplay(m, probe) && policy.enabled && Cooled(m, policy, now)
            && m.streak + 1 >= policy.successThreshold
  {
  }

  lemma EarnedBy(c: Config, m: Member, es: seq<Event>, e: Event, backed: seq<nat>) returns (log: seq<nat>)
    requires StreakBacked(c, m, es, backed) && (es == [] ==> ValidRing(m.ring))
    requires es != [] ==> Plausible(After(c, m, es), es[|es| - 1].at)
    requires e.ProbeSuccess? && e.probe != "" && !IsReplay(After(c, m, es), e.probe)
    requires Cooled(After(c, m, es), c.policy, e.at)
    ensures |log| == After(c, m, es).streak + 1
    ensures Backs(c, m, es + [e], log, After(c, m, es).evictedAt.value)
    ensures |log| <= RING_SIZE + 1 ==> NoDuplicates(ProbesAt(es + [e], log))
  {
    log := backed + [|es|];
    BacksPush(c, m, es, e, backed, After(c, m, es).evictedAt.value);
    if |log| <= RING_SIZE + 1 {
      RecentProbesDiffer(After(c, m, es).ring, ProbesAt(es, backed), e.probe);
    }
  }

  // -------------------------------------------------------------------------------------------
  // Which configurations guarantee it
  // -------------------------------------------------------------------------------------------

  /** The readmission by `e` rests on enough successes after the cooldown, with no failure among them. */
  ghost predicate Earned(c: Config, m: Member, es: seq<Event>, e: Event) {
    var before := After(c, m, es);
    && before.evictedAt.Some?
    && exists log ::
         && |log| >= c.policy.successThreshold
         && Backs(c, m, es + [e], log, before.evictedAt.value)
         && (|log| <= RING_SIZE + 1 ==> NoDuplicates(ProbesAt(es + [e], log)))
  }

  ghost predicate Readmits(c: Config, m: Member, es: seq<Event>, e: Event) {
    && Fresh(m, es + [e]) && TimesAscend(es + [e]) && Identified(es + [e])
    && e.ProbeSuccess?
    && OnProbeSuccess(After(c, m, es), c.policy, e.probe, e.at, |es| + 1).effect == Readmitted
  }

  /** In every run of every member, each automatic recovery is earned. */
  ghost predicate AlwaysEarned(c: Config) {
    forall m, es, e :: Readmits(c, m, es, e) ==> Earned(c, m, es, e)
  }

  /** The guarantee depends on the configuration, and exactly so: the cooldown has to outlast the second of the
      eviction, unless one success is enough anyway.  In a shorter cooldown a failure can fall into the second of
      the eviction, where it is taken for the failure already in the history and does not reset the streak. */
  lemma AlwaysEarnedIff(c: Config)
    requires c.policy.successThreshold > 0 && c.policy.cooldown >= 0
    ensures AlwaysEarned(c) <==>
            !c.policy.enabled || c.policy.cooldown >= SECOND || c.policy.successThreshold <= 1
  {
    if c.policy.enabled && c.policy.cooldown < SECOND && c.policy.successThreshold > 1 {
      var (es, e) := ForgottenRun(c, c.policy.successThreshold - 2);
      var m := JustEvicted();
      ForgottenReadmits(c, es, e);
      ForgottenUnearned(c, es, e);
      assert Readmits(c, m, es, e) && !Earned(c, m, es, e);
    } else {
      forall m, es, e | Readmits(c, m, es, e) ensures Earned(c, m, es, e) {
        ReadmissionNeeds(After(c, m, es), c.policy, e.probe, e.at, |es| + 1);
        if c.policy.cooldown >= SECOND {
          var log := RecoveryIsEarned(c, m, es, e, |es| + 1);
        } else {
          OneSuccessEarns(c, m, es, e);
        }
      }
    }
  }

  lemma {:induction false} RunStaysPlausible(c: Config, m: Member, es: seq<Event>)
    requires Fresh(m, es) && TimesAscend(es)
    ensures After(c, m, es).evicted ==> After(c, m, es).evictedAt.Some?
    ensures es != [] ==> Plausible(After(c, m, es), es[|es| - 1].at)
  {
    if es != [] {
      var init, e := es[..|es| - 1], es[|es| - 1];
      assert forall i :: 0 <= i < |init| ==> init[i] == es[i];
      RunStaysPlausible(c, m, init);
      hide Step;
      if init != [] {
        PlausibleLater(After(c, m, init), init[|init| - 1].at, e.at);
      }
      StepPlausible(c, After(c, m, init), e, |es|);
    }
  }

  // A single success after the cooldown backs itself.
  lemma OneSuccessEarns(c: Config, m: Member, es: seq<Event>, e: Event)
    requires Readmits(c, m, es, e) && c.policy.successThreshold == 1
    ensures Earned(c, m, es, e)
  {
    var all := es + [e];
    RunPrefix(m, es, e);
    RunStaysPlausible(c, m, es);
    ReadmissionNeeds(After(c, m, es), c.policy, e.probe, e.at, |es| + 1);
    hide After, OnProbeSuccess, Fresh, TimesAscend, Identified;
    assert all[|es|] == e && Backs(c, m, all, [|es|], After(c, m, es).evictedAt.value);
    assert |[|es|]| == 1 && NoDuplicates(ProbesAt(all, [|es|]));
  }

  // A member evicted at second 10.
  function JustEvicted(): Member {
    Member(false, 1, "", [10], true, "", Some(10 * SECOND), 0, [], 0)
  }

  // Probe names told apart by their lengths.
  function Name(n: nat): ProbeId {
    seq(n, _ => 'p')
  }

  // Event `k` of the run: a success, a failure in the same instant, then only successes.
  function ForgottenEvent(c: Config, k: nat): Event {
    var at := 10 * SECOND + c.policy.cooldown;
    if k == 1 then ProbeFailure(at, Name(2), None) else ProbeSuccess(at, Name(k + 1))
  }

  // The run with `n` successes after the failure, and the success that readmits.
  function ForgottenRun(c: Config, n: nat): (seq<Event>, Event) {
    (seq(n + 2, k requires 0 <= k < n + 2 => ForgottenEvent(c, k)), ForgottenEvent(c, n + 2))
  }

  function StreakAfter(k: nat): nat {
    if k <= 1 then k else k - 1
  }

  // The member after the first `k` events: the failure left no trace but its name in the ring.
  lemma {:induction false} ForgottenMember(c: Config, es: seq<Event>, k: nat)
    requires 0 <= c.policy.cooldown < SECOND && c.policy.enabled && k <= |es| <= c.policy.successThreshold
    requires c.policy.successThreshold > 1
    requires forall i :: 0 <= i < |es| ==> es[i] == ForgottenEvent(c, i)
    ensures var now := After(c, JustEvicted(), es[..k]);
            && now == JustEvicted().(streak := StreakAfter(k), ring := now.ring)
            && forall p :: p in now.ring ==> |p| <= k
  {
    hide Step, ForgottenEvent;
    if k == 0 {
      assert es[..0] == [];
    } else {
      var before := After(c, JustEvicted(), es[..k - 1]);
      assert es[..k] == es[..k - 1] + [es[k - 1]];
      ForgottenMember(c, es, k - 1);
      AfterStep(c, JustEvicted(), es[..k - 1], es[k - 1]);
      assert |es[..k - 1]| + 1 == k;
      hide After;
      ForgottenStep(c, before, k - 1);
    }
  }

  lemma ForgottenStep(c: Config, m: Member, k: nat)
    requires 0 <= c.policy.cooldown < SECOND && c.policy.enabled
    requires k == 1 || StreakAfter(k) + 1 < c.policy.successThreshold
    requires m == JustEvicted().(streak := StreakAfter(k), ring := m.ring) && forall p :: p in m.ring ==> |p| <= k
    ensures var now := Step(c, m, ForgottenEvent(c, k), k + 1);
            && now == m.(streak := StreakAfter(k + 1), ring := now.ring)
            && forall p :: p in now.ring ==> |p| <= k + 1
  {
  }

  lemma ForgottenReadmits(c: Config, es: seq<Event>, e: Event)
    requires 0 <= c.policy.cooldown < SECOND && c.policy.enabled && c.policy.successThreshold > 1
    requires (es, e) == ForgottenRun(c, c.policy.successThreshold - 2)
    ensures Readmits(c, JustEvicted(), es, e)
  {
    var n := c.policy.successThreshold;
    ForgottenMember(c, es, n);
    assert es[..n] == es;
    var now := After(c, JustEvicted(), es);
    assert |e.probe| == n + 1 && e.probe !in now.ring;
    ReadmissionNeeds(now, c.policy, e.probe, e.at, |es| + 1);
    ForgottenTimes(c, es, e);
  }

  lemma ForgottenTimes(c: Config, es: seq<Event>, e: Event)
    requires 0 <= c.policy.cooldown < SECOND && c.policy.successThreshold > 1
    requires (es, e) == ForgottenRun(c, c.policy.successThreshold - 2)
    ensures Fresh(JustEvicted(), es + [e]) && TimesAscend(es + [e]) && Identified(es + [e])
  {
  }

  lemma {:induction false} IncreasingSpreads(log: seq<nat>, i: nat)
    requires (forall i, j :: 0 <= i < j < |log| ==> log[i] < log[j]) && i < |log|
    ensures log[i] >= log[0] + i
  {
    if i > 0 {
      IncreasingSpreads(log, i - 1);
    }
  }

  lemma ForgottenUnearned(c: Config, es: seq<Event>, e: Event)
    requires 0 <= c.policy.cooldown < SECOND && c.policy.enabled && c.policy.successThreshold > 1
    requires (es, e) == ForgottenRun(c, c.policy.successThreshold - 2)
    ensures !Earned(c, JustEvicted(), es, e)
  {
    var m, all := JustEvicted(), es + [e];
    assert |all| == c.policy.successThreshold + 1;
    assert all[1] == ForgottenEvent(c, 1) && all[..1] == es[..1];
    ForgottenMember(c, es, 1);
    assert |Name(2)| == 2;
    assert FailsAt(c, m, all, 1);
    hide After, FailsAt, ForgottenEvent, ForgottenRun;
    forall log, evictedAt | |log| >= c.policy.successThreshold && Backs(c, m, all, log, evictedAt) ensures false {
      assert log[0] >= 2;
      IncreasingSpreads(log, |log| - 1);
    }
  }

  lemma AfterStep(c: Config, m: Member, es: seq<Event>, e: Event)
    ensures After(c, m, es + [e]) == Step(c, After(c, m, es), e, |es| + 1)
  {
  }
}
