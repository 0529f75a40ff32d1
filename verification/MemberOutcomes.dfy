/** What the reports about a member amount to over whole runs: when a failure evicts it, and what a success leaves
    of its history, in seconds and flags. */
module MemberOutcomes {
  import opened Basics
  import opened FailureWindow
  import opened ProbeRing
  import opened GroupMember

  // A member that has never failed.
  predicate Clean(m: Member) {
    m.history == [] && !m.evicted && m.ring == []
  }

  /** The seconds with a failure since the member was last cleared: by a restore, or by a probe success that was no
      replay and leaves it in service. */
  ghost function FailedSeconds(c: Config, m: Member, es: seq<Event>): set<int> {
    if es == [] then {}
    else
      var init, e := es[..|es| - 1], es[|es| - 1];
      var before := FailedSeconds(c, m, init);
      match e
      case DialFailure(at, _) => before + {Unix(at)}
      case ProbeFailure(at, probe, _) => if IsReplay(After(c, m, init), probe) then before else before + {Unix(at)}
      case ProbeSuccess(_, probe) =>
        if IsReplay(After(c, m, init), probe) || After(c, m, es).evicted then before else {}
      case Restore(_) => {}
      case _ => before
  }

  /** The history holds some of the seconds, each once and in order, spans at most the window, and misses none from
      `low` on. */
  ghost predicate Tracks(h: seq<int>, seconds: set<int>, k: nat, low: int) {
    && StrictlyIncreasing(h)
    && (forall i :: 0 <= i < |h| ==> h[i] in seconds && h[i] >= h[|h| - 1] - k)
    && (forall x :: x in seconds && x >= low ==> x in h)
  }

  predicate NoneAfter(seconds: set<int>, at: int) {
    forall x :: x in seconds ==> x <= Unix(at)
  }

  // The survivors are the recent seconds, and this second can only be the last of them.
  lemma KeptSeconds(h: seq<int>, seconds: set<int>, k: nat, second: int)
    requires Tracks(h, seconds, k, second - k) && forall x :: x in seconds ==> x <= second
    ensures var kept := Survivors(h, second - k);
            && StrictlyIncreasing(kept)
            && (forall x :: x in kept <==> x in seconds && x >= second - k)
            && (second in seconds <==> kept != [] && kept[|kept| - 1] == second)
            && (second in seconds ==> kept == h)
  {
    hide Survivors, StrictlyIncreasing, Tracks;
    var kept := Survivors(h, second - k);
    TracksIncreases(h, seconds, k, second - k);
    SurvivorsIncreasing(h, second - k);
    KeptMembers(h, seconds, k, second - k);
    if second in seconds {
      assert second in kept;
      KeptLast(kept, second);
      KeptWhole(h, seconds, k, second);
    } else if kept != [] {
      assert kept[|kept| - 1] in kept;
    }
  }

  lemma TracksIncreases(h: seq<int>, seconds: set<int>, k: nat, low: int)
    requires Tracks(h, seconds, k, low)
    ensures StrictlyIncreasing(h)
  {
  }

  lemma KeptMembers(h: seq<int>, seconds: set<int>, k: nat, low: int)
    requires Tracks(h, seconds, k, low)
    ensures forall x :: x in Survivors(h, low) <==> x in seconds && x >= low
  {
    forall x ensures x in Survivors(h, low) <==> x in seconds && x >= low {
      SurvivorsMembers(h, low, x);
      assert x in h ==> x in seconds;
    }
  }

  lemma KeptLast(kept: seq<int>, second: int)
    requires StrictlyIncreasing(kept) && second in kept && forall x :: x in kept ==> x <= second
    ensures kept[|kept| - 1] == second
  {
    var i :| 0 <= i < |kept| && kept[i] == second;
    assert kept[|kept| - 1] in kept;
  }

  // A second that is there already ends the history, so nothing has left the window.
  lemma KeptWhole(h: seq<int>, seconds: set<int>, k: nat, second: int)
    requires Tracks(h, seconds, k, second - k) && second in seconds && forall x :: x in seconds ==> x <= second
    ensures Survivors(h, second - k) == h
  {
    assert second in h && forall x :: x in h ==> x <= second;
    KeptLast(h, second);
    SurvivorsAll(h, second - k);
  }

  // One counted report.
  lemma ReportTracks(h: seq<int>, seconds: set<int>, window: int, k: nat, at: int)
    requires window == k * SECOND && Tracks(h, seconds, k, Unix(at) - k) && NoneAfter(seconds, at)
    ensures SameSecond(h, window, at) <==> Unix(at) in seconds
    ensures Unix(at) in seconds ==> AfterReport(h, window, at) == h
    ensures Unix(at) !in seconds ==>
              forall x :: x in AfterReport(h, window, at) <==> x in seconds + {Unix(at)} && x >= Unix(at) - k
    ensures Tracks(AfterReport(h, window, at), seconds + {Unix(at)}, k, Unix(at) - k)
  {
    hide Survivors, Unix, Cutoff, Tracks, StrictlyIncreasing, AfterReport, SameSecond;
    ReportShape(h, window, k, at);
    KeptSeconds(h, seconds, k, Unix(at));
    var kept := Survivors(h, Unix(at) - k);
    if Unix(at) in seconds {
      assert seconds + {Unix(at)} == seconds;
      assert h + h[|h|..] == h;
    } else {
      assert forall x :: x in kept ==> x in seconds;
      AppendLargest(kept, Unix(at));
      RecentTracks(kept + [Unix(at)], seconds + {Unix(at)}, k, Unix(at));
    }
  }

  lemma ReportShape(h: seq<int>, window: int, k: nat, at: int)
    requires window == k * SECOND
    ensures var kept := Survivors(h, Unix(at) - k);
            && (SameSecond(h, window, at) <==> kept != [] && kept[|kept| - 1] == Unix(at))
            && AfterReport(h, window, at) == if SameSecond(h, window, at) then kept + h[|kept|..] else kept + [Unix(at)]
  {
    WholeSecondCutoff(at, k);
    hide Survivors, Unix, Cutoff;
  }

  lemma PruneTracks(h: seq<int>, seconds: set<int>, window: int, k: nat, at: int)
    requires window == k * SECOND && Tracks(h, seconds, k, Unix(at) - k) && NoneAfter(seconds, at)
    ensures Tracks(Survivors(h, Cutoff(at, window)), seconds, k, Unix(at) - k)
  {
    hide Survivors, Unix, Cutoff, Tracks, StrictlyIncreasing;
    WholeSecondCutoff(at, k);
    KeptSeconds(h, seconds, k, Unix(at));
    RecentTracks(Survivors(h, Unix(at) - k), seconds, k, Unix(at));
  }

  lemma RecentTracks(kept: seq<int>, seconds: set<int>, k: nat, second: int)
    requires StrictlyIncreasing(kept) && forall x :: x in seconds ==> x <= second
    requires forall x :: x in kept <==> x in seconds && x >= second - k
    ensures Tracks(kept, seconds, k, second - k)
  {
    forall i | 0 <= i < |kept| ensures kept[i] in seconds && kept[i] >= kept[|kept| - 1] - k {
      assert kept[i] in kept && kept[|kept| - 1] in kept;
    }
  }

  /** While a member is in service its history is that of its counted seconds. */
  ghost predicate Accounted(c: Config, m: Member, es: seq<Event>, k: nat) {
    var now, seconds := After(c, m, es), FailedSeconds(c, m, es);
    if es == [] then now.history == [] && !now.evicted && seconds == {}
    else
      NoneAfter(seconds, es[|es| - 1].at)
      && (!now.evicted ==> Tracks(now.history, seconds, k, Unix(es[|es| - 1].at) - k))
  }

  lemma {:induction false} RunsAreAccounted(c: Config, m: Member, es: seq<Event>, k: nat)
    requires c.window == k * SECOND && Clean(m) && TimesAscend(es)
    ensures Accounted(c, m, es, k)
  {
    if es != [] {
      var init, e := es[..|es| - 1], es[|es| - 1];
      assert forall i :: 0 <= i < |init| ==> es[i] == init[i];
      RunsAreAccounted(c, m, init, k);
      AccountLater(c, m, init, k, e.at);
      AccountStep(c, m, es, k);
    }
  }

  // Nothing new is demanded of the history as time goes by.
  lemma AccountLater(c: Config, m: Member, es: seq<Event>, k: nat, at: int)
    requires Accounted(c, m, es, k) && (es != [] ==> es[|es| - 1].at <= at)
    ensures NoneAfter(FailedSeconds(c, m, es), at)
    ensures !After(c, m, es).evicted ==> Tracks(After(c, m, es).history, FailedSeconds(c, m, es), k, Unix(at) - k)
  {
    hide After, FailedSeconds;
    if es != [] {
      UnixMonotone(es[|es| - 1].at, at);
    }
  }

  lemma AccountStep(c: Config, m: Member, es: seq<Event>, k: nat)
    requires es != [] && c.window == k * SECOND
    requires var init, at := es[..|es| - 1], es[|es| - 1].at;
             && NoneAfter(FailedSeconds(c, m, init), at)
             && (!After(c, m, init).evicted ==>
                   Tracks(After(c, m, init).history, FailedSeconds(c, m, init), k, Unix(at) - k))
    ensures Accounted(c, m, es, k)
  {
    var init, e := es[..|es| - 1], es[|es| - 1];
    hide FailedSeconds, Step, Tracks, NoneAfter;
    SecondsMove(c, m, es);
    if IsFailure(e) {
      FailureAccounts(c, After(c, m, init), FailedSeconds(c, m, init), e, |es|, k);
    } else {
      OthersAccount(c, After(c, m, init), FailedSeconds(c, m, init), e, |es|, k);
    }
  }

  // The counted seconds after one more event, by the member before it.
  ghost function SecondsAfter(c: Config, m: Member, seconds: set<int>, e: Event, stamp: int): set<int> {
    match e
    case DialFailure(at, _) => seconds + {Unix(at)}
    case ProbeFailure(at, probe, _) => if IsReplay(m, probe) then seconds else seconds + {Unix(at)}
    case ProbeSuccess(_, probe) => if IsReplay(m, probe) || Step(c, m, e, stamp).evicted then seconds else {}
    case Restore(_) => {}
    case _ => seconds
  }

  lemma SecondsMove(c: Config, m: Member, es: seq<Event>)
    requires es != []
    ensures var init, e := es[..|es| - 1], es[|es| - 1];
            FailedSeconds(c, m, es) == SecondsAfter(c, After(c, m, init), FailedSeconds(c, m, init), e, |es|)
  {
    hide Step;
  }

  // What a step owes to the account.
  ghost predicate StepAccounts(c: Config, m: Member, seconds: set<int>, e: Event, stamp: int, k: nat) {
    var now, after := Step(c, m, e, stamp), SecondsAfter(c, m, seconds, e, stamp);
    NoneAfter(after, e.at) && (!now.evicted ==> Tracks(now.history, after, k, Unix(e.at) - k))
  }

  lemma FailureAccounts(c: Config, m: Member, seconds: set<int>, e: Event, stamp: int, k: nat)
    requires c.window == k * SECOND && IsFailure(e) && NoneAfter(seconds, e.at)
    requires !m.evicted ==> Tracks(m.history, seconds, k, Unix(e.at) - k)
    ensures StepAccounts(c, m, seconds, e, stamp, k)
  {
    hide AfterReport, SameSecond, Survivors, Unix, Offer, Cutoff, Tracks;
    if !m.evicted {
      ReportTracks(m.history, seconds, c.window, k, e.at);
      LastIsCounted(m.history, seconds, k, e.at);
    }
  }

  lemma OthersAccount(c: Config, m: Member, seconds: set<int>, e: Event, stamp: int, k: nat)
    requires c.window == k * SECOND && !IsFailure(e) && NoneAfter(seconds, e.at)
    requires !m.evicted ==> Tracks(m.history, seconds, k, Unix(e.at) - k)
    ensures StepAccounts(c, m, seconds, e, stamp, k)
  {
    if !m.evicted && e.PruningRead? {
      PruneTracks(m.history, seconds, c.window, k, e.at);
    }
    NothingTracked(k, Unix(e.at) - k);
    hide Survivors, Unix, Offer, Cutoff, Tracks;
  }

  lemma NothingTracked(k: nat, low: int)
    ensures Tracks([], {}, k, low)
  {
  }

  lemma LastIsCounted(h: seq<int>, seconds: set<int>, k: nat, at: int)
    requires Tracks(h, seconds, k, Unix(at) - k)
    ensures h != [] && h[|h| - 1] == Unix(at) ==> Unix(at) in seconds && seconds + {Unix(at)} == seconds
  {
  }

  // -------------------------------------------------------------------------------------------
  // Failures
  // -------------------------------------------------------------------------------------------

  // A failed dial, or a failed probe that the member has not seen.
  predicate Fails(m: Member, e: Event) {
    e.DialFailure? || (e.ProbeFailure? && !IsReplay(m, e.probe))
  }

  /** When a failure evicts. With a window of `k` seconds, a member in service that fails in a second of its own is
      evicted if and only if the distinct seconds in which it failed since it was last cleared, this one included and
      none older than the window, are at least as many as the threshold. A second failure in the same second changes
      neither flag nor history. */
  lemma FailureEvictsIff(c: Config, m: Member, es: seq<Event>, e: Event, k: nat)
    requires c.window == k * SECOND && Clean(m) && TimesAscend(es + [e])
    requires !After(c, m, es).evicted && Fails(After(c, m, es), e)
    ensures var before, now := After(c, m, es), After(c, m, es + [e]);
            var inWindow := set x | x in FailedSeconds(c, m, es + [e]) && x >= Unix(e.at) - k;
            && FailedSeconds(c, m, es + [e]) == FailedSeconds(c, m, es) + {Unix(e.at)}
            && (Unix(e.at) in FailedSeconds(c, m, es) ==> !now.evicted && now.history == before.history)
            && (Unix(e.at) !in FailedSeconds(c, m, es) ==>
                  && (now.evicted <==> |inWindow| >= c.threshold)
                  && StrictlyIncreasing(now.history) && (forall x :: x in now.history <==> x in inWindow)
                  && (now.evicted ==> now.evictedAt == Some(e.at)) && now.streak == 0
                  && now.lastError == if e.cause.Some? then e.cause.value else before.lastError)
  {
    var all := es + [e];
    assert all[..|es|] == es && all[|es|] == e;
    assert forall i :: 0 <= i < |es| ==> all[i] == es[i];
    RunsAreAccounted(c, m, es, k);
    AccountLater(c, m, es, k, e.at);
    SecondsMove(c, m, all);
    assert After(c, m, all) == Step(c, After(c, m, es), e, |all|);
    hide After, FailedSeconds, TimesAscend;
    FailureCounts(c, After(c, m, es), FailedSeconds(c, m, es), e, |all|, k);
  }

  lemma FailureCounts(c: Config, m: Member, seconds: set<int>, e: Event, stamp: int, k: nat)
    requires c.window == k * SECOND && Fails(m, e) && !m.evicted && NoneAfter(seconds, e.at)
    requires Tracks(m.history, seconds, k, Unix(e.at) - k)
    ensures var now := Step(c, m, e, stamp);
            var inWindow := set x | x in seconds + {Unix(e.at)} && x >= Unix(e.at) - k;
            && (Unix(e.at) in seconds ==> !now.evicted && now.history == m.history)
            && (Unix(e.at) !in seconds ==>
                  && (now.evicted <==> |inWindow| >= c.threshold)
                  && StrictlyIncreasing(now.history) && (forall x :: x in now.history <==> x in inWindow)
                  && (now.evicted ==> now.evictedAt == Some(e.at)) && now.streak == 0
                  && now.lastError == if e.cause.Some? then e.cause.value else m.lastError)
  {
    hide AfterReport, SameSecond, Survivors, Unix, Offer, Cutoff, StrictlyIncreasing;
    var inWindow := set x | x in seconds + {Unix(e.at)} && x >= Unix(e.at) - k;
    ReportTracks(m.history, seconds, c.window, k, e.at);
    LastIsCounted(m.history, seconds, k, e.at);
    if Unix(e.at) !in seconds {
      DistinctLength(AfterReport(m.history, c.window, e.at), inWindow);
    }
  }

  // -------------------------------------------------------------------------------------------
  // Successes
  // -------------------------------------------------------------------------------------------

  /** What a success leaves. One that is no replay leaves a member in service without any history or streak, and without
      an error if it had failed; a member that it readmits is as clean, and one that stays evicted keeps its history. */
  lemma SuccessClears(c: Config, m: Member, es: seq<Event>, e: Event)
    requires e.ProbeSuccess? && !IsReplay(After(c, m, es), e.probe)
    ensures var before, now := After(c, m, es), After(c, m, es + [e]);
            && (!now.evicted ==> now.history == [] && now.streak == 0)
            && (!before.evicted ==> !now.evicted && now.evictedAt == before.evictedAt)
            && (!before.evicted && before.history != [] ==> now.lastError == "")
            && (!before.evicted && before.history == [] ==>
                  now.lastError == before.lastError && now.revision == before.revision)
            && (before.evicted && !now.evicted ==> now.lastError == "" && now.evictedAt.None?)
            && (now.evicted ==>
                  now.history == before.history && now.evictedAt == before.evictedAt
                      && now.lastError == before.lastError)
  {
    AfterStep(c, m, es, e);
    hide Offer;
  }

  /** So the next failure starts a new count: after a success of a member in service only this failure's second
      counts. */
  lemma CountStartsAfresh(c: Config, m: Member, es: seq<Event>, s: Event, e: Event, k: nat)
    requires c.window == k * SECOND && Clean(m) && TimesAscend(es + [s] + [e])
    requires s.ProbeSuccess? && !IsReplay(After(c, m, es), s.probe) && !After(c, m, es).evicted
    requires Fails(After(c, m, es + [s]), e)
    ensures var now := After(c, m, es + [s] + [e]);
            now.history == [Unix(e.at)] && (now.evicted <==> 1 >= c.threshold)
  {
    SuccessClears(c, m, es, s);
    AfterStep(c, m, es + [s], e);
    SecondsMove(c, m, es + [s]);
    assert (es + [s])[..|es|] == es;
    AfterStep(c, m, es, s);
    FailureEvictsIff(c, m, es + [s], e, k);
    var seconds := FailedSeconds(c, m, es + [s] + [e]);
    var inWindow := set x | x in seconds && x >= Unix(e.at) - k;
    assert seconds == {Unix(e.at)} && inWindow == {Unix(e.at)};
    var h := After(c, m, es + [s] + [e]).history;
    hide After, FailedSeconds, Step;
    assert forall x :: x in h <==> x in [Unix(e.at)];
    IncreasingUnique(h, [Unix(e.at)]);
  }
}
