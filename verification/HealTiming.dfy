/** When the coordinator runs an action and when it puts it off, in seconds and counts. */
module HealTiming {
  import opened Basics
  import opened HealCoordinator

  const ONE_SECOND := 1_000_000_000

  /** How long a key waits after a run, by the failures in a row that the run ended with; 0 after a success. */
  function WaitSeconds(k: Kind, failures: nat): int {
    match k
    case Probing =>
      if failures <= 1 then 60 else if failures == 2 then 120 else if failures == 3 then 240
      else if failures == 4 then 480 else 960
    case Promotion =>
      if failures <= 1 then 10 else if failures == 2 then 20 else if failures == 3 then 40
      else if failures == 4 then 80 else 160
    case Refreshing => if failures <= 1 then 300 else if failures == 2 then 600 else 1800
  }

  /** The key of a run may run again: the wait is over, and so is a deferral. */
  predicate ReadyAfter(e: Entry, now: int)
    requires e.Ran?
  {
    match e.result
    case Succeeded => now >= e.end + WaitSeconds(e.key.kind, 0) * ONE_SECOND
    case Failed => now >= e.end + WaitSeconds(e.key.kind, e.failures) * ONE_SECOND
    case Deferred(until) =>
      now >= e.end + WaitSeconds(e.key.kind, 0) * ONE_SECOND && (until.Some? ==> now >= until.value)
  }

  lemma BackoffInSeconds(k: Kind, f: nat)
    requires f > 0
    ensures Backoff(k, f) == WaitSeconds(k, f) * ONE_SECOND
  {
    assert Pow2(0) == 1 && Pow2(1) == 2 && Pow2(2) == 4 && Pow2(3) == 8 && Pow2(4) == 16;
  }

  lemma DueInSeconds(e: Entry, now: int)
    requires e.Ran? && (e.result.Failed? ==> e.failures > 0)
    ensures now >= Due(e.key.kind, e.end, e.result, e.failures) <==> ReadyAfter(e, now)
  {
    if e.result.Failed? {
      BackoffInSeconds(e.key.kind, e.failures);
      hide Backoff;
    }
  }

  lemma DueOfRun(clock: int, actions: seq<Action>, i: nat, now: int)
    requires Possible(clock, actions) && i < |After(clock, actions).log| && After(clock, actions).log[i].Ran?
    ensures var e := After(clock, actions).log[i]; now >= e.due <==> ReadyAfter(e, now)
  {
    RunsKeepInv(clock, actions);
    DueInSeconds(After(clock, actions).log[i], now);
    hide Due, ReadyAfter, WindowsSound, BudgetsSound, WithinBudgets, AttemptsSound;
  }

  /** Two runs of one key: the later one starts only when the wait of the earlier is over. */
  lemma RunsWait(clock: int, actions: seq<Action>, i: nat, j: nat)
    requires Possible(clock, actions)
    requires var log := After(clock, actions).log;
             i < j < |log| && log[i].Ran? && log[j].Ran? && log[i].key == log[j].key
    ensures ReadyAfter(After(clock, actions).log[i], After(clock, actions).log[j].start)
  {
    RunsKeepInv(clock, actions);
    DueOfRun(clock, actions, i, After(clock, actions).log[j].start);
    hide ReadyAfter, WindowsSound, BudgetsSound, WithinBudgets, AttemptsSound;
  }

  // -------------------------------------------------------------------------------------------
  // Exactly when an action runs
  // -------------------------------------------------------------------------------------------

  /** The runs of a kind since the last budget window began. */
  function RunsThisWindow(log: seq<Entry>, k: Kind): nat {
    if log == [] || log[|log| - 1].Window? then 0
    else
      RunsThisWindow(log[..|log| - 1], k)
      + if log[|log| - 1].Ran? && log[|log| - 1].key.kind == k then 1 else 0
  }

  lemma OneMoreEntry(log: seq<Entry>, e: Entry, k: Kind)
    ensures RunsThisWindow(log + [e], k) ==
            if e.Window? then 0 else RunsThisWindow(log, k) + if e.Ran? && e.key.kind == k then 1 else 0
  {
    assert (log + [e])[..|log|] == log;
  }

  predicate Counted(s: State) {
    s.probes == RunsThisWindow(s.log, Probing) && s.refreshes == RunsThisWindow(s.log, Refreshing)
  }

  lemma {:induction false} BudgetsCount(clock: int, actions: seq<Action>)
    ensures Counted(After(clock, actions))
  {
    if actions != [] {
      var s, a := After(clock, actions[..|actions| - 1]), actions[|actions| - 1];
      BudgetsCount(clock, actions[..|actions| - 1]);
      StepCounts(s, a);
    }
  }

  lemma StepCounts(s: State, a: Action)
    requires Counted(s)
    ensures Counted(Next(s, a))
  {
    var t := Next(s, a);
    if |t.log| > |s.log| {
      var e := t.log[|s.log|];
      OneMoreEntry(s.log, e, Probing);
      OneMoreEntry(s.log, e, Refreshing);
      if |t.log| == |s.log| + 2 {
        OneMoreEntry(s.log + [e], t.log[|s.log| + 1], Probing);
        OneMoreEntry(s.log + [e], t.log[|s.log| + 1], Refreshing);
        assert t.log == s.log + [e] + [t.log[|s.log| + 1]];
      }
    }
    hide RunsThisWindow, Due, Known, Remembered, Refused, FailuresAfter;
  }

  // The last run of a key.
  lemma {:induction false} LastRunOf(log: seq<Entry>, key: Key, i: nat) returns (n: nat)
    requires i < |log| && log[i].Ran? && log[i].key == key
    ensures i <= n && LastRun(log, n) && log[n].key == key
    decreases |log| - i
  {
    if exists j :: i < j < |log| && log[j].Ran? && log[j].key == key {
      var j :| i < j < |log| && log[j].Ran? && log[j].key == key;
      n := LastRunOf(log, key, j);
    } else {
      n := i;
    }
  }

  /** A key waits exactly while one of its runs is not over long enough. */
  lemma WaitsIff(clock: int, actions: seq<Action>, key: Key, now: int)
    requires Possible(clock, actions) && After(clock, actions).clock <= now
    ensures var s := After(clock, actions);
            (Known(s, key).next.Some? && now < Known(s, key).next.value)
            <==> exists i :: 0 <= i < |s.log| && s.log[i].Ran? && s.log[i].key == key && !ReadyAfter(s.log[i], now)
  {
    var s := After(clock, actions);
    CountsKept(clock, actions);
    RunsKeepInv(clock, actions);
    forall i | 0 <= i < |s.log| && s.log[i].Ran? && s.log[i].key == key
      ensures exists n :: 0 <= n < |s.log| && LastRun(s.log, n) && s.log[n].key == key
      ensures !ReadyAfter(s.log[i], now) <==> now < s.log[i].due
      ensures !ReadyAfter(s.log[i], now) ==> Known(s, key).next.Some? && now < Known(s, key).next.value
    {
      var n := LastRunOf(s.log, key, i);
      DueOfRun(clock, actions, i, now);
      Remembers(s, i);
    }
    if key in s.attempts {
      var i :| 0 <= i < |s.log| && s.log[i].Ran? && s.log[i].key == key;
      var n :| 0 <= n < |s.log| && LastRun(s.log, n) && s.log[n].key == key;
      assert s.attempts[key] == Attempt(Some(s.log[n].due), s.log[n].failures);
    }
    hide ReadyAfter, WindowsSound, BudgetsSound, WithinBudgets, Possible;
  }

  lemma Remembers(s: State, i: nat)
    requires AttemptsSound(s) && i < |s.log| && s.log[i].Ran?
    ensures var key := s.log[i].key;
            if key in s.attempts then s.attempts[key].next.Some? && s.log[i].due <= s.attempts[key].next.value
            else s.log[i].due + HOUR < s.clock
  {
  }

  /** Whether an action whose audit succeeds runs: if and only if every run of its key is over for long enough, and the
      window has budget left, 20 probes and 2 refreshes. */
  lemma RunsIff(clock: int, actions: seq<Action>, key: Key, now: int, result: Result, end: int)
    requires Possible(clock, actions) && Enabled(After(clock, actions), Perform(key, now, true, result, end))
    ensures var s, t := After(clock, actions), After(clock, actions + [Perform(key, now, true, result, end)]);
            && |t.log| > |s.log| && s.log <= t.log
            && (t.log[|t.log| - 1].Ran? <==>
                  && (forall i :: 0 <= i < |s.log| && s.log[i].Ran? && s.log[i].key == key ==>
                     ReadyAfter(s.log[i], now))
                  && (key.kind == Probing ==> RunsThisWindow(s.log, Probing) < 20)
                  && (key.kind == Refreshing ==> RunsThisWindow(s.log, Refreshing) < 2))
            && (if t.log[|t.log| - 1].Ran?
                then t.log[|t.log| - 1].key == key && t.log[|t.log| - 1].start == now && t.log[|t.log| - 1].end == end
                     && t.log[|t.log| - 1].result == result
                else t.log == s.log + [PutOff(key, now)])
  {
    WaitsIff(clock, actions, key, now);
    BudgetsCount(clock, actions);
    var all := actions + [Perform(key, now, true, result, end)];
    assert all[..|all| - 1] == actions;
    hide RunsThisWindow, ReadyAfter, Due, Known;
  }

  // -------------------------------------------------------------------------------------------
  // The start of a tick
  // -------------------------------------------------------------------------------------------

  /** A tick begins a new budget window if and only if no window began in the last minute. */
  lemma WindowBeginsIff(clock: int, actions: seq<Action>, now: int)
    requires Possible(clock, actions) && After(clock, actions).clock <= now
    ensures var s, t := After(clock, actions), After(clock, actions + [Tick(now)]);
            if exists n :: 0 <= n < |s.log| && s.log[n].Window? && now - s.log[n].at < 60 * ONE_SECOND
            then t.log == s.log else t.log == s.log + [Window(now)]
  {
    hide Next, WindowsSound, BudgetsSound, WithinBudgets, AttemptsSound, Separated, Possible, DueSound, Audited;
    RunsKeepInv(clock, actions);
    var all := actions + [Tick(now)];
    assert all[..|all| - 1] == actions;
    WindowBegins(After(clock, actions), now);
  }

  lemma WindowBegins(s: State, now: int)
    requires WindowsSound(s)
    ensures if exists n :: 0 <= n < |s.log| && s.log[n].Window? && now - s.log[n].at < 60 * ONE_SECOND
            then Next(s, Tick(now)).log == s.log else Next(s, Tick(now)).log == s.log + [Window(now)]
  {
    LastWindow(s.log);
    var ws := WindowsOf(s.log);
    forall n | 0 <= n < |s.log| && s.log[n].Window? ensures ws != [] && s.log[n].at <= ws[|ws| - 1] {
      assert s.log[n].at in ws;
    }
    hide WindowsOf, Remembered, InItsWindow;
  }

  // The window entries of a log are its windows, in order.
  lemma {:induction false} LastWindow(log: seq<Entry>)
    ensures forall n :: 0 <= n < |log| && log[n].Window? ==> log[n].at in WindowsOf(log)
    ensures var ws := WindowsOf(log);
            ws != [] ==> exists n :: 0 <= n < |log| && log[n].Window? && log[n].at == ws[|ws| - 1]
  {
    if log != [] {
      var init := log[..|log| - 1];
      LastWindow(init);
      assert forall n :: 0 <= n < |init| ==> init[n] == log[n];
    }
  }

  /** What a tick leaves known of a key: its last run's due time and failures, unless more than an hour has passed since
      it was due; then nothing. */
  lemma ForgottenAfterAnHour(clock: int, actions: seq<Action>, now: int, n: nat)
    requires Possible(clock, actions) && After(clock, actions).clock <= now && LastRun(After(clock, actions).log, n)
    ensures var e := After(clock, actions).log[n];
            Known(After(clock, actions + [Tick(now)]), e.key)
            == if now > e.due + 3600 * ONE_SECOND then Attempt(None, 0) else Attempt(Some(e.due), e.failures)
  {
    CountsKept(clock, actions);
    var all := actions + [Tick(now)];
    assert all[..|all| - 1] == actions;
  }
}
