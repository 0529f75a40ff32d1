/** The coordinator that carries out healing plans: budgets per window, one backoff for each key, and an audit before
    every action. */
module HealCoordinator {
  import opened Basics
  import opened FailureWindow

  const MINUTE := 60 * SECOND
  const HOUR := 60 * MINUTE
  const PROBE_BUDGET := 20
  const REFRESH_BUDGET := 2

  datatype Kind = Promotion | Probing | Refreshing

  /** A deduplication key, shared by all groups. */
  datatype Key = Key(kind: Kind, id: int)

  datatype Attempt = Attempt(next: Option<int>, failures: nat)

  // The answer of a backend action; a deferral may name an earliest time.
  datatype Result = Succeeded | Failed | Deferred(until: Option<int>)

  /** What is done, in order: a new budget window, an audit entry, or a backend action. */
  datatype Entry =
    | Window(at: int)
    | Planned(key: Key, at: int, ok: bool)
    | PutOff(key: Key, at: int)
    | Ran(key: Key, start: int, end: int, result: Result, known: nat, failures: nat, due: int, window: nat)

  datatype State = State(attempts: map<Key, Attempt>, window: Option<int>, probes: nat, refreshes: nat, windows: nat,
                         log: seq<Entry>, clock: int)

  function Base(k: Kind): int {
    match k
    case Probing => MINUTE
    case Refreshing => 5 * MINUTE
    case Promotion => 10 * SECOND
  }

  function Pow2(n: nat): int {
    if n == 0 then 1 else 2 * Pow2(n - 1)
  }

  function Min(a: int, b: int): int {
    if a <= b then a else b
  }

  /** The delay after the f-th failure in a row. */
  function Backoff(k: Kind, f: nat): int
    requires f > 0
  {
    if k == Refreshing && f >= 3 then 30 * MINUTE
    else Min(Base(k) * Pow2(Min(f - 1, 4)), 30 * MINUTE)
  }

  // maxTime, with Go's zero time before everything.
  function Later(a: int, b: Option<int>): int {
    if b.Some? && b.value > a then b.value else a
  }

  function Due(k: Kind, end: int, result: Result, failures: nat): int
    requires result.Failed? ==> failures > 0
  {
    match result
    case Succeeded => end + Base(k)
    case Failed => end + Backoff(k, failures)
    case Deferred(until) => Later(end + Base(k), until)
  }

  // -------------------------------------------------------------------------------------------
  // Steps
  // -------------------------------------------------------------------------------------------

  predicate Stale(a: Attempt, now: int) {
    a.next.None? || now - a.next.value > HOUR
  }

  function Remembered(attempts: map<Key, Attempt>, now: int): map<Key, Attempt> {
    map k | k in attempts && !Stale(attempts[k], now) :: attempts[k]
  }

  /** The start of Tick: a new budget window when the last is a minute old, and attempts long past are forgotten. */
  function Ticked(s: State, now: int): State {
    var t := s.(attempts := Remembered(s.attempts, now), clock := now);
    if s.window.None? || now - s.window.value >= MINUTE then
      t.(window := Some(now), probes := 0, refreshes := 0, windows := s.windows + 1, log := s.log + [Window(now)])
    else t
  }

  function Known(s: State, key: Key): Attempt {
    if key in s.attempts then s.attempts[key] else Attempt(None, 0)
  }

  predicate Refused(s: State, key: Key, now: int) {
    (Known(s, key).next.Some? && now < Known(s, key).next.value)
    || (key.kind == Probing && s.probes >= PROBE_BUDGET)
    || (key.kind == Refreshing && s.refreshes >= REFRESH_BUDGET)
  }

  function FailuresAfter(known: nat, result: Result): nat {
    match result
    case Succeeded => 0
    case Failed => known + 1
    case Deferred(_) => known
  }

  /** perform: refused by backoff or budget, stopped by a failing audit, or run. */
  function Performed(s: State, key: Key, now: int, audited: bool, result: Result, end: int): State {
    if Refused(s, key, now) then s.(log := s.log + [PutOff(key, now)], clock := now)
    else if !audited then s.(log := s.log + [Planned(key, now, false)], clock := now)
    else
      var known := Known(s, key).failures;
      var failures := FailuresAfter(known, result);
      var due := Due(key.kind, end, result, failures);
      s.(attempts := s.attempts[key := Attempt(Some(due), failures)],
         probes := s.probes + if key.kind == Probing then 1 else 0,
         refreshes := s.refreshes + if key.kind == Refreshing then 1 else 0,
         log := s.log + [Planned(key, now, true), Ran(key, now, end, result, known, failures, due, s.windows)],
         clock := end)
  }

  datatype Action = Tick(now: int) | Perform(key: Key, now: int, audited: bool, result: Result, end: int)

  /** Time does not run backwards, and actions only happen inside a tick. */
  predicate Enabled(s: State, a: Action) {
    match a
    case Tick(now) => s.clock <= now
    case Perform(_, now, _, _, end) => s.clock <= now <= end && s.window.Some?
  }

  function Next(s: State, a: Action): State {
    match a
    case Tick(now) => Ticked(s, now)
    case Perform(key, now, audited, result, end) => Performed(s, key, now, audited, result, end)
  }

  function Initial(clock: int): State {
    State(map[], None, 0, 0, 0, [], clock)
  }

  function After(clock: int, actions: seq<Action>): State {
    if actions == [] then Initial(clock) else Next(After(clock, actions[..|actions| - 1]), actions[|actions| - 1])
  }

  predicate Possible(clock: int, actions: seq<Action>) {
    actions == [] ||
    (Possible(clock, actions[..|actions| - 1])
        && Enabled(After(clock, actions[..|actions| - 1]), actions[|actions| - 1]))
  }

  // -------------------------------------------------------------------------------------------
  // The invariant
  // -------------------------------------------------------------------------------------------

  // When each budget window began.
  function WindowsOf(log: seq<Entry>): seq<int> {
    if log == [] then []
    else if log[|log| - 1].Window? then WindowsOf(log[..|log| - 1]) + [log[|log| - 1].at]
    else WindowsOf(log[..|log| - 1])
  }

  function RunsOf(log: seq<Entry>): seq<Entry>
    ensures forall i :: 0 <= i < |RunsOf(log)| ==> RunsOf(log)[i].Ran?
  {
    if log == [] then []
    else if log[|log| - 1].Ran? then RunsOf(log[..|log| - 1]) + [log[|log| - 1]]
    else RunsOf(log[..|log| - 1])
  }

  // Runs of a kind in a window.
  function InWindow(log: seq<Entry>, k: Kind, w: nat): nat {
    if log == [] then 0
    else
      var e := log[|log| - 1];
      InWindow(log[..|log| - 1], k, w) + if e.Ran? && e.key.kind == k && e.window == w then 1 else 0
  }

  /** Runs of a kind that start in a stretch of time. */
  function Between(log: seq<Entry>, k: Kind, a: int, b: int): nat {
    if log == [] then 0
    else
      var e := log[|log| - 1];
      Between(log[..|log| - 1], k, a, b) + if e.Ran? && e.key.kind == k && a <= e.start < b then 1 else 0
  }

  predicate Spaced(ws: seq<int>) {
    forall i, j :: 0 <= i < j < |ws| ==> ws[j] - ws[i] >= MINUTE
  }

  // A run lies in its window: it starts at or after it began and not after the next one did.
  predicate InItsWindow(e: Entry, ws: seq<int>) {
    e.Ran? ==> 0 < e.window <= |ws| && ws[e.window - 1] <= e.start && (e.window < |ws| ==> e.start <= ws[e.window])
  }

  predicate WindowsSound(s: State) {
    var ws := WindowsOf(s.log);
    Spaced(ws) && |ws| == s.windows && (s.window.Some? <==> ws != [])
        && (ws != [] ==> s.window == Some(ws[|ws| - 1]) && ws[|ws| - 1] <= s.clock)
    && (forall i :: 0 <= i < |s.log| ==> InItsWindow(s.log[i], ws))
    && (forall i :: 0 <= i < |s.log| && s.log[i].Ran? ==> s.log[i].start <= s.log[i].end <= s.clock)
  }

  predicate BudgetsSound(s: State) {
    s.probes <= PROBE_BUDGET && s.refreshes <= REFRESH_BUDGET
    && InWindow(s.log, Probing, s.windows) == s.probes && InWindow(s.log, Refreshing, s.windows) == s.refreshes
  }

  ghost predicate WithinBudgets(s: State) {
    forall w: nat :: InWindow(s.log, Probing, w) <= PROBE_BUDGET && InWindow(s.log, Refreshing, w) <= REFRESH_BUDGET
  }

  /** The last attempt of a key is remembered until it is an hour past. */
  predicate AttemptsSound(s: State) {
    forall i :: 0 <= i < |s.log| && s.log[i].Ran? ==>
      var key := s.log[i].key;
      if key in s.attempts then s.attempts[key].next.Some? && s.log[i].due <= s.attempts[key].next.value
      else s.log[i].due + HOUR < s.clock
  }

  /** Runs of one key keep their distance. */
  predicate Separated(log: seq<Entry>) {
    forall i, j :: 0 <= i < j < |log| && log[i].Ran? && log[j].Ran? && log[i].key == log[j].key ==>
      log[i].due <= log[j].start
  }

  predicate DueSound(log: seq<Entry>) {
    forall i :: 0 <= i < |log| && log[i].Ran? ==>
      log[i].failures == FailuresAfter(log[i].known, log[i].result)
      && log[i].due == Due(log[i].key.kind, log[i].end, log[i].result, log[i].failures)
  }

  /** Every backend action comes right after the successful audit that announced it. */
  predicate Audited(log: seq<Entry>) {
    forall i :: 0 <= i < |log| && log[i].Ran? ==> i > 0 && log[i - 1] == Planned(log[i].key, log[i].start, true)
  }

  ghost predicate Inv(s: State) {
    WindowsSound(s) && BudgetsSound(s) && WithinBudgets(s) && AttemptsSound(s) && Separated(s.log) && DueSound(s.log)
        && Audited(s.log)
  }

  lemma WindowsAdded(log: seq<Entry>, e: Entry)
    ensures WindowsOf(log + [e]) == WindowsOf(log) + (if e.Window? then [e.at] else [])
    ensures RunsOf(log + [e]) == RunsOf(log) + (if e.Ran? then [e] else [])
    ensures forall k, w :: InWindow(log + [e], k, w) ==
              InWindow(log, k, w) + if e.Ran? && e.key.kind == k && e.window == w then 1 else 0
  {
  }

  lemma TickKeepsWindows(s: State, now: int)
    requires WindowsSound(s) && Enabled(s, Tick(now))
    ensures WindowsSound(Ticked(s, now))
  {
    WindowsAdded(s.log, Window(now));
    var ws := WindowsOf(s.log);
    forall i | 0 <= i < |s.log| && s.log[i].Ran? ensures InItsWindow(s.log[i], ws + [now]) {
      assert InItsWindow(s.log[i], ws);
    }
    assert InItsWindow(Window(now), ws + [now]);
    hide WindowsOf, Remembered, InItsWindow, RunsOf, InWindow;
  }

  lemma PerformKeepsWindows(s: State, a: Action)
    requires WindowsSound(s) && a.Perform? && Enabled(s, a)
    ensures WindowsSound(Next(s, a))
  {
    var t := Next(s, a);
    if |t.log| == |s.log| + 2 {
      WindowsAdded(s.log, t.log[|s.log|]);
      WindowsAdded(s.log + [t.log[|s.log|]], t.log[|s.log| + 1]);
      assert t.log == s.log + [t.log[|s.log|]] + [t.log[|s.log| + 1]];
    } else {
      WindowsAdded(s.log, t.log[|s.log|]);
    }
    hide WindowsOf, RunsOf, InWindow, Due, Refused, Known;
  }

  lemma {:induction false} NoFutureWindow(log: seq<Entry>, ws: seq<int>, k: Kind, w: nat)
    requires (forall i :: 0 <= i < |log| ==> InItsWindow(log[i], ws)) && w > |ws|
    ensures InWindow(log, k, w) == 0
  {
    if log != [] {
      NoFutureWindow(log[..|log| - 1], ws, k, w);
      assert InItsWindow(log[|log| - 1], ws);
    }
  }

  lemma TickKeepsBudgets(s: State, now: int)
    requires WindowsSound(s) && BudgetsSound(s) && WithinBudgets(s)
    ensures BudgetsSound(Ticked(s, now)) && WithinBudgets(Ticked(s, now))
  {
    WindowsAdded(s.log, Window(now));
    NoFutureWindow(s.log, WindowsOf(s.log), Probing, s.windows + 1);
    NoFutureWindow(s.log, WindowsOf(s.log), Refreshing, s.windows + 1);
    hide InWindow, WindowsOf, RunsOf, Remembered;
  }

  lemma PerformKeepsBudgets(s: State, a: Action)
    requires BudgetsSound(s) && WithinBudgets(s) && a.Perform?
    ensures BudgetsSound(Next(s, a)) && WithinBudgets(Next(s, a))
  {
    var t := Next(s, a);
    if |t.log| == |s.log| + 2 {
      WindowsAdded(s.log, t.log[|s.log|]);
      WindowsAdded(s.log + [t.log[|s.log|]], t.log[|s.log| + 1]);
      assert t.log == s.log + [t.log[|s.log|]] + [t.log[|s.log| + 1]];
    } else {
      WindowsAdded(s.log, t.log[|s.log|]);
    }
    hide WindowsOf, RunsOf, InWindow, Due;
  }

  lemma DueAfterEnd(k: Kind, end: int, result: Result, failures: nat)
    requires result.Failed? ==> failures > 0
    ensures Due(k, end, result, failures) >= end + Base(k) && Base(k) >= 10 * SECOND
    ensures result.Failed? ==> Due(k, end, result, failures) == end + Backoff(k, failures)
  {
  }

  lemma TickKeepsAttempts(s: State, now: int)
    requires AttemptsSound(s) && Enabled(s, Tick(now))
    ensures AttemptsSound(Ticked(s, now))
  {
  }

  lemma PerformKeepsAttempts(s: State, a: Action)
    requires AttemptsSound(s) && Separated(s.log) && DueSound(s.log) && Audited(s.log) && a.Perform? && Enabled(s, a)
    ensures AttemptsSound(Next(s, a)) && Separated(Next(s, a).log) && DueSound(Next(s, a).log)
            && Audited(Next(s, a).log)
  {
    var t := Next(s, a);
    if |t.log| == |s.log| + 2 {
      var run := t.log[|s.log| + 1];
      DueAfterEnd(run.key.kind, run.end, run.result, run.failures);
      assert forall i :: 0 <= i < |s.log| ==> t.log[i] == s.log[i];
      assert forall i :: 0 <= i < |t.log| && t.log[i].Ran? ==> i < |s.log| || i == |s.log| + 1;
      assert t.log[|s.log|] == Planned(a.key, a.now, true);
      hide Due, Backoff;
    } else {
      assert forall i :: 0 <= i < |s.log| ==> t.log[i] == s.log[i];
      assert forall i :: 0 <= i < |t.log| && t.log[i].Ran? ==> i < |s.log|;
    }
  }

  lemma TickKeepsLog(s: State, now: int)
    requires Separated(s.log) && DueSound(s.log) && Audited(s.log)
    ensures Separated(Ticked(s, now).log) && DueSound(Ticked(s, now).log) && Audited(Ticked(s, now).log)
  {
  }

  lemma StepKeepsInv(s: State, a: Action)
    requires Inv(s) && Enabled(s, a)
    ensures Inv(Next(s, a))
  {
    hide WindowsSound, BudgetsSound, WithinBudgets, AttemptsSound, Separated, DueSound, Audited, Ticked, Performed;
    match a
    case Tick(now) =>
      TickKeepsWindows(s, now);
      TickKeepsBudgets(s, now);
      TickKeepsAttempts(s, now);
      TickKeepsLog(s, now);
    case Perform(_, _, _, _, _) =>
      PerformKeepsWindows(s, a);
      PerformKeepsBudgets(s, a);
      PerformKeepsAttempts(s, a);
  }

  lemma {:induction false} RunsKeepInv(clock: int, actions: seq<Action>)
    requires Possible(clock, actions)
    ensures Inv(After(clock, actions))
  {
    hide Inv, Next, Enabled;
    if actions == [] {
      InitialInv(clock);
    } else {
      RunsKeepInv(clock, actions[..|actions| - 1]);
      StepKeepsInv(After(clock, actions[..|actions| - 1]), actions[|actions| - 1]);
    }
  }

  lemma InitialInv(clock: int)
    ensures Inv(Initial(clock))
  {
  }

  // -------------------------------------------------------------------------------------------
  // What holds over all runs
  // -------------------------------------------------------------------------------------------

  /** Every window carries out at most 20 probes and 2 refreshes. */
  lemma EachWindowIsBudgeted(clock: int, actions: seq<Action>, w: nat)
    requires Possible(clock, actions)
    ensures var log := After(clock, actions).log;
            InWindow(log, Probing, w) <= PROBE_BUDGET && InWindow(log, Refreshing, w) <= REFRESH_BUDGET
  {
    RunsKeepInv(clock, actions);
  }

  // Runs less than a minute apart are in the same window or in neighbouring ones.
  lemma NeighbouringWindows(ws: seq<int>, e: Entry, f: Entry)
    requires Spaced(ws) && InItsWindow(e, ws) && InItsWindow(f, ws) && e.Ran? && f.Ran?
    ensures f.window >= e.window + 2 ==> f.start >= e.start + MINUTE
  {
  }

  // If every run in a stretch is in one of two windows, the stretch holds no more than both.
  lemma {:induction false} TwoWindowsBound(log: seq<Entry>, k: Kind, a: int, b: int, w: nat)
    requires forall i :: 0 <= i < |log| && log[i].Ran? && a <= log[i].start < b ==>
             log[i].window == w || log[i].window == w + 1
    ensures Between(log, k, a, b) <= InWindow(log, k, w) + InWindow(log, k, w + 1)
  {
    if log != [] {
      TwoWindowsBound(log[..|log| - 1], k, a, b, w);
    }
  }

  // The lowest window among the runs in a stretch.
  lemma {:induction false} LowestWindow(log: seq<Entry>, a: int, b: int) returns (low: Option<Entry>)
    ensures low.None? ==> forall i :: 0 <= i < |log| ==> !(log[i].Ran? && a <= log[i].start < b)
    ensures low.Some? ==> low.value in log && low.value.Ran? && a <= low.value.start < b
    ensures low.Some? ==> forall i :: 0 <= i < |log| && log[i].Ran? && a <= log[i].start < b ==>
            low.value.window <= log[i].window
  {
    if log == [] {
      low := None;
    } else {
      var e := log[|log| - 1];
      low := LowestWindow(log[..|log| - 1], a, b);
      if e.Ran? && a <= e.start < b && (low.None? || e.window < low.value.window) {
        low := Some(e);
      }
    }
  }

  lemma {:induction false} EmptyStretch(log: seq<Entry>, k: Kind, a: int, b: int)
    requires forall i :: 0 <= i < |log| ==> !(log[i].Ran? && a <= log[i].start < b)
    ensures Between(log, k, a, b) == 0
  {
    if log != [] {
      EmptyStretch(log[..|log| - 1], k, a, b);
    }
  }

  /** In any stretch of a minute at most 40 probes and 4 refreshes start. */
  lemma AnyMinuteIsBudgeted(clock: int, actions: seq<Action>, a: int, b: int)
    requires Possible(clock, actions) && b <= a + MINUTE
    ensures var log := After(clock, actions).log;
            Between(log, Probing, a, b) <= 2 * PROBE_BUDGET && Between(log, Refreshing, a, b) <= 2 * REFRESH_BUDGET
  {
    hide After, Possible, Between, WindowsOf, InWindow, AttemptsSound, Separated, DueSound, Audited;
    var s := After(clock, actions);
    RunsKeepInv(clock, actions);
    var low := LowestWindow(s.log, a, b);
    if low.None? {
      EmptyStretch(s.log, Probing, a, b);
      EmptyStretch(s.log, Refreshing, a, b);
    } else {
      var e := low.value;
      var ws := WindowsOf(s.log);
      var n :| 0 <= n < |s.log| && s.log[n] == e;
      assert InItsWindow(s.log[n], ws);
      forall i | 0 <= i < |s.log| && s.log[i].Ran? && a <= s.log[i].start < b
        ensures s.log[i].window == e.window || s.log[i].window == e.window + 1
      {
        assert InItsWindow(s.log[i], ws);
        NeighbouringWindows(ws, e, s.log[i]);
      }
      TwoWindowsBound(s.log, Probing, a, b, e.window);
      TwoWindowsBound(s.log, Refreshing, a, b, e.window);
    }
  }

  /** Runs of one key are at least the base delay apart, and after a failure at least the backoff of its failures in a
      row, with attempts forgotten or not; and every run comes right after its successful planned audit. */
  lemma RunsKeepTheirDistance(clock: int, actions: seq<Action>, i: nat, j: nat)
    requires Possible(clock, actions)
    requires var log := After(clock, actions).log;
             i < j < |log| && log[i].Ran? && log[j].Ran? && log[i].key == log[j].key
    ensures var e, f := After(clock, actions).log[i], After(clock, actions).log[j];
            f.start >= e.end + Base(e.key.kind)
            && (e.result.Failed? ==> e.failures > 0 && f.start >= e.end + Backoff(e.key.kind, e.failures))
            && (e.result.Deferred? && e.result.until.Some? ==> f.start >= e.result.until.value)
    ensures var f := After(clock, actions).log[j];
            After(clock, actions).log[j - 1] == Planned(f.key, f.start, true)
  {
    RunsKeepInv(clock, actions);
    var e := After(clock, actions).log[i];
    DueAfterEnd(e.key.kind, e.end, e.result, e.failures);
  }

  // -------------------------------------------------------------------------------------------
  // Counting failures
  // -------------------------------------------------------------------------------------------

  // The last run of its key.
  predicate LastRun(log: seq<Entry>, i: nat) {
    i < |log| && log[i].Ran? && forall j :: i < j < |log| && log[j].Ran? ==> log[j].key != log[i].key
  }

  predicate Consecutive(log: seq<Entry>, i: nat, j: nat) {
    i < j < |log| && log[i].Ran? && log[j].Ran? && log[i].key == log[j].key
    && forall k :: i < k < j && log[k].Ran? ==> log[k].key != log[i].key
  }

  predicate FirstRun(log: seq<Entry>, j: nat) {
    j < |log| && log[j].Ran? && forall i :: 0 <= i < j && log[i].Ran? ==> log[i].key != log[j].key
  }

  /** What is remembered of a key is its last run, unless that is more than an hour past. */
  predicate LastRemembered(s: State) {
    (forall i :: 0 <= i < |s.log| && LastRun(s.log, i) ==>
       var e := s.log[i];
       if e.key in s.attempts then s.attempts[e.key] == Attempt(Some(e.due), e.failures) else e.due + HOUR < s.clock)
    && forall key :: key in s.attempts ==> exists i :: 0 <= i < |s.log| && s.log[i].Ran? && s.log[i].key == key
  }

  predicate KnownSound(log: seq<Entry>) {
    (forall i, j :: 0 <= i < j < |log| && Consecutive(log, i, j) ==>
       log[j].known == log[i].failures || (log[j].known == 0 && log[i].due + HOUR < log[j].start))
    && forall j :: 0 <= j < |log| && FirstRun(log, j) ==> log[j].known == 0
  }

  lemma QuietKeepsCount(s: State, t: State, e: Entry)
    requires LastRemembered(s) && KnownSound(s.log) && t.log == s.log + [e] && !e.Ran?
    requires t.attempts == s.attempts && s.clock <= t.clock
    ensures LastRemembered(t) && KnownSound(t.log)
  {
    SameRuns(s.log, e);
  }

  // An entry that is no run does not change which runs follow each other.
  lemma SameRuns(log: seq<Entry>, e: Entry)
    requires !e.Ran?
    ensures forall i :: 0 <= i < |log| + 1 ==> (LastRun(log + [e], i) <==> i < |log| && LastRun(log, i))
    ensures forall i, j :: 0 <= i < j < |log| + 1 ==>
            (Consecutive(log + [e], i, j) <==> j < |log| && Consecutive(log, i, j))
    ensures forall j :: 0 <= j < |log| + 1 ==> (FirstRun(log + [e], j) <==> j < |log| && FirstRun(log, j))
  {
    var more := log + [e];
    assert forall i :: 0 <= i < |log| ==> more[i] == log[i];
    assert more[|log|] == e;
  }

  lemma ForgettingKeepsCount(s: State, now: int)
    requires LastRemembered(s) && s.clock <= now
    ensures LastRemembered(s.(attempts := Remembered(s.attempts, now), clock := now))
  {
  }

  lemma RunKeepsCount(s: State, t: State, e: Entry)
    requires LastRemembered(s) && KnownSound(s.log) && t.log == s.log + [e] && e.Ran?
             && e.known == Known(s, e.key).failures
    requires t.attempts == s.attempts[e.key := Attempt(Some(e.due), e.failures)] && s.clock <= e.start
             && s.clock <= t.clock
    ensures LastRemembered(t) && KnownSound(t.log)
  {
    var n := |s.log|;
    assert t.log[n] == e && forall i :: 0 <= i < n ==> t.log[i] == s.log[i];
    forall i | 0 <= i < |t.log| && LastRun(t.log, i)
      ensures var f := t.log[i];
              if f.key in t.attempts then t.attempts[f.key] == Attempt(Some(f.due), f.failures)
                  else f.due + HOUR < t.clock
    {
      if i < n {
        assert LastRun(s.log, i) && t.log[i].key != e.key;
      }
    }
    forall i, j | 0 <= i < j < |t.log| && Consecutive(t.log, i, j)
      ensures t.log[j].known == t.log[i].failures || (t.log[j].known == 0 && t.log[i].due + HOUR < t.log[j].start)
    {
      if j < n { assert Consecutive(s.log, i, j); } else { assert LastRun(s.log, i); }
    }
    forall j | 0 <= j < |t.log| && FirstRun(t.log, j) ensures t.log[j].known == 0 {
      if j < n { assert FirstRun(s.log, j); }
    }
  }

  lemma {:induction false} CountsKept(clock: int, actions: seq<Action>)
    requires Possible(clock, actions)
    ensures LastRemembered(After(clock, actions)) && KnownSound(After(clock, actions).log)
  {
    if actions != [] {
      var init, a := actions[..|actions| - 1], actions[|actions| - 1];
      var s, t := After(clock, init), After(clock, actions);
      CountsKept(clock, init);
      hide LastRemembered, KnownSound, Due, Known, Remembered;
      match a
      case Tick(now) =>
        var u := s.(attempts := Remembered(s.attempts, now), clock := now);
        ForgettingKeepsCount(s, now);
        if t.log != s.log {
          QuietKeepsCount(u, t.(window := u.window, probes := u.probes, refreshes := u.refreshes,
              windows := u.windows), Window(now));
          SameCounts(t, u, t.(window := u.window, probes := u.probes, refreshes := u.refreshes, windows := u.windows));
        }
      case Perform(key, now, audited, _, _) =>
        if Refused(s, key, now) {
          QuietKeepsCount(s, t, PutOff(key, now));
        } else if !audited {
          QuietKeepsCount(s, t, Planned(key, now, false));
        } else {
          var u := s.(log := s.log + [Planned(key, now, true)]);
          QuietKeepsCount(s, u, Planned(key, now, true));
          SameKnown(s, u, key);
          assert t.log == u.log + [t.log[|u.log|]];
          RunKeepsCount(u, t, t.log[|u.log|]);
        }
    }
  }

  lemma SameCounts(t: State, u: State, v: State)
    requires LastRemembered(v) && v.log == t.log && v.attempts == t.attempts && v.clock == t.clock
    ensures LastRemembered(t)
  {
  }

  lemma SameKnown(s: State, t: State, key: Key)
    requires s.attempts == t.attempts
    ensures Known(s, key) == Known(t, key)
  {
  }

  /** The failures in a row that a run knows of are those the run of its key before it left behind, unless the key was
      forgotten because an hour had passed since it was due; then the count starts again. */
  lemma FailuresInARow(clock: int, actions: seq<Action>, i: nat, j: nat)
    requires Possible(clock, actions) && Consecutive(After(clock, actions).log, i, j)
    ensures var e, f := After(clock, actions).log[i], After(clock, actions).log[j];
            (f.known == e.failures || (f.known == 0 && f.start > e.due + HOUR))
            && f.failures == (if f.result.Succeeded? then 0 else if f.result.Failed? then f.known + 1 else f.known)
  {
    CountsKept(clock, actions);
    RunsKeepInv(clock, actions);
  }
}
