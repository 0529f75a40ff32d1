/** The sliding failure window of one group member.

    A member remembers the wall-clock seconds in which it failed.  Every report compacts that history
    in place over its own backing array, drops what fell out of the window, and counts at most one
    failure a second; reads prune the same history.  This module models the array, specifies it by
    functions on sequences, and relates whole runs of reports and prunes to the plain definition
    "the distinct seconds reported inside the window". */
module FailureWindow {
  import opened Basics

  // Instants and durations are nanoseconds, as in Go's time package.
  const SECOND := 1_000_000_000

  // Time.Unix: the second an instant lies in (rounded down).
  function Unix(t: int): int {
    t / SECOND
  }

  lemma UnixIs(t: int)
    ensures Unix(t) * 1_000_000_000 <= t < (Unix(t) + 1) * 1_000_000_000
  {
  }

  function Cutoff(at: int, window: int): int {
    Unix(at - window)
  }

  /** The entries of a history at or above a cutoff, in their order. */
  function Survivors(h: seq<int>, cutoff: int): (r: seq<int>)
    ensures |r| <= |h|
  {
    if h == [] then []
    else if h[|h| - 1] >= cutoff then Survivors(h[..|h| - 1], cutoff) + [h[|h| - 1]]
    else Survivors(h[..|h| - 1], cutoff)
  }

  /** What a failure report at `at` leaves in the history.  In the early return the compacted prefix has
      already been written over the backing array, but the slice keeps its old length. */
  function AfterReport(h: seq<int>, window: int, at: int): seq<int> {
    var kept := Survivors(h, Cutoff(at, window));
    if SameSecond(h, window, at) then kept + h[|kept|..] else kept + [Unix(at)]
  }

  predicate SameSecond(h: seq<int>, window: int, at: int) {
    var kept := Survivors(h, Cutoff(at, window));
    kept != [] && kept[|kept| - 1] == Unix(at)
  }

  predicate StrictlyIncreasing(h: seq<int>) {
    forall i, j :: 0 <= i < j < |h| ==> h[i] < h[j]
  }

  lemma {:induction false} SurvivorsMembers(h: seq<int>, cutoff: int, x: int)
    ensures x in Survivors(h, cutoff) <==> x in h && x >= cutoff
  {
    if h != [] {
      var init, last := h[..|h| - 1], h[|h| - 1];
      SurvivorsMembers(init, cutoff, x);
      assert h == init + [last];
      if last >= cutoff {
        assert x in Survivors(h, cutoff) <==> x in Survivors(init, cutoff) || x == last;
      }
    }
  }

  lemma {:induction false} SurvivorsIncreasing(h: seq<int>, cutoff: int)
    requires StrictlyIncreasing(h)
    ensures StrictlyIncreasing(Survivors(h, cutoff))
  {
    if h != [] {
      var init, last := h[..|h| - 1], h[|h| - 1];
      SurvivorsIncreasing(init, cutoff);
      var kept := Survivors(init, cutoff);
      forall i | 0 <= i < |kept| ensures kept[i] < last {
        SurvivorsMembers(init, cutoff, kept[i]);
        var j :| 0 <= j < |init| && init[j] == kept[i];
      }
    }
  }

  /** Filtering loses nothing exactly when nothing lies below the cutoff. */
  lemma {:induction false} SurvivorsAll(h: seq<int>, cutoff: int)
    ensures Survivors(h, cutoff) == h <==> forall i :: 0 <= i < |h| ==> h[i] >= cutoff
    ensures Survivors(h, cutoff) == h <==> |Survivors(h, cutoff)| == |h|
  {
    if h != [] {
      var init, last := h[..|h| - 1], h[|h| - 1];
      SurvivorsAll(init, cutoff);
      assert h == init + [last];
      if last >= cutoff {
        var s := Survivors(init, cutoff);
        assert Survivors(h, cutoff) == s + [last];
        assert s + [last] == init + [last] ==> s == (s + [last])[..|init|] == init;
        assert forall i :: 0 <= i < |init| ==> init[i] == h[i];
      } else {
        assert h[|h| - 1] < cutoff;
      }
    }
  }

  // -------------------------------------------------------------------------------------------
  // The array form
  // -------------------------------------------------------------------------------------------

  /** The failureHistory slice of a member: a backing array and the length in use. */
  class History {
    var buf: array<int>
    var count: nat
    var lastError: string

    ghost predicate Valid()
      reads this
    {
      count <= buf.Length
    }

    ghost function Contents(): (s: seq<int>)
      reads this, buf
      requires Valid()
    {
      buf[..count]
    }

    constructor ()
      ensures Valid() && fresh(buf) && Contents() == [] && lastError == ""
    {
      buf := new int[0];
      count := 0;
      lastError := "";
    }

    /** Slides the surviving entries to the front of the backing array; the slice itself keeps its length. */
    method Compact(cutoff: int) returns (kept: nat)
      requires Valid()
      modifies buf
      ensures Valid() && kept <= count
      ensures buf[..kept] == Survivors(old(Contents()), cutoff)
      ensures buf[kept..] == old(buf[..])[kept..]
    {
      kept := 0;
      ghost var was := buf[..];
      for i := 0 to count
        invariant kept <= i
        invariant buf[..kept] == Survivors(was[..i], cutoff)
        invariant forall j :: kept <= j < buf.Length ==> buf[j] == was[j]
      {
        assert was[..i + 1][..i] == was[..i];
        if buf[i] >= cutoff {
          buf[kept] := buf[i];
          kept := kept + 1;
        }
      }
      assert was[..count] == old(Contents());
    }

    /** Go's append onto the first `kept` entries: in place while the capacity lasts. */
    method Append(kept: nat, x: int)
      requires Valid() && kept <= count
      modifies this`buf, this`count, buf
      ensures Valid() && (buf == old(buf) || fresh(buf))
      ensures Contents() == old(buf[..kept]) + [x]
    {
      if kept == buf.Length {
        var grown := new int[2 * kept + 1];
        for i := 0 to kept
          invariant buf[..] == old(buf[..])
          invariant kept == buf.Length && grown.Length == 2 * kept + 1
          invariant forall j :: 0 <= j < i ==> grown[j] == buf[j]
        {
          grown[i] := buf[i];
        }
        grown[kept] := x;
        assert grown[..kept] == buf[..kept];
        buf := grown;
      } else {
        buf[kept] := x;
      }
      count := kept + 1;
    }

    /** One failure report of a member that is not evicted.  `counted` is false for the early return;
        `evict` says that the window reached the threshold. */
    method Report(window: int, threshold: int, at: int, cause: Option<string>) returns (counted: bool, evict: bool)
      requires Valid()
      modifies this, buf
      ensures Valid() && (buf == old(buf) || fresh(buf))
      ensures Contents() == AfterReport(old(Contents()), window, at)
      ensures counted == !SameSecond(old(Contents()), window, at)
      ensures evict == (counted && |Contents()| >= threshold)
      ensures lastError == if counted && cause.Some? then cause.value else old(lastError)
    {
      ghost var h := Contents();
      var kept := Compact(Cutoff(at, window));
      assert forall j :: 0 <= j < kept ==> buf[j] == buf[..kept][j];
      if kept > 0 && buf[kept - 1] == Unix(at) {
        assert buf[kept..count] == buf[kept..][..count - kept] == old(buf[..])[kept..][..count - kept] == h[kept..];
        assert Contents() == buf[..kept] + buf[kept..count];
        return false, false;
      }
      Append(kept, Unix(at));
      if cause.Some? {
        lastError := cause.value;
      }
      return true, count >= threshold;
    }

    /** pruneFailures: a read drops expired entries and, unlike the early return, shortens the slice. */
    method Prune(window: int, now: int) returns (changed: bool)
      requires Valid()
      modifies this`count, this`lastError, buf
      ensures Valid()
      ensures Contents() == Survivors(old(Contents()), Cutoff(now, window))
      ensures changed == (Contents() != old(Contents()))
      ensures lastError == if old(Contents()) != [] && Contents() == [] then "" else old(lastError)
    {
      if count == 0 {
        return false;
      }
      SurvivorsAll(Contents(), Cutoff(now, window));
      var original := count;
      count := Compact(Cutoff(now, window));
      if count == 0 {
        lastError := "";
      }
      return count != original;
    }
  }

  // -------------------------------------------------------------------------------------------
  // Whole runs
  // -------------------------------------------------------------------------------------------

  datatype Op = Report(at: int) | Prune(at: int)

  function Apply(h: seq<int>, window: int, op: Op): seq<int> {
    match op
    case Report(at) => AfterReport(h, window, at)
    case Prune(at) => Survivors(h, Cutoff(at, window))
  }

  /** The history after a run that starts with a clean member. */
  function Run(ops: seq<Op>, window: int): seq<int> {
    if ops == [] then [] else Apply(Run(ops[..|ops| - 1], window), window, ops[|ops| - 1])
  }

  predicate TimesNeverDecrease(ops: seq<Op>) {
    forall i, j :: 0 <= i <= j < |ops| ==> ops[i].at <= ops[j].at
  }

  /** The seconds with at least one report. */
  ghost function ReportedSeconds(ops: seq<Op>): set<int> {
    set i | 0 <= i < |ops| && ops[i].Report? :: Unix(ops[i].at)
  }

  /** A history holds exactly the given seconds from the cutoff on, each once, in order. */
  ghost predicate Evidence(h: seq<int>, seconds: set<int>, cutoff: int) {
    && StrictlyIncreasing(h)
    && forall x :: x in h <==> x in seconds && x >= cutoff
  }

  /** Whole-second windows: the in-place history is at every point of every run the increasing list of
      distinct reported seconds in the window of the latest operation, early returns included. */
  lemma {:induction false} HistoryIsEvidence(ops: seq<Op>, seconds: int)
    requires ops != [] && seconds >= 0
    requires TimesNeverDecrease(ops)
    ensures Evidence(Run(ops, seconds * SECOND), ReportedSeconds(ops), Unix(ops[|ops| - 1].at) - seconds)
  {
    var init, op := ops[..|ops| - 1], ops[|ops| - 1];
    var h, cutoff := Run(init, seconds * SECOND), Cutoff(op.at, seconds * SECOND);
    WholeSecondCutoff(op.at, seconds);
    if init != [] {
      HistoryIsEvidence(init, seconds);
      UnixMonotone(init[|init| - 1].at, op.at);
    }
    assert Evidence(Survivors(h, cutoff), ReportedSeconds(init), cutoff) by {
      SurvivorsIncreasing(h, cutoff);
      forall x ensures x in Survivors(h, cutoff) <==> x in ReportedSeconds(init) && x >= cutoff {
        SurvivorsMembers(h, cutoff, x);
      }
    }
    ReportedSecondsStep(ops);
    if op.Report? {
      LatestSecond(init, Survivors(h, cutoff), op.at, cutoff);
      if SameSecond(h, seconds * SECOND, op.at) {
        SameSecondDropsNothing(init, seconds, op.at);
      }
      ReportKeepsEvidence(h, ReportedSeconds(init), seconds * SECOND, op.at);
    }
  }

  /** The report step: a counted report adds its second, an early return that drops nothing adds nothing. */
  lemma ReportKeepsEvidence(h: seq<int>, seen: set<int>, window: int, at: int)
    requires Evidence(Survivors(h, Cutoff(at, window)), seen, Cutoff(at, window))
    requires window >= 0
    requires var kept := Survivors(h, Cutoff(at, window));
             && (forall x :: x in kept ==> x <= Unix(at))
             && (Unix(at) in kept ==> kept[|kept| - 1] == Unix(at))
             && (SameSecond(h, window, at) ==> kept == h)
    ensures Evidence(AfterReport(h, window, at), seen + {Unix(at)}, Cutoff(at, window))
  {
    var kept := Survivors(h, Cutoff(at, window));
    if SameSecond(h, window, at) {
      assert kept[|kept| - 1] in kept;
      assert AfterReport(h, window, at) == kept;
    } else {
      assert kept != [] ==> kept[|kept| - 1] in kept;
      AppendLargest(kept, Unix(at));
    }
  }

  lemma AppendLargest(h: seq<int>, x: int)
    requires StrictlyIncreasing(h)
    requires forall y :: y in h ==> y <= x
    requires h == [] || h[|h| - 1] != x
    ensures StrictlyIncreasing(h + [x])
    ensures forall y :: y in h + [x] <==> y in h || y == x
  {
    forall k | 0 <= k < |h| ensures h[k] < x {
      assert h[k] in h && h[|h| - 1] in h;
    }
  }

  lemma WholeSecondCutoff(at: int, seconds: int)
    ensures Cutoff(at, seconds * SECOND) == Unix(at) - seconds
  {
  }

  lemma UnixMonotone(a: int, b: int)
    requires a <= b
    ensures Unix(a) <= Unix(b)
  {
  }

  lemma ReportedSecondsStep(ops: seq<Op>)
    requires ops != []
    ensures var init, op := ops[..|ops| - 1], ops[|ops| - 1];
            ReportedSeconds(ops) == ReportedSeconds(init) + if op.Report? then {Unix(op.at)} else {}
  {
    var init, op := ops[..|ops| - 1], ops[|ops| - 1];
    assert forall i :: 0 <= i < |init| ==> ops[i] == init[i];
    forall x | x in ReportedSeconds(init) ensures x in ReportedSeconds(ops) {
      var i :| 0 <= i < |init| && init[i].Report? && x == Unix(init[i].at);
      assert ops[i].Report? && x == Unix(ops[i].at);
    }
    if op.Report? {
      assert Unix(ops[|ops| - 1].at) in ReportedSeconds(ops);
    }
  }

  /** No earlier report lies after the current second, so it can only be the last entry. */
  lemma LatestSecond(init: seq<Op>, kept: seq<int>, at: int, cutoff: int)
    requires forall i :: 0 <= i < |init| ==> init[i].at <= at
    requires Evidence(kept, ReportedSeconds(init), cutoff)
    ensures forall x :: x in kept ==> x <= Unix(at)
    ensures Unix(at) in kept ==> kept[|kept| - 1] == Unix(at)
  {
    forall x | x in kept ensures x <= Unix(at) {
      var i :| 0 <= i < |init| && init[i].Report? && x == Unix(init[i].at);
      UnixMonotone(init[i].at, at);
    }
    if Unix(at) in kept {
      var i :| 0 <= i < |kept| && kept[i] == Unix(at);
      assert kept[|kept| - 1] in kept;
    }
  }

  lemma SameSecondDropsNothing(init: seq<Op>, seconds: int, at: int)
    requires seconds >= 0
    requires init != [] ==> Evidence(Run(init, seconds * SECOND), ReportedSeconds(init),
             Unix(init[|init| - 1].at) - seconds)
    requires init != [] ==> init[|init| - 1].at <= at
    requires TimesNeverDecrease(init)
    requires SameSecond(Run(init, seconds * SECOND), seconds * SECOND, at)
    ensures Survivors(Run(init, seconds * SECOND), Cutoff(at, seconds * SECOND)) == Run(init, seconds * SECOND)
  {
    var h := Run(init, seconds * SECOND);
    var cutoff := Cutoff(at, seconds * SECOND);
    var kept := Survivors(h, cutoff);
    SurvivorsMembers(h, cutoff, Unix(at));
    var i :| 0 <= i < |init| && init[i].Report? && Unix(at) == Unix(init[i].at);
    UnixMonotone(init[i].at, init[|init| - 1].at);
    UnixMonotone(init[|init| - 1].at, at);
    WholeSecondCutoff(at, seconds);
    SurvivorsAll(h, cutoff);
    assert forall k :: 0 <= k < |h| ==> h[k] in h;
  }

  /** Eviction is decided by the distinct seconds alone: with a whole-second window the report that ends a
      run evicts exactly when the window holds at least `threshold` distinct reported seconds and this second
      was not reported before. */
  lemma EvictionIsThreshold(ops: seq<Op>, seconds: int, threshold: int, at: int)
    requires seconds >= 0
    requires TimesNeverDecrease(ops + [Report(at)])
    ensures var h := Run(ops, seconds * SECOND);
            var after := AfterReport(h, seconds * SECOND, at);
            var inWindow := set x | x in ReportedSeconds(ops + [Report(at)]) && x >= Unix(at) - seconds;
            && (SameSecond(h, seconds * SECOND, at) <==> Unix(at) in ReportedSeconds(ops))
            && (|after| >= threshold <==> |inWindow| >= threshold)
  {
    var all := ops + [Report(at)];
    assert all[..|all| - 1] == ops;
    HistoryIsEvidence(all, seconds);
    DistinctLength(Run(all, seconds * SECOND), set x | x in ReportedSeconds(all) && x >= Unix(at) - seconds);
    SameSecondIsReported(ops, seconds, at);
    hide SameSecond, ReportedSeconds;
  }

  lemma SameSecondIsReported(ops: seq<Op>, seconds: int, at: int)
    requires seconds >= 0
    requires TimesNeverDecrease(ops + [Report(at)])
    ensures SameSecond(Run(ops, seconds * SECOND), seconds * SECOND, at) <==> Unix(at) in ReportedSeconds(ops)
  {
    var all := ops + [Report(at)];
    var h := Run(ops, seconds * SECOND);
    var kept := Survivors(h, Cutoff(at, seconds * SECOND));
    WholeSecondCutoff(at, seconds);
    forall x ensures x in kept <==> x in h && x >= Unix(at) - seconds {
      SurvivorsMembers(h, Unix(at) - seconds, x);
    }
    if ops != [] {
      assert TimesNeverDecrease(ops) by {
        assert forall i :: 0 <= i < |ops| ==> all[i] == ops[i];
      }
      HistoryIsEvidence(ops, seconds);
      assert all[|ops| - 1] == ops[|ops| - 1] && all[|ops|] == Report(at);
      UnixMonotone(ops[|ops| - 1].at, at);
      SurvivorsIncreasing(h, Cutoff(at, seconds * SECOND));
      assert forall i :: 0 <= i < |ops| ==> all[i] == ops[i] && all[i].at <= all[|ops|].at;
      LatestSecond(ops, kept, at, Unix(at) - seconds);
      if SameSecond(h, seconds * SECOND, at) {
        assert kept[|kept| - 1] in kept;
      }
    }
  }

  lemma {:induction false} DistinctLength(h: seq<int>, s: set<int>)
    requires StrictlyIncreasing(h)
    requires forall x :: x in h <==> x in s
    ensures |h| == |s|
  {
    if h == [] {
      assert forall x :: x in s ==> x in h;
      assert s == {};
    } else {
      var init, last := h[..|h| - 1], h[|h| - 1];
      assert h == init + [last];
      assert last in h && last !in init;
      DistinctLength(init, s - {last});
    }
  }

  /** Pruning reads in between never change what a report decides or stores. */
  lemma PrunesDoNotMatter(ops: seq<Op>, seconds: int, at: int)
    requires seconds >= 0
    requires TimesNeverDecrease(ops + [Report(at)])
    ensures TimesNeverDecrease(Reports(ops) + [Report(at)])
    ensures Run(Reports(ops) + [Report(at)], seconds * SECOND) == Run(ops + [Report(at)], seconds * SECOND)
  {
    var all, bare := ops + [Report(at)], Reports(ops) + [Report(at)];
    ReportsKeepOrder(ops, at);
    HistoryIsEvidence(all, seconds);
    HistoryIsEvidence(bare, seconds);
    ReportsKeepSeconds(ops);
    assert all[..|all| - 1] == ops && bare[..|bare| - 1] == Reports(ops);
    ReportedSecondsStep(all);
    ReportedSecondsStep(bare);
    IncreasingUnique(Run(all, seconds * SECOND), Run(bare, seconds * SECOND));
  }

  function Reports(ops: seq<Op>): seq<Op> {
    if ops == [] then []
    else Reports(ops[..|ops| - 1]) + if ops[|ops| - 1].Report? then [ops[|ops| - 1]] else []
  }

  lemma {:induction false} ReportsMembers(ops: seq<Op>, op: Op)
    ensures op in Reports(ops) <==> op in ops && op.Report?
  {
    if ops != [] {
      ReportsMembers(ops[..|ops| - 1], op);
      assert ops == ops[..|ops| - 1] + [ops[|ops| - 1]];
    }
  }

  lemma {:induction false} ReportsKeepOrder(ops: seq<Op>, at: int)
    requires TimesNeverDecrease(ops + [Report(at)])
    ensures TimesNeverDecrease(Reports(ops) + [Report(at)])
  {
    if ops != [] {
      var init, last := ops[..|ops| - 1], ops[|ops| - 1];
      var all := ops + [Report(at)];
      assert forall i :: 0 <= i < |ops| ==> all[i] == ops[i];
      assert all[|ops|] == Report(at);
      assert TimesNeverDecrease(init + [Report(last.at)]);
      ReportsKeepOrder(init, last.at);
      var r := Reports(init) + [Report(last.at)];
      assert r[|r| - 1].at == last.at <= at;
      forall i | 0 <= i < |Reports(init)| ensures Reports(init)[i].at <= last.at {
        assert r[i] == Reports(init)[i];
      }
      if last.Report? {
        assert Reports(ops) == r;
      } else {
        assert forall i :: 0 <= i < |Reports(init)| ==> r[i] == Reports(init)[i];
      }
    }
  }

  lemma ReportsKeepSeconds(ops: seq<Op>)
    ensures ReportedSeconds(Reports(ops)) == ReportedSeconds(ops)
  {
    forall x ensures x in ReportedSeconds(Reports(ops)) <==> x in ReportedSeconds(ops) {
      if x in ReportedSeconds(Reports(ops)) {
        var i :| 0 <= i < |Reports(ops)| && Reports(ops)[i].Report? && x == Unix(Reports(ops)[i].at);
        ReportsMembers(ops, Reports(ops)[i]);
        var j :| 0 <= j < |ops| && ops[j] == Reports(ops)[i];
      }
      if x in ReportedSeconds(ops) {
        var i :| 0 <= i < |ops| && ops[i].Report? && x == Unix(ops[i].at);
        ReportsMembers(ops, ops[i]);
        var j :| 0 <= j < |Reports(ops)| && Reports(ops)[j] == ops[i];
      }
    }
  }

  lemma DropLast(h: seq<int>, init: seq<int>, last: int)
    requires StrictlyIncreasing(h) && h == init + [last]
    ensures StrictlyIncreasing(init)
    ensures forall z :: z in h ==> z <= last
    ensures forall z :: z in init <==> z in h && z != last
  {
    assert h[|init|] == last;
    assert forall i :: 0 <= i < |init| ==> h[i] == init[i];
  }

  lemma EmptyTogether(a: seq<int>, b: seq<int>)
    requires forall x :: x in a <==> x in b
    ensures a == [] <==> b == []
  {
    if a != [] {
      var x := a[0];
      assert x in a && x in b;
    }
    if b != [] {
      var x := b[0];
      assert x in b && x in a;
    }
  }

  lemma {:induction false} IncreasingUnique(a: seq<int>, b: seq<int>)
    requires StrictlyIncreasing(a) && StrictlyIncreasing(b)
    requires forall x :: x in a <==> x in b
    ensures a == b
  {
    hide StrictlyIncreasing;
    EmptyTogether(a, b);
    if a != [] {
      var x, y := a[|a| - 1], b[|b| - 1];
      assert x in a && y in b;
      var a', b' := a[..|a| - 1], b[..|b| - 1];
      DropLast(a, a', x);
      DropLast(b, b', y);
      assert x <= y by { assert x in b; }
      assert y <= x by { assert y in a; }
      forall z ensures z in a' <==> z in b' {
        assert z in a' <==> z in a && z != x;
        assert z in b' <==> z in b && z != y;
      }
      IncreasingUnique(a', b');
      assert x == y && a' == b';
      assert a == a' + [x] && b == b' + [y];
    }
  }

  // -------------------------------------------------------------------------------------------
  // Fractional windows
  // -------------------------------------------------------------------------------------------

  /** The early return leaves the history as it was exactly when no entry fell out of the window; otherwise
      it duplicates the second just reported. */
  lemma EarlyReturnIntactIff(h: seq<int>, window: int, at: int)
    requires StrictlyIncreasing(h) && SameSecond(h, window, at)
    ensures AfterReport(h, window, at) == h <==> h[0] >= Cutoff(at, window)
    ensures StrictlyIncreasing(AfterReport(h, window, at)) <==> h[0] >= Cutoff(at, window)
  {
    var cutoff := Cutoff(at, window);
    var kept := Survivors(h, cutoff);
    SurvivorsAll(h, cutoff);
    SurvivorsMembers(h, cutoff, Unix(at));
    assert kept[|kept| - 1] in kept && |kept| > 0;
    var last := h[|h| - 1];
    if h[0] >= cutoff {
      assert kept == h;
      assert kept + h[|kept|..] == h;
    } else {
      assert |kept| < |h|;
      // The largest entry survives too, so it now stands both at the end of the prefix and at the end.
      SurvivorsMembers(h, cutoff, last);
      assert last in h;
      assert last >= Unix(at) by {
        var i :| 0 <= i < |h| && h[i] == Unix(at);
      }
      SurvivorsIncreasing(h, cutoff);
      var after := AfterReport(h, window, at);
      assert last in kept;
      var i :| 0 <= i < |kept| && kept[i] == last;
      assert after[|after| - 1] == last && after[i] == last && i < |after| - 1;
    }
  }

  /** The history is the evidence in the window, whatever is reported or pruned, and whenever. */
  ghost predicate AlwaysEvidence(window: int) {
    forall ops: seq<Op> :: ops != [] && TimesNeverDecrease(ops) ==>
      Evidence(Run(ops, window), ReportedSeconds(ops), Cutoff(ops[|ops| - 1].at, window))
  }

  /** What a caller has to know: the histories are sound in all runs if and only if the window is a whole number of
      seconds. */
  lemma AlwaysEvidenceIff(window: int)
    requires window > 0
    ensures AlwaysEvidence(window) <==> window % SECOND == 0
  {
    var k, f := window / SECOND, window % SECOND;
    assert window == k * SECOND + f;
    if f == 0 {
      forall ops: seq<Op> | ops != [] && TimesNeverDecrease(ops)
        ensures Evidence(Run(ops, window), ReportedSeconds(ops), Cutoff(ops[|ops| - 1].at, window))
      {
        assert window == k * SECOND;
        HistoryIsEvidence(ops, k);
        WholeSecondCutoff(ops[|ops| - 1].at, k);
      }
    } else {
      FractionalWindowOvercounts(k, f);
      hide Run, ReportedSeconds, Cutoff, SameSecond;
      var b, c := (k + 1) * SECOND, (k + 1) * SECOND + f;
      var ops := [Report(0), Report(b), Report(c)];
      assert TimesNeverDecrease(ops);
      assert Run(ops, window)[0] == Run(ops, window)[1];
    }
  }

  /** Every fractional window, however long: two reports in one second are entered twice once an older entry has
      expired between them, and the next second makes three entries of two seconds. */
  lemma FractionalWindowOvercounts(k: nat, f: nat)
    requires 0 < f < SECOND
    ensures
      var window, b, c, d := k * SECOND + f, (k + 1) * SECOND, (k + 1) * SECOND + f, (k + 2) * SECOND;
      && Run([Report(0), Report(b), Report(c)], window) == [k + 1, k + 1]
      && !SameSecond([k + 1, k + 1], window, d)
      && Run([Report(0), Report(b), Report(c), Report(d)], window) == [k + 1, k + 1, k + 2]
  {
    hide Survivors, AfterReport, SameSecond, Cutoff, Unix, Run;
    FractionalCutoffs(k, f);
    Overcounts(k * SECOND + f, k + 1, (k + 1) * SECOND, (k + 1) * SECOND + f, (k + 2) * SECOND);
  }

  lemma Overcounts(window: int, second: int, b: int, c: int, d: int)
    requires second > 0 && Unix(0) == 0 && Unix(b) == second == Unix(c) && Unix(d) == second + 1
    requires Cutoff(b, window) == 0 && Cutoff(c, window) == 1 == Cutoff(d, window)
    ensures Run([Report(0), Report(b), Report(c)], window) == [second, second]
    ensures !SameSecond([second, second], window, d)
    ensures Run([Report(0), Report(b), Report(c), Report(d)], window) == [second, second, second + 1]
  {
    hide Survivors, AfterReport, SameSecond, Cutoff, Unix;
    RunStep([], Report(0), window);
    RunStep([Report(0)], Report(b), window);
    RunStep([Report(0), Report(b)], Report(c), window);
    RunStep([Report(0), Report(b), Report(c)], Report(d), window);
    assert [] + [Report(0)] == [Report(0)] && [Report(0)] + [Report(b)] == [Report(0), Report(b)]
        && [Report(0), Report(b)] + [Report(c)] == [Report(0), Report(b), Report(c)]
        && [Report(0), Report(b), Report(c)] + [Report(d)] == [Report(0), Report(b), Report(c), Report(d)];
    FirstReport(window, 0);
    SurvivorsStep([], 0, 0);
    NoSurvivors(0);
    LaterSecondIsAppended([0], window, b);
    assert [0] + [second] == [0, second];
    OldEntryIsOverwritten(0, second, window, c);
    DuplicateCountsTwice(second, window, d);
  }

  lemma FractionalCutoffs(k: nat, f: nat)
    requires 0 < f < SECOND
    ensures var window, b, c, d := k * SECOND + f, (k + 1) * SECOND, (k + 1) * SECOND + f, (k + 2) * SECOND;
            && Unix(0) == 0 && Unix(b) == k + 1 == Unix(c) && Unix(d) == k + 2
            && Cutoff(b, window) == 0 && Cutoff(c, window) == 1 == Cutoff(d, window)
  {
  }

  lemma FirstReport(window: int, at: int)
    ensures AfterReport([], window, at) == [Unix(at)]
  {
  }

  lemma OldEntryIsOverwritten(x: int, y: int, window: int, at: int)
    requires x < Cutoff(at, window) <= y == Unix(at)
    ensures AfterReport([x, y], window, at) == [y, y]
  {
    var cutoff := Cutoff(at, window);
    assert [x] + [y] == [x, y] && [] + [x] == [x];
    SurvivorsStep([x], y, cutoff);
    SurvivorsStep([], x, cutoff);
    assert Survivors([x, y], cutoff) == [y];
    assert [x, y][1..] == [y] && [y] + [y] == [y, y];
  }

  lemma DuplicateCountsTwice(y: int, window: int, at: int)
    requires Cutoff(at, window) <= y < Unix(at)
    ensures !SameSecond([y, y], window, at)
    ensures AfterReport([y, y], window, at) == [y, y, Unix(at)]
  {
    hide Survivors, AfterReport, SameSecond, Cutoff, Unix;
    var cutoff, twice := Cutoff(at, window), [y] + [y];
    assert twice == [y, y];
    SurvivorsStep([y], y, cutoff);
    SurvivorsStep([], y, cutoff);
    NoSurvivors(cutoff);
    assert Survivors(twice, cutoff) == twice;
    LaterSecondIsAppended(twice, window, at);
    assert twice + [Unix(at)] == [y, y, Unix(at)];
  }

  lemma NoSurvivors(cutoff: int)
    ensures Survivors([], cutoff) == []
  {
  }

  lemma LaterSecondIsAppended(h: seq<int>, window: int, at: int)
    requires Survivors(h, Cutoff(at, window)) == h && h != [] && h[|h| - 1] < Unix(at)
    ensures !SameSecond(h, window, at) && AfterReport(h, window, at) == h + [Unix(at)]
  {
  }

  lemma RunStep(ops: seq<Op>, op: Op, window: int)
    ensures Run(ops + [op], window) == Apply(Run(ops, window), window, op)
  {
    assert (ops + [op])[..|ops|] == ops;
  }

  lemma SurvivorsStep(h: seq<int>, x: int, cutoff: int)
    ensures Survivors(h + [x], cutoff) == Survivors(h, cutoff) + if x >= cutoff then [x] else []
    ensures [] + [x] == [x]
  {
    assert (h + [x])[..|h|] == h;
  }
}
