/** The background writer from the outside: which orders of events it keeps safe, whatever its worker, the store and the
    other writer do meanwhile. */
module PersisterOrder {
  import opened MemberRows
  import opened StatePersister

  /** The events accepted for a member in the first `n` steps. */
  function AcceptedIn(trace: seq<State>, acts: seq<Action>, k: Key, n: nat): seq<NodeState>
    requires n <= |acts| < |trace|
  {
    if n == 0 then []
    else
      var before := AcceptedIn(trace, acts, k, n - 1);
      if Accepts(trace[n - 1], acts[n - 1], k) then before + [acts[n - 1].event] else before
  }

  /** A run in which exactly these events are accepted for the member, in this order. */
  ghost predicate Brings(trace: seq<State>, acts: seq<Action>, k: Key, evs: seq<NodeState>) {
    |trace| == |acts| + 1 && Took(trace, acts) && AcceptedIn(trace, acts, k, |acts|) == evs
  }

  // Versioned events of one member, a revision identifying a state.
  predicate OfMember(k: Key, evs: seq<NodeState>) {
    && k.nodeId != 0
    && (forall i :: 0 <= i < |evs| ==> KeyOf(evs[i]) == k && evs[i].revision != 0)
    && (forall i, j :: 0 <= i < |evs| && 0 <= j < |evs| && evs[i].revision == evs[j].revision ==> evs[i] == evs[j])
  }

  predicate LastIsNewest(evs: seq<NodeState>) {
    forall i :: 0 <= i < |evs| ==> evs[i].revision <= evs[|evs| - 1].revision
  }

  predicate NonDecreasing(evs: seq<NodeState>) {
    forall i, j :: 0 <= i <= j < |evs| ==> evs[i].revision <= evs[j].revision
  }

  // The two accepted states a writer remembers, by the events that came.
  ghost predicate Remembers(log: Accepted, k: Key, evs: seq<NodeState>) {
    if evs == [] then k !in log.last && k !in log.newest
    else
      && k in log.last && log.last[k] == evs[|evs| - 1]
      && k in log.newest && log.newest[k] in evs
      && (forall i :: 0 <= i < |evs| ==> evs[i].revision <= log.newest[k].revision)
      && (evs[|evs| - 1].revision == log.newest[k].revision ==> evs[|evs| - 1] == log.newest[k])
  }

  lemma RemembersMore(log: Accepted, k: Key, evs: seq<NodeState>, e: NodeState)
    requires Remembers(log, k, evs) && KeyOf(e) == k && SameVersionSameState(log.newest, e)
    ensures Remembers(Accept(log, e), k, evs + [e])
  {
    var all := evs + [e];
    assert all[|evs|] == e && forall i :: 0 <= i < |evs| ==> all[i] == evs[i];
    assert Accept(log, e).newest[k] in all;
  }

  lemma StepRemembers(s: State, a: Action, k: Key, evs: seq<NodeState>)
    requires Enabled(s, a) && Remembers(s.accepted, k, evs)
    ensures Remembers(Next(s, a).accepted, k, if Accepts(s, a, k) then evs + [a.event] else evs)
  {
    LogMoves(s, a, k);
    hide Enabled, Next;
    if Accepts(s, a, k) {
      RemembersMore(s.accepted, k, evs, a.event);
    }
  }

  lemma LogMoves(s: State, a: Action, k: Key)
    requires Enabled(s, a)
    ensures Accepts(s, a, k) ==>
              Next(s, a).accepted == Accept(s.accepted, a.event) && SameVersionSameState(s.accepted.newest, a.event)
    ensures !Accepts(s, a, k) ==>
              Get(Next(s, a).accepted.last, k) == Get(s.accepted.last, k)
              && Get(Next(s, a).accepted.newest, k) == Get(s.accepted.newest, k)
  {
    hide Detached, WroteRow, EndedWrites, PutBackAll, DetachedCurrent, WroteCurrent, Upsert, Newer,
      SameVersionSameState;
    if a.Observe? {
      ObserveMovesLog(s, a, k);
    } else {
      OthersKeepLog(s, a);
    }
  }

  lemma ObserveMovesLog(s: State, a: Action, k: Key)
    requires Enabled(s, a) && a.Observe?
    ensures Accepts(s, a, k) ==>
              Next(s, a).accepted == Accept(s.accepted, a.event) && SameVersionSameState(s.accepted.newest, a.event)
    ensures !Accepts(s, a, k) ==>
              Get(Next(s, a).accepted.last, k) == Get(s.accepted.last, k)
              && Get(Next(s, a).accepted.newest, k) == Get(s.accepted.newest, k)
  {
    hide Detached, WroteRow, EndedWrites, PutBackAll, DetachedCurrent, WroteCurrent, Upsert, SameVersionSameState;
  }

  lemma OthersKeepLog(s: State, a: Action)
    requires Enabled(s, a) && !a.Observe?
    ensures Next(s, a).accepted == s.accepted
  {
    hide Observed, Detached, WroteRow, EndedWrites, PutBackAll, DetachedCurrent, WroteCurrent, Upsert;
    match a
    case WriteRow(k, ok) => WriteKeepsLog(s, k, ok);
    case Detach => BatchKeepsLog(s);
    case EndWrites => BatchKeepsLog(s);
    case PutBack => BatchKeepsLog(s);
    case DetachCurrent => DetachUntouched(s);
    case WriteCurrent(g, w) => FlushUntouched(s, g, w);
    case _ =>
  }

  lemma WriteKeepsLog(s: State, k: Key, ok: bool)
    requires s.pc.Writing? && k in s.pc.todo
    ensures WroteRow(s, k, ok).accepted == s.accepted
  {
    hide Upsert;
  }

  lemma BatchKeepsLog(s: State)
    ensures Detached(s).accepted == s.accepted
    ensures s.pc.Writing? ==> EndedWrites(s).accepted == s.accepted
    ensures s.pc.Requeue? ==> PutBackAll(s).accepted == s.accepted
  {
    hide Upsert;
  }

  lemma {:induction false} RunRemembers(trace: seq<State>, acts: seq<Action>, k: Key, n: nat)
    requires Took(trace, acts) && n <= |acts|
    ensures Remembers(trace[n].accepted, k, AcceptedIn(trace, acts, k, n))
  {
    hide Enabled, Next, Accepts, Remembers;
    if n == 0 {
      StartRemembers(trace[0], k);
    } else {
      RunRemembers(trace, acts, k, n - 1);
      assert Enabled(trace[n - 1], acts[n - 1]) && trace[n - 1 + 1] == Next(trace[n - 1], acts[n - 1]);
      StepRemembers(trace[n - 1], acts[n - 1], k, AcceptedIn(trace, acts, k, n - 1));
    }
  }

  lemma StartRemembers(s: State, k: Key)
    requires Initial(s)
    ensures Remembers(s.accepted, k, [])
  {
  }

  // A beginning of a run is a run.
  lemma TookRuns(trace: seq<State>, acts: seq<Action>, n: nat)
    requires Took(trace, acts) && n <= |acts|
    ensures Run(trace[..n + 1])
  {
    hide Enabled, Next;
    var shorter := trace[..n + 1];
    forall i | 0 < i < |shorter| ensures Follows(shorter[i - 1], shorter[i]) {
      assert Enabled(trace[i - 1], acts[i - 1]) && trace[i - 1 + 1] == Next(trace[i - 1], acts[i - 1]);
    }
  }

  /** While the last event is the newest, the newest is safe. */
  lemma LastNewestSurvives(trace: seq<State>, acts: seq<Action>, k: Key, n: nat)
    requires Took(trace, acts) && n <= |acts| && LastIsNewest(AcceptedIn(trace, acts, k, n))
    ensures Survives(trace[n], k)
  {
    TookRuns(trace, acts, n);
    RunRemembers(trace, acts, k, n);
    hide Run, Inv, Enabled, Next, Remembers, LastIsNewest, Survives;
    RunKeepsInv(trace[..n + 1]);
    assert Inv(trace[n]);
    KeptOne(trace[n], k);
    RememberedSurvives(trace[n], k, AcceptedIn(trace, acts, k, n));
  }

  lemma RememberedSurvives(s: State, k: Key, evs: seq<NodeState>)
    requires KeptIn(s, k) && Remembers(s.accepted, k, evs) && LastIsNewest(evs)
    ensures Survives(s, k)
  {
    hide InHand;
    if evs != [] {
      var i :| 0 <= i < |evs| && evs[i] == s.accepted.newest[k];
      assert s.accepted.newest[k] == s.accepted.last[k];
    }
  }

  lemma KeptOne(s: State, k: Key)
    requires Inv(s)
    ensures KeptIn(s, k)
  {
  }

  // -------------------------------------------------------------------------------------------
  // A run that loses
  // -------------------------------------------------------------------------------------------

  lemma {:induction false} SamePrefix(trace: seq<State>, acts: seq<Action>, k: Key, n: nat, s: State, a: Action)
    requires n <= |acts| < |trace|
    ensures AcceptedIn(trace + [s], acts + [a], k, n) == AcceptedIn(trace, acts, k, n)
  {
    if n > 0 {
      SamePrefix(trace, acts, k, n - 1, s, a);
    }
  }

  lemma Extended(trace: seq<State>, acts: seq<Action>, a: Action, k: Key)
    requires Took(trace, acts) && Enabled(trace[|acts|], a)
    ensures var trace', acts' := trace + [Next(trace[|acts|], a)], acts + [a];
            && Took(trace', acts') && trace'[|acts'|] == Next(trace[|acts|], a)
            && AcceptedIn(trace', acts', k, |acts'|) ==
               AcceptedIn(trace, acts, k, |acts|) + if Accepts(trace[|acts|], a, k) then [a.event] else []
  {
    hide Enabled, Next, Accepts;
    var t := Next(trace[|acts|], a);
    var trace', acts' := trace + [t], acts + [a];
    forall i | 0 <= i < |acts'| ensures Enabled(trace'[i], acts'[i]) && trace'[i + 1] == Next(trace'[i], acts'[i]) {
      if i < |acts| {
        assert Enabled(trace[i], acts[i]) && trace[i + 1] == Next(trace[i], acts[i]);
      }
    }
    SamePrefix(trace, acts, k, |acts|, t, a);
  }

  // Nothing was written, the last event waits alone.
  predicate WaitsAlone(s: State, k: Key, evs: seq<NodeState>) {
    && s.rows == map[] && s.pc == Idle && !s.closed && s.mode == Running && s.current == map[] && !s.lost
    && s.pending == if evs == [] then map[] else map[k := evs[|evs| - 1]]
  }

  // The events come one by one, and after each of them it waits alone.
  ghost predicate Observes(trace: seq<State>, acts: seq<Action>, k: Key, evs: seq<NodeState>) {
    && Brings(trace, acts, k, evs) && |acts| == |evs|
    && forall n :: 0 <= n <= |evs| ==> AcceptedIn(trace, acts, k, n) == evs[..n] && WaitsAlone(trace[n], k, evs[..n])
  }

  // The worker sleeps while all the events come.
  lemma {:induction false} ObserveAll(k: Key, evs: seq<NodeState>) returns (trace: seq<State>, acts: seq<Action>)
    requires OfMember(k, evs)
    ensures |trace| == |acts| + 1 && Observes(trace, acts, k, evs)
  {
    hide Observes;
    if evs == [] {
      trace, acts := Nothing(k);
    } else {
      var init, e := evs[..|evs| - 1], evs[|evs| - 1];
      var before, done := ObserveAll(k, init);
      assert init + [e] == evs;
      trace, acts := ObserveMore(before, done, k, init, e);
    }
  }

  lemma ObserveMore(before: seq<State>, done: seq<Action>, k: Key, evs: seq<NodeState>, e: NodeState)
      returns (trace: seq<State>, acts: seq<Action>)
    requires Observes(before, done, k, evs) && OfMember(k, evs + [e])
    ensures |trace| == |acts| + 1 && Observes(trace, acts, k, evs + [e])
  {
    hide Took, Enabled, Next, WaitsAlone, Remembers, Accepts, OfMember;
    var s, a, all := before[|evs|], Observe(e, true, false, 0), evs + [e];
    assert evs[..|evs|] == evs && all[..|all|] == all;
    RunRemembers(before, done, k, |done|);
    ObserveOne(s, k, evs, e);
    Extended(before, done, a, k);
    trace, acts := before + [Next(s, a)], done + [a];
    forall n | 0 <= n <= |all| ensures AcceptedIn(trace, acts, k, n) == all[..n] && WaitsAlone(trace[n], k, all[..n]) {
      if n < |all| {
        SamePrefix(before, done, k, n, Next(s, a), a);
        assert all[..n] == evs[..n] && trace[n] == before[n];
      }
    }
  }

  lemma Nothing(k: Key) returns (trace: seq<State>, acts: seq<Action>)
    ensures |trace| == |acts| + 1 && Observes(trace, acts, k, [])
  {
    trace := [State(map[], map[], false, Running, Idle, map[], map[], Accepted(map[], map[]), map[], false, {})];
    acts := [];
  }

  lemma ObserveOne(s: State, k: Key, evs: seq<NodeState>, e: NodeState)
    requires WaitsAlone(s, k, evs) && Remembers(s.accepted, k, evs) && OfMember(k, evs + [e])
    ensures var a := Observe(e, true, false, 0);
            Enabled(s, a) && Accepts(s, a, k) && WaitsAlone(Next(s, a), k, evs + [e])
  {
    var all := evs + [e];
    assert all[|evs|] == e && forall i :: 0 <= i < |evs| ==> all[i] == evs[i];
    if evs != [] {
      var i :| 0 <= i < |evs| && evs[i] == s.accepted.newest[k];
    }
  }

  lemma WaitingOlderIsLost(trace: seq<State>, acts: seq<Action>, k: Key, n: nat)
    requires Took(trace, acts) && n <= |acts| && WaitsAlone(trace[n], k, AcceptedIn(trace, acts, k, n))
    requires !LastIsNewest(AcceptedIn(trace, acts, k, n))
    ensures !Survives(trace[n], k)
  {
    hide Took;
    RunRemembers(trace, acts, k, n);
  }

  /** What a caller can check. A sequence of events of one member leaves its newest state safe at the end of every run
      that brings it, however the worker, failing writes and the other writer fall in, if and only if its last event is
      its newest. */
  lemma SafeAtEndIff(k: Key, evs: seq<NodeState>)
    requires OfMember(k, evs)
    ensures (forall trace, acts :: Brings(trace, acts, k, evs) ==> Survives(trace[|acts|], k)) <==> LastIsNewest(evs)
  {
    hide Survives, Took, LastIsNewest, WaitsAlone;
    if LastIsNewest(evs) {
      forall trace, acts | Brings(trace, acts, k, evs) ensures Survives(trace[|acts|], k) {
        LastNewestSurvives(trace, acts, k, |acts|);
      }
    } else {
      var trace, acts := ObserveAll(k, evs);
      assert evs[..|evs|] == evs;
      WaitingOlderIsLost(trace, acts, k, |evs|);
    }
  }

  /** And at every moment of every such run, if and only if the events come in non-decreasing order of revision. */
  lemma AlwaysSafeIff(k: Key, evs: seq<NodeState>)
    requires OfMember(k, evs)
    ensures (forall trace, acts, n: nat :: Brings(trace, acts, k, evs) && n <= |acts| ==> Survives(trace[n], k))
       <==> NonDecreasing(evs)
  {
    hide Survives, Took, WaitsAlone, NonDecreasing, LastIsNewest;
    if NonDecreasing(evs) {
      forall trace, acts, n: nat | Brings(trace, acts, k, evs) && n <= |acts| ensures Survives(trace[n], k) {
        AcceptedPrefix(trace, acts, k, n, |acts|);
        PrefixIsNewest(evs, AcceptedIn(trace, acts, k, n));
        LastNewestSurvives(trace, acts, k, n);
      }
    } else {
      var n := FirstDescent(evs);
      var trace, acts := ObserveAll(k, evs);
      assert AcceptedIn(trace, acts, k, n) == evs[..n];
      WaitingOlderIsLost(trace, acts, k, n);
    }
  }

  lemma PrefixIsNewest(evs: seq<NodeState>, some: seq<NodeState>)
    requires NonDecreasing(evs) && some <= evs
    ensures LastIsNewest(some)
  {
  }

  lemma FirstDescent(evs: seq<NodeState>) returns (n: nat)
    requires !NonDecreasing(evs)
    ensures n <= |evs| && !LastIsNewest(evs[..n])
  {
    var i, j :| 0 <= i <= j < |evs| && evs[i].revision > evs[j].revision;
    n := j + 1;
    assert evs[..n][i].revision > evs[..n][|evs[..n]| - 1].revision;
  }

  lemma {:induction false} AcceptedPrefix(trace: seq<State>, acts: seq<Action>, k: Key, n: nat, m: nat)
    requires n <= m <= |acts| < |trace|
    ensures AcceptedIn(trace, acts, k, n) <= AcceptedIn(trace, acts, k, m)
  {
    if n < m {
      AcceptedPrefix(trace, acts, k, n, m - 1);
    }
  }

  // -------------------------------------------------------------------------------------------
  // What is stored in the end
  // -------------------------------------------------------------------------------------------

  // A shutdown in which every write succeeds.
  predicate CleanEnd(s: State) {
    s.mode.Finished? && !s.lost
  }

  /** In the store: every run that brings these events and ends in a clean shutdown leaves a row at least as new as all
      of them, if and only if the last one is the newest. */
  lemma StoredAtEndIff(k: Key, evs: seq<NodeState>)
    requires OfMember(k, evs)
    ensures (forall trace, acts :: Brings(trace, acts, k, evs) && CleanEnd(trace[|acts|]) ==> Stored(trace[|acts|], k))
       <==> LastIsNewest(evs)
  {
    hide Survives, Stored, Took, LastIsNewest, WaitsAlone, MadeUp;
    if LastIsNewest(evs) {
      forall trace, acts | Brings(trace, acts, k, evs) && CleanEnd(trace[|acts|]) ensures Stored(trace[|acts|], k) {
        LastNewestSurvives(trace, acts, k, |acts|);
        NewestSurvivesIff(trace, acts, k, |acts|);
        ShutdownStoresNewestIff(trace, acts, k);
      }
    } else {
      assert evs != [] by { assert LastIsNewest([]) by { SingleIsNewest(); } }
      var trace, acts := ShutDownAfter(k, evs);
      RunRemembers(trace, acts, k, |acts|);
      OlderRowOnly(trace[|acts|], k, evs);
    }
  }

  lemma SingleIsNewest()
    ensures LastIsNewest([])
  {
  }

  lemma OlderRowOnly(s: State, k: Key, evs: seq<NodeState>)
    requires evs != [] && s.rows == map[k := evs[|evs| - 1]] && Remembers(s.accepted, k, evs) && !LastIsNewest(evs)
    ensures !Stored(s, k)
  {
  }

  // All the events come, then the queue is shut down and its one row written.
  lemma ShutDownAfter(k: Key, evs: seq<NodeState>) returns (trace: seq<State>, acts: seq<Action>)
    requires OfMember(k, evs) && !LastIsNewest(evs)
    ensures Brings(trace, acts, k, evs) && CleanEnd(trace[|acts|]) && trace[|acts|].rows == map[k := evs[|evs| - 1]]
  {
    trace, acts := ObserveAll(k, evs);
    var e := evs[|evs| - 1];
    assert evs[..|evs|] == evs;
    hide Took;
    trace, acts := Then(trace, acts, Close, k);
    trace, acts := Then(trace, acts, WorkerExits, k);
    trace, acts := Then(trace, acts, Detach, k);
    assert trace[|acts|].pc == Writing(map[k := e], map[]);
    trace, acts := Then(trace, acts, WriteRow(k, true), k);
    assert map[k := e] - {k} == map[];
    assert trace[|acts|].rows == map[k := e];
    trace, acts := Then(trace, acts, EndWrites, k);
    trace, acts := Then(trace, acts, DetachCurrent, k);
    trace, acts := Then(trace, acts, EndFlush, k);
    trace, acts := Then(trace, acts, Finish, k);
  }

  lemma Then(trace: seq<State>, acts: seq<Action>, a: Action, k: Key) returns (trace': seq<State>, acts': seq<Action>)
    requires Took(trace, acts) && Enabled(trace[|acts|], a) && !a.Observe?
    ensures Took(trace', acts') && trace'[|acts'|] == Next(trace[|acts|], a)
    ensures AcceptedIn(trace', acts', k, |acts'|) == AcceptedIn(trace, acts, k, |acts|)
  {
    Extended(trace, acts, a, k);
    trace', acts' := trace + [Next(trace[|acts|], a)], acts + [a];
  }
}
