/** Notices that never enter the journal: events handed over in memory, and requests for a snapshot. */
module HealthNotices {
  import opened Basics
  import opened MemberRows
  import opened HealthDelivery
  import opened HealthOpening

  // The events of the inline calls, in order.
  function InlineCalls(calls: seq<Call>): seq<Row> {
    if calls == [] then []
    else
      var before, item := InlineCalls(calls[..|calls| - 1]), calls[|calls| - 1].item;
      if item.Inline? then before + [item.event] else before
  }

  // Closing and registering anew end a registration.
  predicate Ends(a: Action) {
    a.Close? || a.Restart?
  }

  /** The inline notices that found room. */
  ghost function Accepted(s: State, acts: seq<Action>): seq<Row>
    decreases |acts|
  {
    if acts == [] || !Enabled(s, acts[0]) then []
    else
      var now := if acts[0].NotifyInline? && |s.sub.inline| < 1024 then [acts[0].event] else [];
      now + Accepted(Next(s, acts[0]), acts[1..])
  }

  lemma InlineStep(s: State, a: Action)
    requires Enabled(s, a) && !Ends(a) && !s.sub.closed
    ensures var t := Next(s, a);
            && !t.sub.closed
            && InlineCalls(t.log.calls) + t.sub.inline
               == InlineCalls(s.log.calls) + s.sub.inline
                  + if a.NotifyInline? && |s.sub.inline| < 1024 then [a.event] else []
  {
    hide UpsertAll, Record, Restore, List, Takes;
    if a.Worker? {
      WorkInline(s, a.answer);
    }
  }

  // What a step of the worker calls.
  function Called(s: State): Option<Item>
    requires WorkEnabled(s)
  {
    match s.pc
    case PopInline => if s.sub.closed || s.sub.inline == [] then None else Some(Inline(s.sub.inline[0]))
    case Batch(rows, i) =>
      if i < |rows| && !s.sub.closed && Takes(s.f, rows[i]) then Some(Journal(rows[i])) else None
    case TakeRefresh => if s.sub.closed || !s.sub.refresh then None else Some(Snapshot)
    case _ => None
  }

  lemma WorkCalls(s: State, a: Answer)
    requires WorkEnabled(s)
    ensures var t, item := Work(s, a), Called(s);
            && t.log.calls == (if item.Some? then s.log.calls + [Call(item.value, a.states)] else s.log.calls)
            && t.sub.inline == (if item.Some? && item.value.Inline? then s.sub.inline[1..] else s.sub.inline)
            && t.sub.refresh == (s.sub.refresh && !(item.Some? && item.value.Snapshot?))
            && t.sub.closed == s.sub.closed
  {
    hide UpsertAll, Record, Restore, List, Takes;
  }

  lemma OneCall(calls: seq<Call>, c: Call)
    ensures InlineCalls(calls + [c]) == InlineCalls(calls) + if c.item.Inline? then [c.item.event] else []
    ensures Snapshots(calls + [c]) == Snapshots(calls) + if c.item.Snapshot? then 1 else 0
  {
    assert (calls + [c])[..|calls|] == calls;
  }

  lemma OneInline(calls: seq<Call>, waiting: seq<Row>, states: seq<NodeState>)
    requires waiting != []
    ensures InlineCalls(calls + [Call(Inline(waiting[0]), states)]) + waiting[1..] == InlineCalls(calls) + waiting
  {
    OneCall(calls, Call(Inline(waiting[0]), states));
    assert waiting == [waiting[0]] + waiting[1..];
  }

  lemma WorkInline(s: State, a: Answer)
    requires WorkEnabled(s) && !s.sub.closed
    ensures var t := Work(s, a);
            !t.sub.closed && InlineCalls(t.log.calls) + t.sub.inline == InlineCalls(s.log.calls) + s.sub.inline
  {
    hide Work, InlineCalls;
    WorkCalls(s, a);
    var item := Called(s);
    if item.Some? {
      OneCall(s.log.calls, Call(item.value, a.states));
      if item.value.Inline? {
        OneInline(s.log.calls, s.sub.inline, a.states);
      }
    }
  }

  /** While a registration lasts, the inline events called, followed by those that wait, are those accepted, each once
      and in order. */
  lemma {:induction false} InlineOnceInOrder(s: State, acts: seq<Action>, t: State)
    requires Leads(s, acts, t) && !s.sub.closed && forall i :: 0 <= i < |acts| ==> !Ends(acts[i])
    ensures InlineCalls(t.log.calls) + t.sub.inline == InlineCalls(s.log.calls) + s.sub.inline + Accepted(s, acts)
    decreases |acts|
  {
    hide Next, Enabled, InlineCalls;
    if acts != [] {
      InlineStep(s, acts[0]);
      InlineOnceInOrder(Next(s, acts[0]), acts[1..], t);
    }
  }

  function Snapshots(calls: seq<Call>): nat {
    if calls == [] then 0
    else Snapshots(calls[..|calls| - 1]) + if calls[|calls| - 1].item.Snapshot? then 1 else 0
  }

  // A snapshot was asked for and not yet called.
  function Waiting(s: State): nat {
    if s.sub.refresh then 1 else 0
  }

  function Requests(acts: seq<Action>): nat {
    if acts == [] then 0 else (if acts[0].NotifySnapshot? then 1 else 0) + Requests(acts[1..])
  }

  lemma SnapshotStep(s: State, a: Action)
    requires Enabled(s, a) && !Ends(a) && !s.sub.closed
    ensures var t := Next(s, a);
            && !t.sub.closed
            && (a.NotifySnapshot? ==> t.sub.refresh && t.log.calls == s.log.calls)
            && Snapshots(t.log.calls) >= Snapshots(s.log.calls)
            && (!a.NotifySnapshot? ==> Snapshots(t.log.calls) + Waiting(t) == Snapshots(s.log.calls) + Waiting(s))
  {
    hide UpsertAll, Record, Restore, List, Takes;
    if a.Worker? {
      WorkSnapshot(s, a.answer);
    }
  }

  lemma WorkSnapshot(s: State, a: Answer)
    requires WorkEnabled(s) && !s.sub.closed
    ensures var t := Work(s, a);
            && !t.sub.closed && Snapshots(t.log.calls) + Waiting(t) == Snapshots(s.log.calls) + Waiting(s)
            && Snapshots(t.log.calls) >= Snapshots(s.log.calls)
  {
    hide Work, Snapshots;
    WorkCalls(s, a);
    var item := Called(s);
    if item.Some? {
      OneCall(s.log.calls, Call(item.value, a.states));
    }
  }

  /** While a registration lasts, a request for a snapshot is answered by a call or still waits, several requests may be
      answered by one call, and no snapshot is called without a request. */
  lemma {:induction false} SnapshotAnswers(s: State, acts: seq<Action>, t: State)
    requires Leads(s, acts, t) && !s.sub.closed && forall i :: 0 <= i < |acts| ==> !Ends(acts[i])
    ensures var due := Snapshots(s.log.calls) + Waiting(s);
            && due <= Snapshots(t.log.calls) + Waiting(t) <= due + Requests(acts)
            && (Requests(acts) > 0 ==> Snapshots(t.log.calls) + Waiting(t) > Snapshots(s.log.calls))
    decreases |acts|
  {
    hide Next, Enabled, Snapshots;
    if acts != [] {
      SnapshotStep(s, acts[0]);
      SnapshotAnswers(Next(s, acts[0]), acts[1..], t);
    }
  }

  // -------------------------------------------------------------------------------------------
  // After closing
  // -------------------------------------------------------------------------------------------

  lemma ClosedStep(s: State, a: Action)
    requires Enabled(s, a) && s.sub.closed && !a.Restart?
    ensures var t := Next(s, a);
            && t.sub.closed && t.log.calls == s.log.calls
            && (!s.pc.Committing? ==>
                  !t.pc.Committing? && t.db.cursor == s.db.cursor && t.db.rows == s.db.rows)
  {
    hide UpsertAll, Record, Restore, List, Takes;
    if a.Worker? {
      WorkCalls(s, a.answer);
      if !s.pc.Committing? {
        ClosedStores(s, a.answer);
      }
      hide Work;
    }
  }

  lemma ClosedStores(s: State, a: Answer)
    requires WorkEnabled(s) && s.sub.closed && !s.pc.Committing?
    ensures var t := Work(s, a); !t.pc.Committing? && t.db.cursor == s.db.cursor && t.db.rows == s.db.rows
  {
    hide UpsertAll, Record, Restore, List, Takes;
  }

  /** Once a subscription is closed it calls its consumer no more, and stores nothing but what it is storing already. */
  lemma {:induction false} ClosedIsSilent(s: State, acts: seq<Action>, t: State)
    requires Leads(s, acts, t) && s.sub.closed && forall i :: 0 <= i < |acts| ==> !acts[i].Restart?
    ensures t.log.calls == s.log.calls
    ensures !s.pc.Committing? ==> t.db.cursor == s.db.cursor && t.db.rows == s.db.rows
    decreases |acts|
  {
    hide Next, Enabled;
    if acts != [] {
      ClosedStep(s, acts[0]);
      ClosedIsSilent(Next(s, acts[0]), acts[1..], t);
    }
  }
}
