/** The queue of nodes whose group membership has to be worked out again: one set, one worker, retry until done. */
module MembershipQueue {
  import opened Basics

  /** The worker waits for a token, checks for shutdown, takes the set, applies it, puts a failed batch back, or waits
      out the retry delay. */
  datatype Pc =
    | Sleeping
    | Checking
    | Taking
    | Applying(ids: set<int>, started: nat)
    | PutBack(ids: set<int>)
    | Retrying
    | Stopped

  /** `asked` holds for each node when it was last accepted and `served` the start of the last successful apply that
      covered it; `steps` counts the steps so far. */
  datatype State = State(pending: set<int>, wake: bool, cancelled: bool, pc: Pc,
                         asked: map<int, nat>, served: map<int, nat>, steps: nat)

  function Positive(ids: set<int>): set<int> {
    set id | id in ids && id > 0
  }

  function Put(times: map<int, nat>, ids: set<int>, t: nat): map<int, nat> {
    map id | id in times.Keys + ids :: if id in ids then t else times[id]
  }

  /** Enqueue, in its lock; a batch put back by the worker keeps the time it was asked at. */
  function Enqueued(s: State, ids: set<int>): State {
    if s.cancelled then s else s.(pending := s.pending + Positive(ids), wake := true)
  }

  datatype Action = Enqueue(ids: set<int>) | Cancel | Worker(ok: bool)

  predicate Enabled(s: State, a: Action) {
    a.Worker? ==> match s.pc
                  case Sleeping => s.wake || s.cancelled
                  case Retrying => a.ok || s.cancelled
                  case Stopped => false
                  case _ => true
  }

  // The worker's next step; `ok` is the outcome of the apply, the timer, or a free choice between two ready channels.
  function Work(s: State, ok: bool): State {
    match s.pc
    case Sleeping => if s.wake && (ok || !s.cancelled) then s.(wake := false, pc := Checking) else s.(pc := Stopped)
    case Checking => s.(pc := if s.cancelled then Sleeping else Taking)
    case Taking => s.(pending := {}, pc := if s.pending == {} then Sleeping else Applying(s.pending, s.steps))
    case Applying(ids, started) =>
      if ok then s.(served := Put(s.served, ids, started), pc := Checking) else s.(pc := PutBack(ids))
    case PutBack(ids) => Enqueued(s, ids).(pc := if s.cancelled then Stopped else Retrying)
    case Retrying => s.(pc := if ok && !s.cancelled then Checking else Stopped)
    case Stopped => s
  }

  function Next(s: State, a: Action): State {
    var t := match a
      case Enqueue(ids) =>
        if s.cancelled then s else Enqueued(s, ids).(asked := Put(s.asked, Positive(ids), s.steps))
      case Cancel => s.(cancelled := true)
      case Worker(ok) => Work(s, ok);
    t.(steps := s.steps + 1)
  }

  predicate Initial(s: State) {
    s.pending == {} && !s.wake && !s.cancelled && s.pc == Sleeping && s.asked == map[] && s.served == map[]
  }

  /** An apply that started after the node was asked for has covered it. */
  predicate Served(s: State, id: int)
    requires id in s.asked
  {
    id in s.served && s.served[id] > s.asked[id]
  }

  /** A node that is not served is pending, or in a batch that started after it was asked for, or in one about to be put
      back. */
  predicate Waiting(s: State, id: int)
    requires id in s.asked
  {
    id in s.pending
    || (s.pc.Applying? && id in s.pc.ids && s.pc.started > s.asked[id])
    || (s.pc.PutBack? && id in s.pc.ids)
  }

  predicate Inv(s: State) {
    (forall id :: id in s.asked ==> s.asked[id] < s.steps)
    && (s.pc.Applying? ==> s.pc.started < s.steps)
    && (forall id :: id in s.served ==> s.served[id] < if s.pc.Applying? then s.pc.started else s.steps)
    && (forall id :: id in s.pending ==> id > 0)
    && (s.pc.Applying? || s.pc.PutBack? ==> forall id :: id in s.pc.ids ==> id > 0)
    && (s.pc.Stopped? ==> s.cancelled)
    && (!s.cancelled ==>
          (forall id :: id in s.asked ==> Served(s, id) || Waiting(s, id))
          && (s.pending != {} && s.pc.Sleeping? ==> s.wake))
  }

  lemma EnqueueKeepsInv(s: State, ids: set<int>)
    requires Inv(s)
    ensures Inv(Next(s, Enqueue(ids)))
  {
  }

  lemma WorkKeepsInv(s: State, ok: bool)
    requires Inv(s) && Enabled(s, Worker(ok))
    ensures Inv(Next(s, Worker(ok)))
  {
    var t := Next(s, Worker(ok));
    forall id | id in t.asked && !t.cancelled ensures Served(t, id) || Waiting(t, id) {
      assert id in s.asked && (Served(s, id) || Waiting(s, id));
    }
  }

  ghost predicate Follows(s: State, t: State) {
    exists a: Action :: Enabled(s, a) && t == Next(s, a)
  }

  ghost predicate Run(trace: seq<State>) {
    |trace| > 0 && Initial(trace[0]) && forall i :: 0 < i < |trace| ==> Follows(trace[i - 1], trace[i])
  }

  lemma {:induction false} RunKeepsInv(trace: seq<State>)
    requires Run(trace)
    ensures Inv(trace[|trace| - 1])
  {
    hide Next, Enabled;
    if |trace| > 1 {
      var shorter := trace[..|trace| - 1];
      assert forall i :: 0 < i < |shorter| ==> Follows(trace[i - 1], trace[i]);
      RunKeepsInv(shorter);
      var s, t := trace[|trace| - 2], trace[|trace| - 1];
      hide Inv;
      assert Follows(s, t);
      var a: Action :| Enabled(s, a) && t == Next(s, a);
      NextKeepsInv(s, a);
    }
  }

  lemma NextKeepsInv(s: State, a: Action)
    requires Inv(s) && Enabled(s, a)
    ensures Inv(Next(s, a))
  {
    hide Inv, Next;
    match a
    case Enqueue(ids) => EnqueueKeepsInv(s, ids);
    case Worker(ok) => WorkKeepsInv(s, ok);
    case Cancel => CancelKeepsInv(s);
  }

  lemma CancelKeepsInv(s: State)
    requires Inv(s)
    ensures Inv(Next(s, Cancel))
  {
  }

  /** Until shutdown every accepted node waits, pending or in hand, until an apply that started after it was asked for
      has succeeded: a failure or a change that comes while an apply runs is never forgotten. */
  lemma NothingForgotten(trace: seq<State>, id: int)
    requires Run(trace) && !trace[|trace| - 1].cancelled && id in trace[|trace| - 1].asked
    ensures Served(trace[|trace| - 1], id) || Waiting(trace[|trace| - 1], id)
  {
    RunKeepsInv(trace);
  }

  /** From the caller's side: a positive ID that was enqueued before shutdown is from then on waiting or served, by an
      apply that started after it was enqueued. */
  lemma {:induction false} EnqueuedIsSeenTo(trace: seq<State>, i: nat, ids: set<int>, id: int)
    requires Run(trace) && i + 1 < |trace| && !trace[|trace| - 1].cancelled
    requires trace[i + 1] == Next(trace[i], Enqueue(ids)) && id in ids && id > 0
    ensures var s := trace[|trace| - 1];
            id in s.asked && s.asked[id] >= trace[i].steps
            && (Served(s, id) || Waiting(s, id)) && (Served(s, id) ==> s.served[id] > trace[i].steps)
  {
    NeverUncancelled(trace, i);
    StaysAsked(trace, i + 1, id);
    NothingForgotten(trace, id);
  }

  lemma {:induction false} NeverUncancelled(trace: seq<State>, i: nat)
    requires Run(trace) && i < |trace| && !trace[|trace| - 1].cancelled
    ensures !trace[i].cancelled
  {
    hide Enabled;
    if i < |trace| - 1 {
      var shorter := trace[..|trace| - 1];
      assert forall j :: 0 < j < |shorter| ==> Follows(trace[j - 1], trace[j]);
      assert Follows(trace[|trace| - 2], trace[|trace| - 1]);
      NeverUncancelled(shorter, i);
    }
  }

  // Once asked for, a node was never asked for earlier than that.
  lemma {:induction false} StaysAsked(trace: seq<State>, i: nat, id: int)
    requires Run(trace) && i < |trace| && id in trace[i].asked
    ensures id in trace[|trace| - 1].asked && trace[|trace| - 1].asked[id] >= trace[i].asked[id]
  {
    hide Enabled;
    if i < |trace| - 1 {
      var shorter := trace[..|trace| - 1];
      assert forall j :: 0 < j < |shorter| ==> Follows(trace[j - 1], trace[j]);
      StaysAsked(shorter, i, id);
      RunKeepsInv(shorter);
      assert Follows(trace[|trace| - 2], trace[|trace| - 1]);
    }
  }

  /** When the worker sleeps without a token, everything accepted has been served. */
  lemma QuietMeansServed(trace: seq<State>)
    requires Run(trace) && var s := trace[|trace| - 1]; !s.cancelled && s.pc.Sleeping? && !s.wake
    ensures var s := trace[|trace| - 1]; s.pending == {} && forall id :: id in s.asked ==> Served(s, id)
  {
    RunKeepsInv(trace);
    var s := trace[|trace| - 1];
    forall id | id in s.asked ensures Served(s, id) {
      assert Served(s, id) || Waiting(s, id);
    }
  }

  // -------------------------------------------------------------------------------------------
  // Shutdown
  // -------------------------------------------------------------------------------------------

  /** Once the queue is closing no apply begins: whatever runs later was running then already, except that a worker past
      its check still takes the set it is about to take. */
  lemma {:induction false} NothingBeginsAfterShutdown(trace: seq<State>, i: nat)
    requires Run(trace) && i < |trace| && trace[i].cancelled && !trace[i].pc.Taking?
    ensures trace[|trace| - 1].cancelled && !trace[|trace| - 1].pc.Taking?
    ensures trace[|trace| - 1].pc.Applying? ==> trace[|trace| - 1].pc == trace[i].pc
  {
    hide Enabled, Initial, Positive, Put;
    if i < |trace| - 1 {
      var shorter := trace[..|trace| - 1];
      assert forall j :: 0 < j < |shorter| ==> Follows(trace[j - 1], trace[j]);
      NothingBeginsAfterShutdown(shorter, i);
      assert Follows(trace[|trace| - 2], trace[|trace| - 1]);
    }
  }

  /** A failed batch is about to be put back, but the queue is closing already. */
  predicate Drops(s: State, id: int) {
    s.pc.PutBack? && s.cancelled && id in s.pc.ids && id !in s.pending
  }

  // Accepted, never served since, and no longer pending.
  predicate Lost(s: State, id: int) {
    id in s.asked && !Served(s, id) && id !in s.pending
  }

  // What is pending or in hand was not served since it was asked for, and what is pending during an apply was asked for
  // after it started.
  predicate Unserved(s: State, id: int) {
    && (id in s.pending || ((s.pc.Applying? || s.pc.PutBack?) && id in s.pc.ids) ==> id in s.asked && !Served(s, id))
    && (id in s.pending && s.pc.Applying? ==> s.asked[id] >= s.pc.started)
  }

  // Where an accepted node stands, with shutdown included; `dropped` says that a batch with it was dropped.
  predicate Placed(s: State, id: int, dropped: bool) {
    && Unserved(s, id)
    && (id in s.asked ==> Served(s, id) || Waiting(s, id) || dropped)
    && (dropped ==> s.cancelled && (Drops(s, id) || (s.pc.Stopped? && Lost(s, id))))
  }

  lemma NextPlaces(s: State, a: Action, id: int, dropped: bool)
    requires Inv(s) && Enabled(s, a) && Placed(s, id, dropped || Drops(s, id))
    ensures Placed(Next(s, a), id, dropped || Drops(s, id) || Drops(Next(s, a), id))
  {
  }

  ghost predicate Dropped(trace: seq<State>, id: int) {
    exists i :: 0 <= i < |trace| && Drops(trace[i], id)
  }

  lemma {:induction false} RunPlaces(trace: seq<State>, id: int)
    requires Run(trace)
    ensures Placed(trace[|trace| - 1], id, Dropped(trace, id))
  {
    hide Next, Enabled, Placed, Inv, Drops;
    if |trace| == 1 {
      InitialPlaces(trace[0], id);
      assert forall i :: 0 <= i < |trace| ==> trace[i] == trace[0];
    } else {
      var shorter := trace[..|trace| - 1];
      assert forall i :: 0 < i < |shorter| ==> Follows(trace[i - 1], trace[i]);
      RunPlaces(shorter, id);
      RunKeepsInv(shorter);
      var s, t := trace[|trace| - 2], trace[|trace| - 1];
      assert Follows(s, t) && shorter[|shorter| - 1] == s;
      var a: Action :| Enabled(s, a) && t == Next(s, a);
      assert Dropped(shorter, id) == (Dropped(shorter, id) || Drops(s, id));
      NextPlaces(s, a, id, Dropped(shorter, id));
      assert forall i :: 0 <= i < |shorter| ==> trace[i] == shorter[i];
      assert Dropped(trace, id) == (Dropped(shorter, id) || Drops(t, id));
    }
  }

  lemma InitialPlaces(s: State, id: int)
    requires Initial(s)
    ensures Placed(s, id, false) && !Drops(s, id)
  {
  }

  /** Shutdown, over all runs. Once the worker has stopped, an accepted node is unserved and not even pending if and
      only if at some moment its batch had failed, the queue was closing, and it had not been asked for again
      meanwhile. */
  lemma StoppedForgetsIff(trace: seq<State>, id: int)
    requires Run(trace) && trace[|trace| - 1].pc.Stopped? && id in trace[|trace| - 1].asked
    ensures Lost(trace[|trace| - 1], id) <==> Dropped(trace, id)
  {
    RunPlaces(trace, id);
  }

  class Queue {
    var pending: set<int>
    var wake: bool
    var cancelled: bool
    ghost var asked: map<int, nat>
    ghost var served: map<int, nat>
    ghost var steps: nat

    ghost function At(pc: Pc): State
      reads this
    {
      State(pending, wake, cancelled, pc, asked, served, steps)
    }

    /** Enqueue: positive IDs become dirty and the worker gets a token, unless the queue is closing. */
    method Enqueue(ids: seq<int>, ghost pc: Pc)
      modifies this
      ensures At(pc) == Next(old(At(pc)), Action.Enqueue(set id | id in ids))
      ensures forall id :: id in pending <==> id in old(pending) || (!cancelled && id in ids && id > 0)
    {
      ghost var all := set id | id in ids;
      asked := if cancelled then asked else Put(asked, Positive(all), steps);
      steps := steps + 1;
      if cancelled {
        return;
      }
      for i := 0 to |ids|
        invariant pending == old(pending) + Positive(set id | id in ids[..i])
        invariant !cancelled && wake == old(wake) && asked == Put(old(asked), Positive(all), old(steps))
                  && served == old(served) && steps == old(steps) + 1
      {
        assert ids[..i + 1] == ids[..i] + [ids[i]];
        if ids[i] > 0 {
          pending := pending + {ids[i]};
        }
      }
      assert ids[..|ids|] == ids;
      wake := true;
    }

    /** The worker's lock region: the whole set, in order, and nothing stays behind. */
    method Take() returns (ids: seq<int>)
      modifies this`pending, this`steps
      ensures (set id | id in ids) == old(pending) && (forall i, j :: 0 <= i < j < |ids| ==> ids[i] < ids[j])
      ensures At(if ids == [] then Sleeping else Applying(old(pending), old(steps))) ==
              Next(old(At(Taking)), Worker(true))
    {
      ids := [];
      var todo := pending;
      while todo != {}
        invariant todo <= pending && pending == old(pending) && steps == old(steps)
        invariant (set id | id in ids) == pending - todo
        invariant forall i, j :: 0 <= i < j < |ids| ==> ids[i] < ids[j]
      {
        var id := Pick(todo);
        todo := todo - {id};
        ids := InsertSorted(ids, id);
      }
      pending := {};
      steps := steps + 1;
      ghost var listed := set id | id in ids;
      assert ids != [] ==> ids[0] in listed;
      assert ids == [] ==> old(pending) == {};
    }

    static method InsertSorted(ids: seq<int>, id: int) returns (result: seq<int>)
      requires id !in ids && forall i, j :: 0 <= i < j < |ids| ==> ids[i] < ids[j]
      ensures (set x | x in result) == (set x | x in ids) + {id}
      ensures forall i, j :: 0 <= i < j < |result| ==> result[i] < result[j]
    {
      var n := |ids|;
      while n > 0 && ids[n - 1] > id
        invariant 0 <= n <= |ids|
        invariant forall i :: n <= i < |ids| ==> ids[i] > id
      {
        n := n - 1;
      }
      result := ids[..n] + [id] + ids[n..];
      InsertedAt(ids, n, id);
    }

    static lemma InsertedAt(ids: seq<int>, n: nat, id: int)
      requires n <= |ids| && id !in ids && Increasing(ids)
      requires (n > 0 ==> ids[n - 1] <= id) && forall i :: n <= i < |ids| ==> ids[i] > id
      ensures var result := ids[..n] + [id] + ids[n..];
              (set x | x in result) == (set x | x in ids) + {id} && Increasing(result)
    {
      hide Increasing;
      var low, high := ids[..n], ids[n..];
      assert ids == low + high;
      assert n > 0 ==> ids[n - 1] in ids;
      IncreasingParts(low, high);
      assert forall i :: 0 <= i < |high| ==> high[i] == ids[n + i];
      PutBetween(low, id, high);
    }

    static lemma IncreasingParts(low: seq<int>, high: seq<int>)
      requires Increasing(low + high)
      ensures Increasing(low) && Increasing(high)
    {
      var all := low + high;
      assert forall i :: 0 <= i < |low| ==> all[i] == low[i];
      assert forall i :: 0 <= i < |high| ==> all[|low| + i] == high[i];
    }

    static lemma PutBetween(low: seq<int>, id: int, high: seq<int>)
      requires Increasing(low) && Increasing(high)
      requires (low != [] ==> low[|low| - 1] < id) && forall i :: 0 <= i < |high| ==> id < high[i]
      ensures var result := low + [id] + high;
              (set x | x in result) == (set x | x in low + high) + {id} && Increasing(result)
    {
      var most := low + [id];
      assert Increasing(most);
      assert forall x :: x in most + high <==> x in low + high || x == id;
    }
  }

  predicate Increasing(ids: seq<int>) {
    forall i, j :: 0 <= i < j < |ids| ==> ids[i] < ids[j]
  }
}
