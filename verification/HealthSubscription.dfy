/** One consumer's subscription as an object, and its methods against the steps of the delivery protocol.

    A method runs several critical sections in a row; its contract says which stretch of the protocol it
    performs, from the position where it is called to the position where it returns. */
module HealthSubscription {
  import opened Basics
  import opened MemberRows
  import opened HealthDelivery
  import opened HealthOpening
  import opened HealthDeliverySafety

  /** A stretch of worker steps with these answers from the store and the callback. */
  ghost predicate WorksWith(s: State, answers: seq<Answer>, t: State)
    decreases |answers|
  {
    if answers == [] then s == t
    else Enabled(s, Worker(answers[0])) && WorksWith(Work(s, answers[0]), answers[1..], t)
  }

  ghost predicate Works(s: State, t: State) {
    exists answers: seq<Answer> :: WorksWith(s, answers, t)
  }

  lemma WorksOne(s: State, a: Answer)
    requires Enabled(s, Worker(a))
    ensures Works(s, Work(s, a))
  {
    hide Work;
    assert WorksWith(Work(s, a), [a][1..], Work(s, a));
    assert WorksWith(s, [a], Work(s, a));
  }

  lemma {:induction false} WorksWithJoin(s: State, a: seq<Answer>, t: State, b: seq<Answer>, u: State)
    requires WorksWith(s, a, t) && WorksWith(t, b, u)
    ensures WorksWith(s, a + b, u)
    decreases |a|
  {
    hide Work;
    if a == [] {
      assert a + b == b;
    } else {
      WorksWithJoin(Work(s, a[0]), a[1..], t, b, u);
      assert (a + b)[1..] == a[1..] + b;
    }
  }

  lemma WorksJoin(s: State, t: State, u: State)
    requires Works(s, t) && Works(t, u)
    ensures Works(s, u)
  {
    hide WorksWith;
    var a: seq<Answer> :| WorksWith(s, a, t);
    var b: seq<Answer> :| WorksWith(t, b, u);
    WorksWithJoin(s, a, t, b, u);
  }

  // One more step with an answer that matters only for its outcome.
  lemma ThenWork(s: State, t: State, a: Answer)
    requires Works(s, t) && Enabled(t, Worker(a))
    ensures Works(s, Work(t, a))
  {
    hide Work, Works;
    WorksOne(t, a);
    WorksJoin(s, t, Work(t, a));
  }

  /** Whatever the worker does keeps the invariant of the protocol. */
  lemma {:induction false} WorksWithKeepsInv(s: State, answers: seq<Answer>, t: State)
    requires Inv(s) && WorksWith(s, answers, t)
    ensures Inv(t)
    decreases |answers|
  {
    hide Inv, Work;
    if answers != [] {
      KeepsInv(s, answers[0]);
      WorksWithKeepsInv(Work(s, answers[0]), answers[1..], t);
    }
  }

  lemma KeepsInv(s: State, a: Answer)
    requires Inv(s) && Enabled(s, Worker(a))
    ensures Inv(Work(s, a))
  {
    NextKeepsInv(s, Worker(a));
    hide Inv, Enabled, Work;
  }

  lemma WorksKeepsInv(s: State, t: State)
    requires Inv(s) && Works(s, t)
    ensures Inv(t)
  {
    hide Inv, WorksWith;
    var answers: seq<Answer> :| WorksWith(s, answers, t);
    WorksWithKeepsInv(s, answers, t);
  }

  // -------------------------------------------------------------------------------------------
  // The object
  // -------------------------------------------------------------------------------------------

  function NoticeOf(event: Row, snapshotOnly: bool): Action {
    if snapshotOnly then NotifySnapshot else if event.num > 0 then NotifyRow(event.num) else NotifyInline(event)
  }

  function Keys(states: seq<NodeState>): set<Key> {
    set s | s in states :: KeyOf(s)
  }

  lemma KeysGrow(states: seq<NodeState>, s: NodeState)
    ensures Keys(states + [s]) == Keys(states) + {KeyOf(s)}
  {
  }

  lemma KeysFound(states: seq<NodeState>, k: Key)
    ensures k in Keys(states) <==> Find(states, k) < |states|
  {
  }

  /** What flushCursor leaves behind. */
  function Flushed(s: State, why: Why, writeOk: bool): State {
    var sub := s.sub;
    if sub.closed || (sub.pendingCursor == 0 && sub.pending == []) then s.(pc := Return(why, false))
    else if writeOk then
      s.(db := Advance(s.db, sub.pendingCursor, sub.pending), pc := Return(why, true),
         sub := sub.(pending := [], pendingCursor := 0, blocked := false), log := s.log.(saved := |s.log.calls|))
    else
      s.(pc := Return(why, false), sub := sub.(pending := Restore([], sub.pending), blocked := true, armed := true))
  }

  lemma FlushWorks(s: State, why: Why, writeOk: bool)
    requires s.pc == Flush(why)
    ensures Works(s, Flushed(s, why, writeOk))
  {
    hide Works, Restore, UpsertAll;
    var a := Answer(writeOk, []);
    var t := Work(s, a);
    WorksOne(s, a);
    if t.pc.Committing? {
      ThenWork(s, t, a);
      var u := Work(t, a);
      ThenWork(s, u, a);
      if !writeOk {
        var v := Work(u, a);
        ThenWork(s, v, a);
        ThenWork(s, Work(v, a), a);
      }
    }
  }

  predicate AllSupersede(states: seq<NodeState>, rows: Rows) {
    forall i :: 0 <= i < |states| ==> Supersedes(states[i], rows)
  }

  // No state is newer than a moment of the revision clock.
  predicate UpTo(states: seq<NodeState>, clock: int) {
    forall i :: 0 <= i < |states| ==> states[i].revision <= clock
  }

  predicate RowsUpTo(rows: Rows, clock: int) {
    forall k :: k in rows ==> rows[k].revision <= clock
  }

  predicate From(states: seq<NodeState>, clock: int) {
    forall i :: 0 <= i < |states| ==> states[i].revision == 0 || states[i].revision >= clock
  }

  lemma {:induction false} RecordUpTo(pending: seq<NodeState>, states: seq<NodeState>, clock: int)
    requires UpTo(pending, clock) && UpTo(states, clock)
    ensures UpTo(Record(pending, states), clock)
  {
    if states != [] {
      RecordUpTo(pending, states[..|states| - 1], clock);
    }
  }

  lemma {:induction false} UpsertUpTo(rows: Rows, states: seq<NodeState>, clock: int)
    requires RowsUpTo(rows, clock) && UpTo(states, clock)
    ensures RowsUpTo(UpsertAll(rows, states), clock)
  {
    if states != [] {
      UpsertUpTo(rows, states[..|states| - 1], clock);
    }
  }

  // -------------------------------------------------------------------------------------------
  // Stretches of the protocol, one lemma for each part of a method
  // -------------------------------------------------------------------------------------------

  lemma TopWorks(s: State)
    requires s.pc == Top
    ensures Works(s, s.(pc := if s.sub.blocked then Flush(Parked) else PopInline))
  {
    WorksOne(s, Answer(true, []));
  }

  lemma PopWorks(first: State, s: State, states: seq<NodeState>)
    requires Works(first, s) && s.pc == PopInline && AllSupersede(states, s.db.rows)
    ensures s.sub.closed || s.sub.inline == [] ==> Works(first, s.(pc := ReadCheck))
    ensures !s.sub.closed && s.sub.inline != [] ==>
              Works(first, HealthDelivery.Deliver(s.(sub := s.sub.(inline := s.sub.inline[1..]), pc := Top),
                                                  Inline(s.sub.inline[0]), states))
  {
    hide Works, Record;
    ThenWork(first, s, Answer(true, states));
  }

  lemma RefreshWorks(first: State, s: State, states: seq<NodeState>)
    requires Works(first, s) && s.pc == TakeRefresh && AllSupersede(states, s.db.rows)
    ensures s.sub.closed || !s.sub.refresh ==> Works(first, s.(pc := Idle))
    ensures !s.sub.closed && s.sub.refresh ==>
              Works(first, HealthDelivery.Deliver(s.(sub := s.sub.(refresh := false), pc := Top), Snapshot, states))
  {
    hide Works, Record;
    ThenWork(first, s, Answer(true, states));
  }

  /** A flush and the step after it. */
  lemma FlushReturns(first: State, s: State, why: Why, writeOk: bool)
    requires Works(first, s) && s.pc == Flush(why)
    ensures var t := Flushed(s, why, writeOk);
            Works(first, t.(pc := if why == Parked then (if t.sub.blocked then Idle else Top)
                                  else if why == AfterBatch || t.pc.ok then Top
                                  else TakeRefresh))
  {
    hide Works, Restore, UpsertAll;
    FlushWorks(s, why, writeOk);
    var t := Flushed(s, why, writeOk);
    WorksJoin(first, s, t);
    ThenWork(first, t, Answer(writeOk, []));
  }

  lemma FlushUpTo(s: State, why: Why, writeOk: bool, clock: int)
    requires RowsUpTo(s.db.rows, clock) && UpTo(s.sub.pending, clock)
    ensures RowsUpTo(Flushed(s, why, writeOk).db.rows, clock)
  {
    UpsertUpTo(s.db.rows, s.sub.pending, clock);
  }

  lemma FromSupersedes(states: seq<NodeState>, rows: Rows, clock: int)
    requires From(states, clock) && RowsUpTo(rows, clock)
    ensures AllSupersede(states, rows)
  {
  }

  lemma CheckWorks(s: State)
    requires s.pc == ReadCheck
    ensures s.sub.closed || !s.sub.dirty || s.sub.blocked ==> Works(s, s.(pc := Flush(Drained)))
    ensures !s.sub.closed && s.sub.dirty && !s.sub.blocked ==>
              Works(s, s.(sub := s.sub.(dirty := false), pc := Listing(s.sub.cursor)))
  {
    WorksOne(s, Answer(true, []));
  }

  lemma ReadWorks(first: State, s: State, readOk: bool)
    requires Works(first, s) && s.pc.Listing?
    ensures !readOk ==> Works(first, s.(sub := s.sub.(dirty := true, armed := s.sub.armed || !s.sub.closed),
            pc := Flush(Drained)))
    ensures readOk ==> var rows := List(s.db, s.pc.after);
                      Works(first, s.(pc := if rows == [] then Flush(Drained) else Batch(rows, 0)))
  {
    hide Works, List;
    var a := Answer(readOk, []);
    ThenWork(first, s, a);
    if !readOk {
      ThenWork(first, Work(s, a), a);
    }
  }

  /** One row of a batch: closed, or delivered if the filter takes it, and passed. */
  function Passed(s: State, states: seq<NodeState>): State
    requires s.pc.Batch? && s.pc.i < |s.pc.rows|
  {
    var rows, i := s.pc.rows, s.pc.i;
    var num := rows[i].num;
    var t := if Takes(s.f, rows[i]) then HealthDelivery.Deliver(s, Journal(rows[i]), states) else s;
    t.(sub := if num > t.sub.cursor then t.sub.(cursor := num, pendingCursor := num)
        else t.sub, pc := Batch(rows, i + 1))
  }

  lemma PassWorks(first: State, s: State, states: seq<NodeState>)
    requires Works(first, s) && s.pc.Batch? && s.pc.i < |s.pc.rows| && AllSupersede(states, s.db.rows)
    ensures s.sub.closed ==> Works(first, s.(pc := Flush(Drained)))
    ensures !s.sub.closed ==> Works(first, Passed(s, states))
  {
    hide Works, Record, Takes;
    var a := Answer(true, states);
    ThenWork(first, s, a);
    if !s.sub.closed {
      ThenWork(first, Work(s, a), a);
    }
  }

  lemma BatchEndWorks(first: State, s: State)
    requires Works(first, s) && s.pc.Batch? && s.pc.i == |s.pc.rows|
    ensures |s.pc.rows| == BATCH ==> Works(first, s.(sub := s.sub.(dirty := true), pc := Flush(AfterBatch)))
    ensures |s.pc.rows| != BATCH ==> Works(first, s.(pc := Flush(Drained)))
  {
    hide Works;
    ThenWork(first, s, Answer(true, []));
  }

  class Subscription {
    const filter: Filter
    var db: Store
    var cursor: int
    var pendingCursor: int
    var dirty: bool
    var refresh: bool
    var cursorBlocked: bool
    var pendingStates: seq<NodeState>
    var inline: seq<Row>
    var closed: bool
    var retryScheduled: bool
    var wake: bool
    ghost var log: Log

    ghost function Fields(): Sub
      reads this
    {
      Sub(cursor, pendingCursor, dirty, refresh, cursorBlocked, pendingStates, inline, closed, retryScheduled, wake)
    }

    /** The protocol's state with the worker at the given position. */
    ghost function At(pc: Pc): State
      reads this
    {
      State(filter, db, Fields(), pc, log)
    }

    constructor (filter: Filter, db: Store, stored: Option<int>, cursorOk: bool, tailOk: bool, writeOk: bool)
      requires JournalSound(db) && (stored.Some? ==> stored.value == db.cursor)
      ensures var o := Open(stored, Tail(db.all, db.gone), cursorOk, tailOk, writeOk);
              cursor == o.cursor && this.db == db.(cursor := if o.stored.Some? then o.stored.value else db.cursor)
      ensures Fields() == Fresh(cursor)
      ensures this.filter == filter
      ensures stored.Some? && cursorOk ==> Initial(At(Idle)) && this.db == db
      ensures stored.None? && tailOk && writeOk && (forall n :: n in db.gone ==> n <= Tail(db.all, db.gone)) ==>
                Initial(At(Idle)) && this.db == db.(cursor := Tail(db.all, db.gone))
    {
      NothingAfterTail(db.all, db.gone, db.top);
      var start := 0;
      var place := db.cursor;
      if cursorOk && stored.Some? {
        start := stored.value;
      } else if tailOk {
        start := Tail(db.all, db.gone);
        if writeOk && (stored.None? || start > place) {
          place := start;
        }
      }
      this.filter := filter;
      this.db := db.(cursor := place);
      cursor, pendingCursor := start, 0;
      dirty, refresh, cursorBlocked, closed, retryScheduled, wake := false, false, false, false, false, false;
      pendingStates, inline := [], [];
      log := Log(place, {}, place, db.rows, {}, [], 0, 0, 0);
    }

    /** notify: record that work is available, then hand over a token. */
    method Notify(event: Row, snapshotOnly: bool, ghost pc: Pc)
      requires Enabled(At(pc), NoticeOf(event, snapshotOnly))
      modifies this
      ensures var noticed := Next(old(At(pc)), NoticeOf(event, snapshotOnly));
              At(pc) == if noticed == old(At(pc)) then noticed else Next(noticed, Send)
    {
      if closed {
        return;
      }
      if snapshotOnly {
        refresh := true;
      } else if event.num > 0 {
        dirty := true;
        log := log.(told := if event.num > log.told then event.num else log.told);
      } else {
        if |inline| >= INLINE_LIMIT {
          return;
        }
        inline := inline + [event];
      }
      wake := true;
    }

    /** scheduleRetry: at most one timer is armed. */
    method ScheduleRetry()
      modifies this`retryScheduled
      ensures retryScheduled == (old(retryScheduled) || !closed)
    {
      if closed || retryScheduled {
        return;
      }
      retryScheduled := true;
    }

    // The timer that scheduleRetry armed.
    method RetryTimer(ghost pc: Pc)
      requires Enabled(At(pc), TimerFires)
      modifies this
      ensures At(pc) == if old(closed) then Next(old(At(pc)), TimerFires) else Next(Next(old(At(pc)), TimerFires), Send)
    {
      retryScheduled := false;
      if !closed {
        wake := true;
      }
    }

    method Close(ghost pc: Pc)
      modifies this
      ensures closed && inline == (if old(closed) then old(inline) else [])
      ensures (old(closed) ==> old(inline) == []) ==> At(pc) == Next(old(At(pc)), HealthDelivery.Close)
    {
      if !closed {
        closed := true;
        inline := [];
      }
    }

    /** restoreStates: a reading queued meanwhile stays. */
    method RestoreStates(states: seq<NodeState>)
      modifies this`pendingStates
      ensures pendingStates == Restore(old(pendingStates), states)
    {
      if |states| == 0 {
        return;
      }
      var queued: set<Key> := {};
      for i := 0 to |pendingStates|
        invariant pendingStates == old(pendingStates)
        invariant queued == Keys(pendingStates[..i])
      {
        KeysGrow(pendingStates[..i], pendingStates[i]);
        assert pendingStates[..i + 1] == pendingStates[..i] + [pendingStates[i]];
        queued := queued + {KeyOf(pendingStates[i])};
      }
      assert pendingStates[..|pendingStates|] == pendingStates;
      for i := 0 to |states|
        invariant pendingStates == Restore(old(pendingStates), states[..i])
        invariant queued == Keys(pendingStates)
      {
        var state := states[i];
        assert states[..i + 1][..i] == states[..i];
        KeysGrow(pendingStates, state);
        KeysFound(pendingStates, KeyOf(state));
        if KeyOf(state) in queued {
          continue;
        }
        queued := queued + {KeyOf(state)};
        pendingStates := pendingStates + [state];
      }
      assert states[..|states|] == states;
    }

    /** recordStates: the newest reading of each member stays. */
    method RecordStates(states: seq<NodeState>)
      modifies this`pendingStates
      ensures pendingStates == Record(old(pendingStates), states)
    {
      if |states| == 0 {
        return;
      }
      for n := 0 to |states|
        invariant pendingStates == Record(old(pendingStates), states[..n])
      {
        var state := states[n];
        ghost var was := pendingStates;
        assert states[..n + 1][..n] == states[..n];
        var replaced := false;
        var i := 0;
        while i < |pendingStates|
          invariant 0 <= i <= |pendingStates| && !replaced && pendingStates == was
          invariant forall j :: 0 <= j < i ==> KeyOf(was[j]) != KeyOf(state)
        {
          if KeyOf(pendingStates[i]) == KeyOf(state) {
            pendingStates := pendingStates[i := state];
            replaced := true;
            break;
          }
          i := i + 1;
        }
        assert replaced ==> Find(was, KeyOf(state)) == i;
        if !replaced {
          pendingStates := pendingStates + [state];
        }
      }
      assert states[..|states|] == states;
    }

    /** deliver: run the callback, here with its result, and record what it produced. */
    method Deliver(item: Item, states: seq<NodeState>)
      modifies this`pendingStates, this`log
      ensures forall pc :: At(pc) == HealthDelivery.Deliver(old(At(pc)), item, states)
      ensures pendingStates == Record(old(pendingStates), states)
    {
      RecordStates(states);
      log := log.(calls := log.calls + [Call(item, states)], ever := if item.Journal? then log.ever + {item.row.num}
          else log.ever);
    }

    /** flushCursor, from its call to its return. */
    method FlushCursor(writeOk: bool, ghost why: Why) returns (flushed: bool)
      modifies this
      ensures At(Return(why, flushed)) == Flushed(old(At(Flush(why))), why, writeOk)
    {
      hide Restore, UpsertAll;
      var pending, states := pendingCursor, pendingStates;
      if closed || (pending == 0 && |states| == 0) {
        return false;
      }
      pendingStates := [];
      if !writeOk {
        RestoreStates(states);
        cursorBlocked := true;
        ScheduleRetry();
        return false;
      }
      db := Advance(db, pending, states);
      log := log.(saved := |log.calls|);
      if pendingCursor == pending {
        pendingCursor := 0;
      }
      cursorBlocked := false;
      return true;
    }

    /** readJournal, from its check to its return: a read and the callbacks of at most one batch. */
    method ReadJournal(readOk: bool, results: seq<seq<NodeState>>, ghost clock: int) returns (more: bool)
      requires |results| == BATCH && forall k :: 0 <= k < BATCH ==>
               AllSupersede(results[k], db.rows) && UpTo(results[k], clock)
      requires UpTo(pendingStates, clock)
      modifies this
      ensures Works(old(At(ReadCheck)), At(Flush(if more then AfterBatch else Drained)))
      ensures db == old(db) && closed == old(closed)
      ensures UpTo(pendingStates, clock)
    {
      hide Works, Record, List, AllSupersede, UpTo, Takes;
      ghost var first := At(ReadCheck);
      CheckWorks(first);
      if closed || !dirty || cursorBlocked {
        return false;
      }
      dirty := false;
      var after := cursor;
      ReadWorks(first, At(Listing(after)), readOk);
      if !readOk {
        dirty := true;
        ScheduleRetry();
        return false;
      }
      var events := List(db, after);
      if |events| == 0 {
        return false;
      }
      var i := 0;
      while i < |events|
        invariant 0 <= i <= |events|
        invariant db == old(db) && closed == old(closed)
        invariant UpTo(pendingStates, clock)
        invariant Works(first, At(Batch(events, i)))
      {
        PassWorks(first, At(Batch(events, i)), results[i]);
        if closed {
          return false;
        }
        RecordUpTo(pendingStates, results[i], clock);
        if Takes(filter, events[i]) {
          Deliver(Journal(events[i]), results[i]);
        }
        if events[i].num > cursor {
          cursor := events[i].num;
          pendingCursor := events[i].num;
        }
        i := i + 1;
      }
      BatchEndWorks(first, At(Batch(events, i)));
      if |events| == BATCH {
        dirty := true;
        return true;
      }
      return false;
    }

    method PopInline() returns (event: Option<Row>)
      modifies this`inline
      ensures closed || old(inline) == [] ==> event == None && inline == old(inline)
      ensures !closed && old(inline) != [] ==> event == Some(old(inline)[0]) && inline == old(inline)[1..]
    {
      if closed || |inline| == 0 {
        return None;
      }
      event := Some(inline[0]);
      inline := inline[1..];
    }

    method TakeRefresh() returns (taken: bool)
      modifies this`refresh
      ensures taken == (!closed && old(refresh)) && refresh == (old(refresh) && !taken)
    {
      if closed || !refresh {
        return false;
      }
      refresh := false;
      return true;
    }

    /** step: at most one inline event, one batch of the journal or one refresh, and the flushes around it. `results`
        are the callback's results for the rows of a batch and `other` its result for an inline event or a refresh,
        which is not older than anything before it. */
    method Step(readOk: bool, writeOk: bool, results: seq<seq<NodeState>>, other: seq<NodeState>, ghost clock: int)
        returns (more: bool)
      requires |results| == BATCH && forall k :: 0 <= k < BATCH ==>
               AllSupersede(results[k], db.rows) && UpTo(results[k], clock)
      requires UpTo(pendingStates, clock) && RowsUpTo(db.rows, clock) && From(other, clock)
      requires Inv(At(Top))
      modifies this
      ensures Works(old(At(Top)), At(if more then Top else Idle))
      ensures Inv(At(if more then Top else Idle))
    {
      hide Works, Record, AllSupersede, UpTo, RowsUpTo, From, Inv, Restore, UpsertAll;
      ghost var first := At(Top);
      TopWorks(first);
      if cursorBlocked {
        FlushReturns(first, At(Flush(Parked)), Parked, writeOk);
        var _ := FlushCursor(writeOk, Parked);
        more := !cursorBlocked;
      } else {
        more := StepOpen(readOk, writeOk, results, other, clock, first);
      }
      WorksKeepsInv(first, At(if more then Top else Idle));
    }

    // step, past its first check.
    method StepOpen(readOk: bool, writeOk: bool, results: seq<seq<NodeState>>, other: seq<NodeState>, ghost clock: int,
                    ghost first: State)
        returns (more: bool)
      requires |results| == BATCH && forall k :: 0 <= k < BATCH ==>
               AllSupersede(results[k], db.rows) && UpTo(results[k], clock)
      requires UpTo(pendingStates, clock) && RowsUpTo(db.rows, clock) && From(other, clock)
      requires Works(first, At(HealthDelivery.PopInline))
      modifies this
      ensures Works(first, At(if more then Top else Idle))
    {
      hide Works, Record, AllSupersede, UpTo, RowsUpTo, From, Restore, UpsertAll;
      FromSupersedes(other, db.rows, clock);
      PopWorks(first, At(HealthDelivery.PopInline), other);
      var event := PopInline();
      if event.Some? {
        Deliver(Inline(event.value), other);
        return true;
      }
      ghost var check := At(ReadCheck);
      more := ReadJournal(readOk, results, clock);
      WorksJoin(first, check, At(Flush(if more then AfterBatch else Drained)));
      if more {
        FlushReturns(first, At(Flush(AfterBatch)), AfterBatch, writeOk);
        var _ := FlushCursor(writeOk, AfterBatch);
        return true;
      }
      more := StepDrained(writeOk, other, clock, first);
    }

    // step, once the journal is drained.
    method StepDrained(writeOk: bool, other: seq<NodeState>, ghost clock: int, ghost first: State) returns (more: bool)
      requires UpTo(pendingStates, clock) && RowsUpTo(db.rows, clock) && From(other, clock)
      requires Works(first, At(Flush(Drained)))
      modifies this
      ensures Works(first, At(if more then Top else Idle))
    {
      hide Works, Record, AllSupersede, UpTo, RowsUpTo, From, Restore, UpsertAll;
      FlushUpTo(At(Flush(Drained)), Drained, writeOk, clock);
      FlushReturns(first, At(Flush(Drained)), Drained, writeOk);
      var flushed := FlushCursor(writeOk, Drained);
      if flushed {
        return true;
      }
      FromSupersedes(other, db.rows, clock);
      RefreshWorks(first, At(HealthDelivery.TakeRefresh), other);
      var taken := TakeRefresh();
      if taken {
        Deliver(Snapshot, other);
        return true;
      }
      return false;
    }
  }
}
