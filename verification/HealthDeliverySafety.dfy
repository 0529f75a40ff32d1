/** What every run of the delivery protocol keeps: the cursor never passes a row that was not delivered, stored
    states are those of the rows up to the stored cursor, and no wakeup is lost. */
module HealthDeliverySafety {
  import opened MemberRows
  import opened HealthDelivery

  // -------------------------------------------------------------------------------------------
  // The cursor
  // -------------------------------------------------------------------------------------------

  predicate Clear(s: State) {
    s.sub.pendingCursor == 0 && s.sub.pending == []
  }

  /** The in-memory cursor is the persisted one, or it is the pending one and runs ahead of it. */
  predicate InStep(s: State) {
    if s.sub.pendingCursor == 0 then s.sub.cursor == s.db.cursor
    else s.sub.pendingCursor == s.sub.cursor && s.db.cursor < s.sub.cursor
  }

  // The batch being applied is the next stretch of the journal after the persisted cursor.
  predicate Reading(s: State, rows: seq<Row>, i: nat) {
    0 < |rows| <= BATCH && i <= |rows|
    && !s.sub.blocked
    && rows == Between(s.db.all, s.db.cursor, rows[|rows| - 1].num)
    && rows[|rows| - 1].num <= s.db.top
    && s.sub.cursor == (if i == 0 then s.db.cursor else rows[i - 1].num)
  }

  predicate AtPosition(s: State) {
    var sub := s.sub;
    match s.pc
    case Idle => (sub.closed || sub.blocked || Clear(s)) && (sub.blocked ==> !Clear(s))
    case Top => (sub.closed || sub.blocked || sub.pendingCursor == 0) && (sub.blocked ==> !Clear(s))
    case PopInline => !sub.blocked && (sub.closed || sub.pendingCursor == 0)
    case ReadCheck => !sub.blocked && (sub.closed || sub.pendingCursor == 0)
    case Listing(after) => !sub.blocked && sub.pendingCursor == 0 && after == sub.cursor
    case Batch(rows, i) => Reading(s, rows, i)
    case Passing(rows, i) => i < |rows| && Reading(s, rows, i)
    case Flush(why) => (sub.blocked <==> why == Parked) && (sub.blocked ==> !Clear(s))
    case Committing(why, num, states) => num == sub.pendingCursor && sub.pending == [] && (num != 0 || states != [])
    case Saved(why, num) => num == sub.pendingCursor && sub.pending == []
    case Undo(why, states) => sub.pending == [] && (sub.pendingCursor != 0 || states != [])
    case Block(why) => !Clear(s)
    case ArmBlocked(why) => sub.blocked && !Clear(s)
    case ArmUnread => !sub.blocked
    case Return(why, ok) =>
      if ok then !sub.blocked && Clear(s)
      else (sub.closed || sub.blocked || (Clear(s) && why != Parked)) && (sub.blocked ==> !Clear(s))
    case TakeRefresh => (sub.closed || sub.blocked || Clear(s)) && (sub.blocked ==> !Clear(s))
    case Exited => true
  }

  predicate Progress(s: State) {
    JournalSound(s.db)
    && 0 <= s.log.start <= s.log.from <= s.db.cursor <= s.sub.cursor <= s.db.top
    && (if s.pc.Saved? then
          s.sub.cursor == s.db.cursor && (s.pc.num == 0 || s.pc.num == s.sub.cursor)
        else InStep(s))
    && |Between(s.db.all, s.db.cursor, s.sub.cursor)| <= BATCH
    && AtPosition(s)
  }

  lemma NoStretch(all: seq<Row>, c: int)
    ensures Between(all, c, c) == []
  {
  }

  lemma ListingKeepsProgress(s: State, a: Answer)
    requires Progress(s) && s.pc.Listing? && WorkEnabled(s)
    ensures Progress(Work(s, a))
  {
    var rows := List(s.db, s.db.cursor);
    ListIsNext(s.db);
    if rows != [] {
      BetweenOf(s.db.all, s.db.cursor, rows[|rows| - 1].num, rows[|rows| - 1]);
    }
  }

  lemma PassingKeepsProgress(s: State, a: Answer)
    requires Progress(s) && s.pc.Passing?
    ensures Progress(Work(s, a))
    ensures Work(s, a).sub.cursor == s.pc.rows[s.pc.i].num == Work(s, a).sub.pendingCursor > s.sub.cursor
  {
    var rows, i := s.pc.rows, s.pc.i;
    var last := rows[|rows| - 1].num;
    BetweenIncreasing(s.db.all, s.db.cursor, last);
    BetweenOf(s.db.all, s.db.cursor, last, rows[i]);
    BetweenPrefix(s.db.all, s.db.cursor, last, i + 1);
    hide Between;
  }

  lemma CommitKeepsProgress(s: State, a: Answer)
    requires Progress(s) && s.pc.Committing?
    ensures Progress(Work(s, a))
  {
    NoStretch(s.db.all, s.sub.cursor);
  }

  lemma BatchKeepsProgress(s: State, a: Answer)
    requires Progress(s) && s.pc.Batch? && WorkEnabled(s)
    ensures Progress(Work(s, a))
  {
    hide Between, Increasing, Record, Takes;
  }

  lemma CallKeepsProgress(s: State, a: Answer)
    requires Progress(s) && (s.pc.PopInline? || s.pc.TakeRefresh?)
    ensures Progress(Work(s, a))
  {
    RecordGrows(s.sub.pending, a.states);
    hide Between, Increasing, Record;
  }

  lemma {:induction false} RecordGrows(pending: seq<NodeState>, states: seq<NodeState>)
    ensures |pending| <= |Record(pending, states)|
  {
    if states != [] {
      RecordGrows(pending, states[..|states| - 1]);
    }
  }

  lemma FlushKeepsProgress(s: State, a: Answer)
    requires Progress(s) && (s.pc.Flush? || s.pc.Saved? || s.pc.Return?)
    ensures Progress(Work(s, a))
  {
    hide Between, Increasing, JournalSound;
  }

  lemma UndoKeepsProgress(s: State, a: Answer)
    requires Progress(s) && (s.pc.Undo? || s.pc.Block? || s.pc.ArmBlocked?)
    ensures Progress(Work(s, a))
  {
    if s.pc.Undo? && s.pc.states != [] {
      RestoreSome(s.sub.pending, s.pc.states);
    }
    hide Between, Increasing, JournalSound, Restore;
  }

  lemma WorkKeepsProgress(s: State, a: Answer)
    requires Progress(s) && WorkEnabled(s)
    ensures Progress(Work(s, a))
  {
    match s.pc
    case Listing(_) => ListingKeepsProgress(s, a);
    case Passing(_, _) => PassingKeepsProgress(s, a);
    case Committing(_, _, _) => CommitKeepsProgress(s, a);
    case Batch(_, _) => BatchKeepsProgress(s, a);
    case PopInline => CallKeepsProgress(s, a);
    case TakeRefresh => CallKeepsProgress(s, a);
    case Idle =>
    case Top =>
    case ReadCheck =>
    case ArmUnread =>
    case Flush(_) => FlushKeepsProgress(s, a);
    case Saved(_, _) => FlushKeepsProgress(s, a);
    case Return(_, _) => FlushKeepsProgress(s, a);
    case _ => UndoKeepsProgress(s, a);
  }

  lemma RestoreSome(pending: seq<NodeState>, states: seq<NodeState>)
    requires states != []
    ensures Restore(pending, states) != []
  {
  }

  lemma AppendKeepsProgress(s: State, row: Row)
    requires Progress(s) && Enabled(s, Append(row))
    ensures Progress(Next(s, Append(row)))
  {
    hide Between, Increasing, JournalSound, AtPosition;
    AppendBeyond(s.db.all, row, s.db.cursor, s.sub.cursor);
    AppendKeepsJournal(s.db, row);
    AppendKeepsPosition(s, row);
  }

  lemma AppendKeepsPosition(s: State, row: Row)
    requires AtPosition(s) && row.num > s.db.top
    ensures AtPosition(Next(s, Append(row)))
  {
    hide Reading;
    if s.pc.Batch? || s.pc.Passing? {
      AppendKeepsReading(s, row, s.pc.rows, s.pc.i);
    }
  }

  lemma AppendKeepsReading(s: State, row: Row, rows: seq<Row>, i: nat)
    requires Reading(s, rows, i) && row.num > s.db.top
    ensures Reading(Next(s, Append(row)), rows, i)
  {
    hide Between;
    AppendBeyond(s.db.all, row, s.db.cursor, rows[|rows| - 1].num);
  }

  lemma AppendKeepsJournal(db: Store, row: Row)
    requires JournalSound(db) && row.num > db.top
    ensures JournalSound(db.(all := db.all + [row], top := row.num))
  {
  }

  lemma NextKeepsProgress(s: State, a: Action)
    requires Progress(s) && Enabled(s, a)
    ensures Progress(Next(s, a))
  {
    match a
    case Worker(answer) => WorkKeepsProgress(s, answer);
    case Append(row) => AppendKeepsProgress(s, row);
    case Restart => NoStretch(s.db.all, s.db.cursor);
    case _ =>
      hide Between;
  }

  // -------------------------------------------------------------------------------------------
  // What was delivered and what was stored
  // -------------------------------------------------------------------------------------------

  /** The journal rows among the calls. */
  function RowsOf(calls: seq<Call>): seq<Row> {
    if calls == [] then []
    else
      var before := RowsOf(calls[..|calls| - 1]);
      var item := calls[|calls| - 1].item;
      if item.Journal? then before + [item.row] else before
  }

  /** Every state the calls produced, in order. */
  function StatesOf(calls: seq<Call>): seq<NodeState> {
    if calls == [] then [] else StatesOf(calls[..|calls| - 1]) + calls[|calls| - 1].states
  }

  /** The states that are produced but not yet stored, wherever the worker keeps them. */
  function Held(s: State): seq<NodeState> {
    match s.pc
    case Committing(_, _, states) => states
    case Undo(_, states) => states
    case _ => s.sub.pending
  }

  /** The stored rows are those found at registration overridden by the newest state of each member among the
      committed calls; the states held back have one entry a member and are the newest of the other calls. */
  predicate StatesFold(held: seq<NodeState>, rows: Rows, base: Rows, calls: seq<Call>, saved: nat) {
    saved <= |calls|
    && UniqueKeys(held)
    && (forall i :: 0 <= i < |held| ==> Supersedes(held[i], rows))
    && Newest(held) == Newest(StatesOf(calls[saved..]))
    && rows == base + Newest(StatesOf(calls[..saved]))
  }

  /** The calls are exactly the rows the filter takes, in order and without repetition: all up to the in-memory
      cursor, and the committed ones up to the persisted cursor. */
  predicate RowsFold(f: Filter, all: seq<Row>, from: int, committed: int, cursor: int, current: seq<Row>,
                     calls: seq<Call>, saved: nat)
  {
    saved <= |calls|
    && RowsOf(calls) == Taken(f, Between(all, from, cursor)) + current
    && RowsOf(calls[..saved]) == Taken(f, Between(all, from, committed))
  }

  // The row whose callback has run while the cursor still stands before it.
  function Current(s: State): seq<Row> {
    if s.pc.Passing? && s.pc.i < |s.pc.rows| && Takes(s.f, s.pc.rows[s.pc.i]) then [s.pc.rows[s.pc.i]] else []
  }

  predicate StatesSound(s: State) {
    StatesFold(Held(s), s.db.rows, s.log.base, s.log.calls, s.log.saved)
  }

  predicate RowsSound(s: State) {
    RowsFold(s.f, s.db.all, s.log.from, s.db.cursor, s.sub.cursor, Current(s), s.log.calls, s.log.saved)
  }

  lemma {:induction false} StatesOfConcat(a: seq<Call>, b: seq<Call>)
    ensures StatesOf(a + b) == StatesOf(a) + StatesOf(b)
  {
    if b == [] {
      assert a + b == a;
    } else {
      assert (a + b)[..|a + b| - 1] == a + b[..|b| - 1];
      StatesOfConcat(a, b[..|b| - 1]);
    }
  }

  lemma {:induction false} RecordFrom(pending: seq<NodeState>, states: seq<NodeState>, rows: Rows)
    requires forall i :: 0 <= i < |pending| ==> Supersedes(pending[i], rows)
    requires forall i :: 0 <= i < |states| ==> Supersedes(states[i], rows)
    ensures forall i :: 0 <= i < |Record(pending, states)| ==> Supersedes(Record(pending, states)[i], rows)
  {
    if states != [] {
      RecordFrom(pending, states[..|states| - 1], rows);
    }
  }

  lemma StatesAfterCall(held: seq<NodeState>, rows: Rows, base: Rows, calls: seq<Call>, saved: nat, c: Call)
    requires StatesFold(held, rows, base, calls, saved)
    requires forall i :: 0 <= i < |c.states| ==> Supersedes(c.states[i], rows)
    ensures StatesFold(Record(held, c.states), rows, base, calls + [c], saved)
  {
    RecordFrom(held, c.states, rows);
    RecordNewest(held, c.states);
    var rest := calls[saved..];
    assert (calls + [c])[saved..] == rest + [c];
    assert (calls + [c])[..saved] == calls[..saved];
    assert (rest + [c])[..|rest + [c]| - 1] == rest;
    NewestConcat(StatesOf(rest), c.states);
    hide UniqueKeys, Newest, Record, Supersedes;
  }

  lemma FoldJoins(calls: seq<Call>, saved: nat)
    requires saved <= |calls|
    ensures Newest(StatesOf(calls[..saved])) + Newest(StatesOf(calls[saved..])) == Newest(StatesOf(calls))
  {
    var a, b := calls[..saved], calls[saved..];
    assert calls == a + b;
    StatesOfConcat(a, b);
    NewestConcat(StatesOf(a), StatesOf(b));
  }

  lemma MergeTwice(base: Rows, a: Rows, b: Rows)
    ensures (base + a) + b == base + (a + b)
  {
  }

  lemma StatesAfterCommit(held: seq<NodeState>, rows: Rows, base: Rows, calls: seq<Call>, saved: nat)
    requires StatesFold(held, rows, base, calls, saved)
    ensures StatesFold([], UpsertAll(rows, held), base, calls, |calls|)
  {
    UpsertAllOverrides(rows, held);
    FoldJoins(calls, saved);
    MergeTwice(base, Newest(StatesOf(calls[..saved])), Newest(StatesOf(calls[saved..])));
    NothingHeld(UpsertAll(rows, held), base, calls);
    hide Newest, UpsertAll, Supersedes, UniqueKeys, StatesOf;
  }

  lemma NewestOfNone()
    ensures Newest([]) == map[]
  {
  }

  lemma NothingHeld(rows: Rows, base: Rows, calls: seq<Call>)
    requires rows == base + Newest(StatesOf(calls))
    ensures StatesFold([], rows, base, calls, |calls|)
  {
  }

  lemma CallKeepsStates(s: State, a: Answer)
    requires StatesSound(s) && Enabled(s, Worker(a)) && (s.pc.PopInline? || s.pc.TakeRefresh? || s.pc.Batch?)
    ensures StatesSound(Work(s, a))
  {
    hide StatesFold, Record, Supersedes, Takes;
    var log, t := s.log, Work(s, a);
    if |t.log.calls| > |log.calls| {
      var c := t.log.calls[|log.calls|];
      assert t.log.calls == log.calls + [c] && t.sub.pending == Record(s.sub.pending, c.states) && c.states == a.states;
      StatesAfterCall(s.sub.pending, s.db.rows, log.base, log.calls, log.saved, c);
    }
  }

  // The worker's other steps move the states without changing them.
  predicate Quiet(pc: Pc) {
    !pc.PopInline? && !pc.TakeRefresh? && !pc.Batch? && !pc.Committing? && !pc.Undo?
  }

  lemma QuietWork(s: State, a: Answer)
    requires WorkEnabled(s) && Quiet(s.pc)
    ensures Held(Work(s, a)) == Held(s) && Work(s, a).db == s.db && Work(s, a).log == s.log
  {
  }

  lemma WorkKeepsStates(s: State, a: Answer)
    requires Progress(s) && StatesSound(s) && Enabled(s, Worker(a))
    ensures StatesSound(Work(s, a))
  {
    hide StatesFold, Supersedes;
    if s.pc.PopInline? || s.pc.TakeRefresh? || s.pc.Batch? {
      CallKeepsStates(s, a);
    } else if s.pc.Committing? {
      CommitKeepsStates(s, a);
    } else if s.pc.Undo? {
      UndoKeepsStates(s, a);
    } else {
      hide Progress;
      QuietWork(s, a);
    }
  }

  lemma UndoKeepsStates(s: State, a: Answer)
    requires Progress(s) && StatesSound(s) && s.pc.Undo?
    ensures StatesSound(Work(s, a))
  {
    RestoreToEmpty(s.pc.states);
    hide StatesFold, Restore;
  }

  lemma CommitKeepsStates(s: State, a: Answer)
    requires Progress(s) && StatesSound(s) && s.pc.Committing?
    ensures StatesSound(Work(s, a))
  {
    hide StatesFold, UpsertAll;
    StatesAfterCommit(s.pc.states, s.db.rows, s.log.base, s.log.calls, s.log.saved);
  }

  lemma NextKeepsStates(s: State, a: Action)
    requires Progress(s) && StatesSound(s) && Enabled(s, a)
    ensures StatesSound(Next(s, a))
  {
    hide StatesFold, Progress;
    match a
    case Worker(answer) => WorkKeepsStates(s, answer);
    case Restart => NothingHeldAfresh(s.db.rows);
    case _ =>
  }

  lemma NothingHeldAfresh(rows: Rows)
    ensures StatesFold([], rows, rows, [], 0)
  {
    assert rows == rows + map[];
  }

  lemma RowsAfterCall(f: Filter, all: seq<Row>, from: int, committed: int, cursor: int, calls: seq<Call>, saved: nat,
                      c: Call)
    requires RowsFold(f, all, from, committed, cursor, [], calls, saved)
    ensures RowsFold(f, all, from, committed, cursor, if c.item.Journal? then [c.item.row] else [], calls + [c], saved)
  {
    assert (calls + [c])[..|calls + [c]| - 1] == calls;
    assert (calls + [c])[..saved] == calls[..saved];
  }

  lemma RowsAfterCommit(f: Filter, all: seq<Row>, from: int, committed: int, cursor: int, calls: seq<Call>, saved: nat)
    requires RowsFold(f, all, from, committed, cursor, [], calls, saved)
    ensures RowsFold(f, all, from, cursor, cursor, [], calls, |calls|)
  {
    assert calls[..|calls|] == calls;
  }

  lemma NextInStretch(all: seq<Row>, lo: int, hi: int, rows: seq<Row>, i: nat)
    requires Increasing(all) && rows == Between(all, lo, hi) && i < |rows|
    ensures Between(all, if i == 0 then lo else rows[i - 1].num, rows[i].num) == [rows[i]]
  {
    var r := rows[i];
    var mid := if i == 0 then lo else rows[i - 1].num;
    BetweenIncreasing(all, lo, hi);
    BetweenOf(all, lo, hi, r);
    BetweenPrefix(all, lo, hi, i + 1);
    if i == 0 { NoStretch(all, lo); } else { BetweenPrefix(all, lo, hi, i); BetweenOf(all, lo, hi, rows[i - 1]); }
    BetweenJoin(all, lo, mid, r.num);
    hide Between;
    assert rows[..i + 1] == rows[..i] + [r];
  }

  lemma RowsAfterOne(f: Filter, all: seq<Row>, from: int, committed: int, cursor: int, r: Row, calls: seq<Call>,
                     saved: nat)
    requires Increasing(all) && from <= cursor <= r.num && Between(all, cursor, r.num) == [r]
    requires RowsFold(f, all, from, committed, cursor, if Takes(f, r) then [r] else [], calls, saved)
    ensures RowsFold(f, all, from, committed, r.num, [], calls, saved)
  {
    BetweenJoin(all, from, cursor, r.num);
    TakenConcat(f, Between(all, from, cursor), [r]);
    TakenOne(f, r);
  }

  lemma RowsAfterPassing(s: State, a: Answer)
    requires Progress(s) && RowsSound(s) && s.pc.Passing?
    ensures RowsSound(Work(s, a))
  {
    var rows, i := s.pc.rows, s.pc.i;
    PassingKeepsProgress(s, a);
    NextInStretch(s.db.all, s.db.cursor, rows[|rows| - 1].num, rows, i);
    RowsAfterOne(s.f, s.db.all, s.log.from, s.db.cursor, s.sub.cursor, rows[i], s.log.calls, s.log.saved);
    hide Between, Taken, RowsOf, Increasing, RowsFold;
  }

  lemma TakenOne(f: Filter, r: Row)
    ensures Taken(f, [r]) == if Takes(f, r) then [r] else []
  {
  }

  lemma CallKeepsRows(s: State, a: Answer)
    requires RowsSound(s) && WorkEnabled(s) && (s.pc.PopInline? || s.pc.TakeRefresh? || s.pc.Batch?)
    ensures RowsSound(Work(s, a))
  {
    hide RowsFold, Record;
    var log, t := s.log, Work(s, a);
    if |t.log.calls| > |log.calls| {
      var c := t.log.calls[|log.calls|];
      assert t.log.calls == log.calls + [c];
      RowsAfterCall(s.f, s.db.all, log.from, s.db.cursor, s.sub.cursor, log.calls, log.saved, c);
    }
  }

  lemma QuietForRows(s: State, a: Answer)
    requires WorkEnabled(s) && !s.pc.Passing? && (Quiet(s.pc) || s.pc.Undo?)
    ensures !Work(s, a).pc.Passing? && Current(Work(s, a)) == Current(s) && Work(s, a).sub.cursor == s.sub.cursor
    ensures Work(s, a).db == s.db && Work(s, a).log == s.log && Work(s, a).f == s.f
  {
  }

  lemma WorkKeepsRows(s: State, a: Answer)
    requires Progress(s) && RowsSound(s) && WorkEnabled(s)
    ensures RowsSound(Work(s, a))
  {
    hide RowsFold;
    if s.pc.PopInline? || s.pc.TakeRefresh? || s.pc.Batch? {
      CallKeepsRows(s, a);
    } else if s.pc.Committing? {
      RowsAfterCommit(s.f, s.db.all, s.log.from, s.db.cursor, s.sub.cursor, s.log.calls, s.log.saved);
      hide UpsertAll;
    } else if s.pc.Passing? {
      RowsAfterPassing(s, a);
    } else {
      hide Progress;
      QuietForRows(s, a);
    }
  }

  lemma NextKeepsRows(s: State, a: Action)
    requires Progress(s) && RowsSound(s) && Enabled(s, a)
    ensures RowsSound(Next(s, a))
  {
    match a
    case Worker(answer) => WorkKeepsRows(s, answer);
    case Append(row) =>
      AppendBeyond(s.db.all, row, s.log.from, s.sub.cursor);
      AppendBeyond(s.db.all, row, s.log.from, s.db.cursor);
    case Restart => NoStretch(s.db.all, s.db.cursor);
    case _ =>
      hide RowsFold, Progress;
  }

  // -------------------------------------------------------------------------------------------
  // Across registrations
  // -------------------------------------------------------------------------------------------

  /** Fewer than a batch of rows lie between a cursor and a number. */
  predicate Near(db: Store, cursor: int, n: int) {
    n > cursor ==> n <= db.top && |Between(db.all, cursor, n)| <= BATCH
  }

  /** Every row the filter takes up to the in-memory cursor has been delivered in this registration or an earlier
      one, and a row delivered beyond the persisted cursor is among the next batch after it. */
  predicate DeliveredSound(s: State) {
    var log := s.log;
    (forall i :: 0 <= i < |s.db.all| ==>
       Takes(s.f, s.db.all[i]) && log.start < s.db.all[i].num <= s.sub.cursor ==> s.db.all[i].num in log.ever)
    && (forall n :: n in log.ever ==> Near(s.db, s.db.cursor, n))
    && (forall n :: n in log.before ==> Near(s.db, log.from, n))
    && (s.pc.Passing? && s.pc.i < |s.pc.rows| && Takes(s.f, s.pc.rows[s.pc.i]) ==> s.pc.rows[s.pc.i].num in log.ever)
  }

  lemma NearerLater(db: Store, lo: int, cursor: int, n: int)
    requires JournalSound(db) && lo <= cursor && Near(db, lo, n)
    ensures Near(db.(cursor := cursor), cursor, n)
  {
    if n > cursor {
      BetweenJoin(db.all, lo, cursor, n);
    }
  }

  lemma BatchKeepsDelivered(s: State, a: Answer)
    requires Progress(s) && DeliveredSound(s) && s.pc.Batch? && WorkEnabled(s)
    ensures DeliveredSound(Work(s, a))
  {
    var rows, i := s.pc.rows, s.pc.i;
    if i < |rows| {
      var last := rows[|rows| - 1].num;
      BetweenPrefix(s.db.all, s.db.cursor, last, i + 1);
      BetweenOf(s.db.all, s.db.cursor, last, rows[i]);
      BetweenIncreasing(s.db.all, s.db.cursor, last);
      assert Near(s.db, s.db.cursor, rows[i].num);
    }
    hide Between, Near, Record, Increasing, Takes, JournalSound;
  }

  lemma PassingKeepsDelivered(s: State, a: Answer)
    requires Progress(s) && DeliveredSound(s) && s.pc.Passing?
    ensures DeliveredSound(Work(s, a))
  {
    var rows, i, t := s.pc.rows, s.pc.i, Work(s, a);
    PassingKeepsProgress(s, a);
    NextInStretch(s.db.all, s.db.cursor, rows[|rows| - 1].num, rows, i);
    hide Near, Takes, Increasing;
    forall k | 0 <= k < |s.db.all| && Takes(s.f, s.db.all[k]) && s.log.start < s.db.all[k].num <= t.sub.cursor
      ensures s.db.all[k].num in s.log.ever
    {
      BetweenOf(s.db.all, s.sub.cursor, rows[i].num, s.db.all[k]);
    }
  }

  lemma CommitKeepsDelivered(s: State, a: Answer)
    requires Progress(s) && DeliveredSound(s) && s.pc.Committing?
    ensures DeliveredSound(Work(s, a))
  {
    var t := Work(s, a);
    if a.ok {
      forall n | n in s.log.ever ensures Near(t.db, t.db.cursor, n) {
        NearerLater(s.db, s.db.cursor, t.db.cursor, n);
      }
    }
    hide Takes;
  }

  lemma WorkKeepsDelivered(s: State, a: Answer)
    requires Progress(s) && DeliveredSound(s) && WorkEnabled(s)
    ensures DeliveredSound(Work(s, a))
  {
    hide Near, Takes, Record, JournalSound, List, Restore;
    if s.pc.Batch? {
      BatchKeepsDelivered(s, a);
    } else if s.pc.Passing? {
      PassingKeepsDelivered(s, a);
    } else if s.pc.Committing? {
      CommitKeepsDelivered(s, a);
    } else if s.pc.PopInline? || s.pc.TakeRefresh? {
      CallForDelivered(s, a);
    } else {
      hide Progress;
      QuietForRows(s, a);
    }
  }

  lemma CallForDelivered(s: State, a: Answer)
    requires s.pc.PopInline? || s.pc.TakeRefresh?
    ensures Work(s, a).sub.cursor == s.sub.cursor && Work(s, a).db == s.db && Work(s, a).f == s.f
            && !Work(s, a).pc.Passing?
    ensures Work(s, a).log == s.log.(calls := Work(s, a).log.calls)
  {
  }

  lemma AppendKeepsDelivered(s: State, row: Row)
    requires Progress(s) && DeliveredSound(s) && Enabled(s, Append(row))
    ensures DeliveredSound(Next(s, Append(row)))
  {
  }

  lemma NextKeepsDelivered(s: State, a: Action)
    requires Progress(s) && DeliveredSound(s) && Enabled(s, a)
    ensures DeliveredSound(Next(s, a))
  {
    match a
    case Worker(answer) => WorkKeepsDelivered(s, answer);
    case Append(row) => AppendKeepsDelivered(s, row);
    case Prune(dead) =>
      assert forall c, n :: Near(s.db, c, n) ==> Near(Next(s, a).db, c, n);
      hide Near, Takes;
    case _ =>
      hide Near, Takes;
  }

  // -------------------------------------------------------------------------------------------
  // Wakeups
  // -------------------------------------------------------------------------------------------

  /** Something will hand the worker a token, or has. */
  predicate Coming(s: State) {
    s.sub.wake || s.sub.armed || s.log.senders > 0
  }

  /** Work the worker has looked past in this step has a token coming. */
  predicate Awake(s: State) {
    var sub := s.sub;
    var inlineSeen := sub.inline != [] ==> Coming(s);
    var seen := inlineSeen && (sub.dirty ==> Coming(s));
    !sub.closed ==>
      match s.pc
      case Idle => seen && (sub.refresh ==> Coming(s)) && (sub.blocked ==> Coming(s))
      case ReadCheck => inlineSeen
      case Listing(_) => seen
      case Batch(_, _) => seen
      case Passing(_, _) => seen
      case Flush(why) => why == Drained ==> seen
      case Committing(why, _, _) => why == Drained ==> seen
      case Saved(why, _) => why == Drained ==> seen
      case Undo(why, _) => why == Drained ==> seen
      case Block(why) => why == Drained ==> seen
      case ArmBlocked(why) => why == Drained ==> seen
      case ArmUnread => inlineSeen
      case Return(why, ok) => (why == Drained ==> seen) && (!ok && s.sub.blocked ==> Coming(s))
      case TakeRefresh => seen && (sub.blocked ==> Coming(s))
      case Exited => false
      case _ => true
  }

  lemma WorkStaysAwake(s: State, a: Answer)
    requires Progress(s) && Awake(s) && WorkEnabled(s)
    ensures Awake(Work(s, a))
  {
    hide Between, JournalSound, Record, Restore, List, UpsertAll, Takes, Reading, InStep;
  }

  lemma NextStaysAwake(s: State, a: Action)
    requires Progress(s) && Awake(s) && Enabled(s, a)
    ensures Awake(Next(s, a))
  {
    match a
    case Worker(answer) => WorkStaysAwake(s, answer);
    case _ =>
      hide Between, JournalSound, Reading, InStep, Progress;
  }

  /** The consumer has passed the highest row it was told of, or the read that will reach it is under way or
      requested. */
  predicate Informed(s: State) {
    (s.log.told == 0 || exists i :: 0 <= i < |s.db.all| && s.db.all[i].num == s.log.told)
    && (s.sub.closed || s.log.told <= s.sub.cursor || s.sub.dirty || s.pc.Listing?
        || (s.pc.Batch? && (|s.pc.rows| == BATCH || (|s.pc.rows| > 0 && s.log.told <= s.pc.rows[|s.pc.rows| - 1].num)))
        || (s.pc.Passing? && (|s.pc.rows| == BATCH || (|s.pc.rows| > 0
           && s.log.told <= s.pc.rows[|s.pc.rows| - 1].num))))
  }

  lemma ListingStaysInformed(s: State, a: Answer)
    requires Progress(s) && Informed(s) && s.pc.Listing?
    ensures Informed(Work(s, a))
  {
  }

  lemma WorkStaysInformed(s: State, a: Answer)
    requires Progress(s) && Informed(s) && WorkEnabled(s)
    ensures Informed(Work(s, a))
  {
    if s.pc.Listing? {
      ListingStaysInformed(s, a);
    } else {
      hide Between, JournalSound, Record, Restore, List, UpsertAll, Takes, InStep;
    }
  }

  lemma NextStaysInformed(s: State, a: Action)
    requires Progress(s) && Informed(s) && Enabled(s, a)
    ensures Informed(Next(s, a))
  {
    match a
    case Worker(answer) => WorkStaysInformed(s, answer);
    case Append(row) =>
      var all := Next(s, a).db.all;
      assert forall i :: 0 <= i < |s.db.all| ==> all[i] == s.db.all[i];
    case _ =>
      hide Between, JournalSound, InStep, AtPosition;
  }

  // -------------------------------------------------------------------------------------------
  // Whole runs
  // -------------------------------------------------------------------------------------------

  predicate Inv(s: State) {
    Progress(s) && StatesSound(s) && RowsSound(s) && DeliveredSound(s) && Awake(s) && Informed(s)
  }

  lemma InitialInv(s: State)
    requires Initial(s)
    ensures Inv(s)
  {
    NoStretch(s.db.all, s.db.cursor);
    assert s.db.rows == s.db.rows + map[];
    hide Between, After;
  }

  lemma NextKeepsInv(s: State, a: Action)
    requires Inv(s) && Enabled(s, a)
    ensures Inv(Next(s, a))
  {
    NextKeepsProgress(s, a);
    NextKeepsStates(s, a);
    NextKeepsRows(s, a);
    NextKeepsDelivered(s, a);
    NextStaysAwake(s, a);
    NextStaysInformed(s, a);
    hide Progress, StatesSound, RowsSound, DeliveredSound, Awake, Informed, Next, Enabled;
  }

  ghost predicate Reachable(s: State) {
    exists trace: seq<State> :: Run(trace) && s == trace[|trace| - 1]
  }

  lemma {:induction false} RunKeepsInv(trace: seq<State>)
    requires Run(trace)
    ensures Inv(trace[|trace| - 1])
  {
    hide Inv, Initial, Enabled, Next;
    if |trace| == 1 {
      InitialInv(trace[0]);
    } else {
      var shorter := trace[..|trace| - 1];
      assert forall i :: 0 < i < |shorter| ==> Follows(trace[i - 1], trace[i]);
      RunKeepsInv(shorter);
      var s, t := trace[|trace| - 2], trace[|trace| - 1];
      assert Follows(s, t);
      var a: Action :| Enabled(s, a) && t == Next(s, a);
      NextKeepsInv(s, a);
    }
  }

  lemma ReachableInv(s: State)
    requires Reachable(s)
    ensures Inv(s)
  {
    var trace: seq<State> :| Run(trace) && s == trace[|trace| - 1];
    RunKeepsInv(trace);
  }

  /** Delivery in order, exactly once a registration and at least once over all: the calls of a registration are
      the rows the filter takes between the cursor it found and the cursor it reached, in increasing order, and
      every such row after the first persisted cursor and up to the persisted one has been delivered. */
  lemma DeliveredInOrder(s: State)
    requires Reachable(s)
    ensures RowsOf(s.log.calls) == Window(s, s.log.from, s.sub.cursor) + Current(s)
    ensures Increasing(Window(s, s.log.from, s.sub.cursor))
    ensures forall r :: r in s.db.all && Takes(s.f, r) && s.log.start < r.num <= s.db.cursor ==> r.num in s.log.ever
  {
    ReachableInv(s);
    BetweenIncreasing(s.db.all, s.log.from, s.sub.cursor);
    TakenIncreasing(s.f, Between(s.db.all, s.log.from, s.sub.cursor));
    hide Between, Taken, Takes, Near, StatesSound, AtPosition;
  }

  /** Which rows those are, in tags and nodes: of the rows the registration has passed it has delivered exactly those
      that a subscriber to everything wants, that bear one of its tags, or that come from one of its nodes; and a row of
      any of these kinds between the first cursor and the stored one has been delivered by some registration. */
  lemma DeliveredAreThoseWanted(s: State, r: Row)
    requires Reachable(s) && r in s.db.all
    ensures s.log.from < r.num <= s.sub.cursor ==>
              (r in RowsOf(s.log.calls) <==>
                 s.f.everything || r.tag in s.f.tags || (r.nodeId != 0 && r.nodeId in s.f.nodeIds))
    ensures s.log.start < r.num <= s.db.cursor
            && (s.f.everything || r.tag in s.f.tags || (r.nodeId != 0 && r.nodeId in s.f.nodeIds)) ==>
              r.num in s.log.ever
  {
    DeliveredInOrder(s);
    BetweenOf(s.db.all, s.log.from, s.sub.cursor, r);
    TakenOf(s.f, Between(s.db.all, s.log.from, s.sub.cursor), r);
    hide Between, Taken, RowsOf, Reachable, Increasing;
  }

  /** Progress and state commit together: at all times there is one number of calls that covers exactly the rows up
      to the persisted cursor and produced exactly the stored member states. */
  lemma StoredMatchesCursor(s: State)
    requires Reachable(s)
    ensures s.log.saved <= |s.log.calls|
    ensures RowsOf(s.log.calls[..s.log.saved]) == Window(s, s.log.from, s.db.cursor)
    ensures s.db.rows == s.log.base + Newest(StatesOf(s.log.calls[..s.log.saved]))
    ensures UniqueKeys(Held(s)) && Newest(Held(s)) == Newest(StatesOf(s.log.calls[s.log.saved..]))
  {
    ReachableInv(s);
    hide Progress, DeliveredSound, Awake, Informed;
  }

  /** A registration delivers again at most one batch of what came before it. */
  lemma RedeliveriesFitTheRing(s: State)
    requires Reachable(s)
    ensures |set r | r in RowsOf(s.log.calls) && r.num in s.log.before| <= 64
  {
    ReachableInv(s);
    var again := set r | r in RowsOf(s.log.calls) && r.num in s.log.before;
    forall r | r in again ensures r in s.db.all && s.log.from < r.num && Near(s.db, s.log.from, r.num) {
      CallsFromJournal(s, r);
    }
    NearSetIsSmall(s.db, s.log.from, again);
  }

  lemma CallsFromJournal(s: State, r: Row)
    requires Inv(s) && r in RowsOf(s.log.calls)
    ensures r in s.db.all && s.log.from < r.num
  {
    if r in Current(s) {
      var last := s.pc.rows[|s.pc.rows| - 1].num;
      assert r in s.pc.rows;
      BetweenOf(s.db.all, s.db.cursor, last, r);
    } else {
      TakenOf(s.f, Between(s.db.all, s.log.from, s.sub.cursor), r);
      BetweenOf(s.db.all, s.log.from, s.sub.cursor, r);
    }
    hide Between, Taken, Takes, StatesSound, DeliveredSound, Awake, Informed;
  }

  lemma {:induction false} NearSetIsSmall(db: Store, from: int, rows: set<Row>)
    requires JournalSound(db)
    requires forall r :: r in rows ==> r in db.all && from < r.num && Near(db, from, r.num)
    ensures |rows| <= BATCH
  {
    if rows != {} {
      var last := Highest(rows);
      var stretch := Between(db.all, from, last.num);
      forall r | r in rows ensures r in stretch {
        BetweenOf(db.all, from, last.num, r);
      }
      SetOfSeq(stretch, rows);
    }
  }

  lemma {:induction false} Highest(rows: set<Row>) returns (last: Row)
    requires rows != {}
    ensures last in rows && forall r :: r in rows ==> r.num <= last.num
  {
    last :| last in rows;
    if rows - {last} != {} {
      var other := Highest(rows - {last});
      if other.num > last.num {
        last := other;
      }
    }
  }

  lemma {:induction false} SetOfSeq(list: seq<Row>, rows: set<Row>)
    requires forall r :: r in rows ==> r in list
    ensures |rows| <= |list|
  {
    if rows != {} {
      var r := list[|list| - 1];
      var init := list[..|list| - 1];
      assert list == init + [r];
      SetOfSeq(init, rows - {r});
    }
  }

  /** What a crash can make the worker repeat is one batch. */
  lemma UncommittedFitTheRing(s: State)
    requires Reachable(s)
    ensures s.log.saved <= |s.log.calls|
    ensures |RowsOf(s.log.calls)| - |RowsOf(s.log.calls[..s.log.saved])| <= 64
  {
    ReachableInv(s);
    BetweenJoin(s.db.all, s.log.from, s.db.cursor, s.sub.cursor);
    TakenConcat(s.f, Between(s.db.all, s.log.from, s.db.cursor), Between(s.db.all, s.db.cursor, s.sub.cursor));
    TakenShorter(s.f, Between(s.db.all, s.db.cursor, s.sub.cursor));
    AheadFits(s);
    hide Between, Taken, Takes, Progress, StatesSound, DeliveredSound, Awake, Informed;
  }

  lemma AheadFits(s: State)
    requires Progress(s)
    ensures |Between(s.db.all, s.db.cursor, s.sub.cursor)| + |Current(s)| <= BATCH
  {
    if s.pc.Passing? {
      var rows, i := s.pc.rows, s.pc.i;
      if i > 0 {
        BetweenPrefix(s.db.all, s.db.cursor, rows[|rows| - 1].num, i);
      } else {
        NoStretch(s.db.all, s.db.cursor);
      }
    }
    hide Between, Takes;
  }

  lemma {:induction false} TakenShorter(f: Filter, rows: seq<Row>)
    ensures |Taken(f, rows)| <= |rows|
  {
    if rows != [] {
      TakenShorter(f, rows[..|rows| - 1]);
    }
  }

  /** No wakeup is lost: an open subscription whose worker sleeps with nothing on its way has delivered all it was told
      of, holds nothing back, and has stored its cursor and every state its callbacks produced. */
  lemma QuietMeansCaughtUp(s: State)
    requires Reachable(s)
    requires !s.sub.closed && s.pc.Idle? && !s.sub.wake && !s.sub.armed && s.log.senders == 0
    ensures !s.sub.dirty && !s.sub.refresh && s.sub.inline == [] && Clear(s)
    ensures s.log.told <= s.sub.cursor == s.db.cursor
    ensures RowsOf(s.log.calls) == Window(s, s.log.from, s.db.cursor)
    ensures s.db.rows == s.log.base + Newest(StatesOf(s.log.calls))
  {
    ReachableInv(s);
    AllStored(s.db.rows, s.log.base, s.log.calls, s.log.saved);
    hide StatesFold, RowsFold, DeliveredSound, JournalSound, Between, Taken;
    assert Held(s) == [] && Current(s) == [];
    DeliveredInOrder(s);
  }

  lemma AllStored(rows: Rows, base: Rows, calls: seq<Call>, saved: nat)
    ensures StatesFold([], rows, base, calls, saved) ==> rows == base + Newest(StatesOf(calls))
  {
    if StatesFold([], rows, base, calls, saved) {
      FoldJoins(calls, saved);
      NewestOfNone();
      var a := Newest(StatesOf(calls[..saved]));
      assert a + map[] == a;
    }
  }

  /** A token is always on its way to work: in every reachable state of an open subscription. */
  lemma WorkHasAToken(s: State)
    requires Reachable(s) && !s.sub.closed
    requires s.sub.dirty || s.sub.refresh || s.sub.inline != [] || s.sub.blocked || !Clear(s)
    ensures !s.pc.Idle? || s.sub.wake || s.sub.armed || s.log.senders > 0
    ensures !s.pc.Exited?
  {
    ReachableInv(s);
    assert Progress(s) && Awake(s);
    hide Inv, Reachable;
    IdleHasAToken(s);
  }

  lemma IdleHasAToken(s: State)
    requires Progress(s) && Awake(s) && !s.sub.closed
    ensures !s.pc.Exited?
    ensures s.pc.Idle? ==>
              Coming(s) || !(s.sub.dirty || s.sub.refresh || s.sub.inline != [] || s.sub.blocked || !Clear(s))
  {
    hide Between, JournalSound, Increasing;
  }
}
