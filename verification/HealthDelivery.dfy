/** Delivery of the health journal to one durable consumer.

    The journal is an ordered stream of rows. A consumer reads it from its cursor in batches, runs its callback
    on the rows its filter takes, and commits the cursor together with the member states the callbacks
    produced. The model has one step for each critical section of the worker, interleaved with appends, pruning,
    wakeups, timers, closing and restarts. */
module HealthDelivery {
  import opened MemberRows

  const BATCH: nat := 64
  const INLINE_LIMIT: nat := 1024

  // An event that never entered the journal has number 0.
  datatype Row = Row(num: int, tag: string, nodeId: int, probe: string, success: bool)

  datatype Filter = Filter(tags: set<string>, nodeIds: set<int>, everything: bool)

  predicate Takes(f: Filter, r: Row) {
    f.everything || r.tag in f.tags || (r.nodeId != 0 && r.nodeId in f.nodeIds)
  }

  /** The store: every row ever appended, the numbers of those pruned since, the highest number handed out, and
      the consumer's persisted cursor and member rows. */
  datatype Store = Store(all: seq<Row>, gone: set<int>, top: int, cursor: int, rows: Rows)

  // ListHealthEventsAfter without its limit.
  function After(all: seq<Row>, gone: set<int>, c: int): seq<Row> {
    if all == [] then []
    else
      var before := After(all[..|all| - 1], gone, c);
      var r := all[|all| - 1];
      if r.num > c && r.num !in gone then before + [r] else before
  }

  function List(db: Store, c: int): (rows: seq<Row>)
    ensures |rows| <= BATCH
  {
    var rows := After(db.all, db.gone, c);
    if |rows| <= BATCH then rows else rows[..BATCH]
  }

  /** AdvanceHealthCursorWithState: the states and the cursor in one transaction. */
  function Advance(db: Store, num: int, states: seq<NodeState>): Store {
    db.(rows := UpsertAll(db.rows, states), cursor := if num > db.cursor then num else db.cursor)
  }

  // -------------------------------------------------------------------------------------------
  // The subscription
  // -------------------------------------------------------------------------------------------

  // Who called flushCursor.
  datatype Why = Parked | AfterBatch | Drained

  /** The worker's position between two critical sections. */
  datatype Pc =
    | Idle
    | Top
    | PopInline
    | ReadCheck
    | Listing(after: int)
    | Batch(rows: seq<Row>, i: nat)
    | Passing(rows: seq<Row>, i: nat)
    | Flush(why: Why)
    | Committing(why: Why, num: int, states: seq<NodeState>)
    | Saved(why: Why, num: int)
    | Undo(why: Why, states: seq<NodeState>)
    | Block(why: Why)
    | ArmBlocked(why: Why)
    | ArmUnread
    | Return(why: Why, ok: bool)
    | TakeRefresh
    | Exited

  datatype Sub = Sub(cursor: int, pendingCursor: int, dirty: bool, refresh: bool, blocked: bool,
                     pending: seq<NodeState>, inline: seq<Row>, closed: bool, armed: bool, wake: bool)

  function Fresh(cursor: int): Sub {
    Sub(cursor, 0, false, false, false, [], [], false, false, false)
  }

  datatype Item = Journal(row: Row) | Inline(event: Row) | Snapshot

  datatype Call = Call(item: Item, states: seq<NodeState>)

  /** What happened so far. `start` is the first persisted cursor, `ever` the numbers delivered at any time.
      The rest is about the current registration: the cursor and rows it found, what had been delivered
      before it, the calls it made and how many of them are committed, the highest number it was told of, and
      the notifiers that still have to send their token. */
  datatype Log = Log(start: int, ever: set<int>, from: int, base: Rows, before: set<int>, calls: seq<Call>, saved: nat,
                     told: int, senders: nat)

  datatype State = State(f: Filter, db: Store, sub: Sub, pc: Pc, log: Log)

  // The answer of the store or of the callback in a step.
  datatype Answer = Answer(ok: bool, states: seq<NodeState>)

  function Deliver(s: State, item: Item, states: seq<NodeState>): State {
    s.(sub := s.sub.(pending := Record(s.sub.pending, states)),
       log := s.log.(calls := s.log.calls + [Call(item, states)],
                     ever := if item.Journal? then s.log.ever + {item.row.num} else s.log.ever))
  }

  predicate WorkEnabled(s: State) {
    !s.pc.Exited? && (s.pc.Idle? ==> s.sub.wake || s.sub.closed)
    && (s.pc.Batch? ==> s.pc.i <= |s.pc.rows|)
    && (s.pc.Passing? ==> s.pc.i < |s.pc.rows|)
  }

  /** The worker's next critical section. */
  function Work(s: State, a: Answer): State
    requires WorkEnabled(s)
  {
    var sub := s.sub;
    match s.pc
    case Idle =>
      if sub.wake && (!sub.closed || a.ok) then s.(sub := sub.(wake := false), pc := Top) else s.(pc := Exited)
    case Top => s.(pc := if sub.blocked then Flush(Parked) else PopInline)
    case PopInline =>
      if sub.closed || sub.inline == [] then s.(pc := ReadCheck)
      else Deliver(s.(sub := sub.(inline := sub.inline[1..]), pc := Top), Inline(sub.inline[0]), a.states)
    case ReadCheck =>
      if sub.closed || !sub.dirty || sub.blocked then s.(pc := Flush(Drained))
      else s.(sub := sub.(dirty := false), pc := Listing(sub.cursor))
    case Listing(after) =>
      if !a.ok then s.(sub := sub.(dirty := true), pc := ArmUnread)
      else
        var rows := List(s.db, after);
        s.(pc := if rows == [] then Flush(Drained) else Batch(rows, 0))
    case Batch(rows, i) =>
      if i == |rows| then
        if |rows| == BATCH then s.(sub := sub.(dirty := true), pc := Flush(AfterBatch)) else s.(pc := Flush(Drained))
      else if sub.closed then s.(pc := Flush(Drained))
      else if Takes(s.f, rows[i]) then Deliver(s.(pc := Passing(rows, i)), Journal(rows[i]), a.states)
      else s.(pc := Passing(rows, i))
    case Passing(rows, i) =>
      var num := rows[i].num;
      s.(sub := if num > sub.cursor then sub.(cursor := num, pendingCursor := num) else sub, pc := Batch(rows, i + 1))
    case Flush(why) =>
      if sub.closed || (sub.pendingCursor == 0 && sub.pending == []) then s.(pc := Return(why, false))
      else s.(sub := sub.(pending := []), pc := Committing(why, sub.pendingCursor, sub.pending))
    case Committing(why, num, states) =>
      if a.ok then
        s.(db := Advance(s.db, num, states), pc := Saved(why, num), log := s.log.(saved := |s.log.calls|))
      else s.(pc := Undo(why, states))
    case Saved(why, num) =>
      s.(sub := sub.(pendingCursor := if sub.pendingCursor == num then 0 else sub.pendingCursor, blocked := false),
         pc := Return(why, true))
    case Undo(why, states) => s.(sub := sub.(pending := Restore(sub.pending, states)), pc := Block(why))
    case Block(why) => s.(sub := sub.(blocked := true), pc := ArmBlocked(why))
    case ArmBlocked(why) => s.(sub := sub.(armed := sub.armed || !sub.closed), pc := Return(why, false))
    case ArmUnread => s.(sub := sub.(armed := sub.armed || !sub.closed), pc := Flush(Drained))
    case Return(why, ok) =>
      if why == Parked then s.(pc := if sub.blocked then Idle else Top)
      else if why == AfterBatch || ok then s.(pc := Top)
      else s.(pc := TakeRefresh)
    case TakeRefresh =>
      if sub.closed || !sub.refresh then s.(pc := Idle)
      else Deliver(s.(sub := sub.(refresh := false), pc := Top), Snapshot, a.states)
  }

  datatype Action =
    | Worker(answer: Answer)
    | Append(row: Row)
    | Prune(dead: set<int>)
    | NotifyRow(num: int)
    | NotifySnapshot
    | NotifyInline(event: Row)
    | Send
    | TimerFires
    | Close
    | Restart

  predicate Enabled(s: State, a: Action) {
    match a
    case Worker(answer) =>
      WorkEnabled(s) && forall i :: 0 <= i < |answer.states| ==> Supersedes(answer.states[i], s.db.rows)
    case Append(row) => row.num > s.db.top
    case Prune(dead) => forall n :: n in dead ==> n <= s.db.cursor
    case NotifyRow(num) => num > 0 && exists i :: 0 <= i < |s.db.all| && s.db.all[i].num == num
    case Send => s.log.senders > 0
    case TimerFires => s.sub.armed
    case _ => true
  }

  function Next(s: State, a: Action): State
    requires Enabled(s, a)
  {
    var sub, log := s.sub, s.log;
    match a
    case Worker(answer) => Work(s, answer)
    case Append(row) => s.(db := s.db.(all := s.db.all + [row], top := row.num))
    case Prune(dead) => s.(db := s.db.(gone := s.db.gone + dead))
    case NotifyRow(num) =>
      if sub.closed then s
      else s.(sub := sub.(dirty := true),
              log := log.(senders := log.senders + 1, told := if num > log.told then num else log.told))
    case NotifySnapshot =>
      if sub.closed then s else s.(sub := sub.(refresh := true), log := log.(senders := log.senders + 1))
    case NotifyInline(event) =>
      if sub.closed || |sub.inline| >= INLINE_LIMIT then s
      else s.(sub := sub.(inline := sub.inline + [event]), log := log.(senders := log.senders + 1))
    case Send => s.(sub := sub.(wake := true), log := log.(senders := log.senders - 1))
    case TimerFires =>
      s.(sub := sub.(armed := false), log := log.(senders := if sub.closed then log.senders else log.senders + 1))
    case Close => s.(sub := sub.(closed := true, inline := []))
    case Restart =>
      s.(sub := Fresh(s.db.cursor), pc := Idle,
         log := log.(from := s.db.cursor, base := s.db.rows, before := log.ever, calls := [], saved := 0, told := 0,
                     senders := 0))
  }

  predicate Increasing(all: seq<Row>) {
    forall i, j :: 0 <= i < j < |all| ==> all[i].num < all[j].num
  }

  predicate JournalSound(db: Store) {
    Increasing(db.all)
    && (forall i :: 0 <= i < |db.all| ==> 0 < db.all[i].num <= db.top)
    && (forall n :: n in db.gone ==> n <= db.cursor)
    && 0 <= db.cursor <= db.top
  }

  /** The first registration of a consumer whose persisted cursor was read. */
  predicate Initial(s: State) {
    JournalSound(s.db)
    && s.sub == Fresh(s.db.cursor) && s.pc == Idle
    && s.log == Log(s.db.cursor, {}, s.db.cursor, s.db.rows, {}, [], 0, 0, 0)
  }

  ghost predicate Run(trace: seq<State>) {
    |trace| > 0 && Initial(trace[0])
    && forall i :: 0 < i < |trace| ==> Follows(trace[i - 1], trace[i])
  }

  ghost predicate Follows(s: State, t: State) {
    exists a: Action :: Enabled(s, a) && t == Next(s, a)
  }

  // -------------------------------------------------------------------------------------------
  // Stretches of the journal
  // -------------------------------------------------------------------------------------------

  /** The rows numbered above `lo` and up to `hi`, in order. */
  function Between(all: seq<Row>, lo: int, hi: int): seq<Row> {
    if all == [] then []
    else
      var before := Between(all[..|all| - 1], lo, hi);
      var r := all[|all| - 1];
      if lo < r.num <= hi then before + [r] else before
  }

  /** The rows a filter takes. */
  function Taken(f: Filter, rows: seq<Row>): seq<Row> {
    if rows == [] then []
    else
      var before := Taken(f, rows[..|rows| - 1]);
      var r := rows[|rows| - 1];
      if Takes(f, r) then before + [r] else before
  }

  function Window(s: State, lo: int, hi: int): seq<Row> {
    Taken(s.f, Between(s.db.all, lo, hi))
  }

  lemma {:induction false} BetweenOf(all: seq<Row>, lo: int, hi: int, r: Row)
    ensures r in Between(all, lo, hi) <==> r in all && lo < r.num <= hi
  {
    if all != [] {
      BetweenOf(all[..|all| - 1], lo, hi, r);
      assert all == all[..|all| - 1] + [all[|all| - 1]];
    }
  }

  lemma {:induction false} TakenOf(f: Filter, rows: seq<Row>, r: Row)
    ensures r in Taken(f, rows) <==> r in rows && Takes(f, r)
  {
    if rows != [] {
      TakenOf(f, rows[..|rows| - 1], r);
      assert rows == rows[..|rows| - 1] + [rows[|rows| - 1]];
    }
  }

  lemma {:induction false} BetweenIncreasing(all: seq<Row>, lo: int, hi: int)
    requires Increasing(all)
    ensures Increasing(Between(all, lo, hi))
    ensures |Between(all, lo, hi)| <= |all|
  {
    if all != [] {
      var init := all[..|all| - 1];
      BetweenIncreasing(init, lo, hi);
      forall i | 0 <= i < |Between(init, lo, hi)| ensures Between(init, lo, hi)[i].num < all[|all| - 1].num {
        BetweenOf(init, lo, hi, Between(init, lo, hi)[i]);
      }
    }
  }

  lemma {:induction false} TakenIncreasing(f: Filter, rows: seq<Row>)
    requires Increasing(rows)
    ensures Increasing(Taken(f, rows))
  {
    if rows != [] {
      var init := rows[..|rows| - 1];
      TakenIncreasing(f, init);
      forall i | 0 <= i < |Taken(f, init)| ensures Taken(f, init)[i].num < rows[|rows| - 1].num {
        TakenOf(f, init, Taken(f, init)[i]);
      }
    }
  }

  lemma {:induction false} TakenConcat(f: Filter, a: seq<Row>, b: seq<Row>)
    ensures Taken(f, a + b) == Taken(f, a) + Taken(f, b)
  {
    if b == [] {
      assert a + b == a;
    } else {
      assert (a + b)[..|a + b| - 1] == a + b[..|b| - 1];
      TakenConcat(f, a, b[..|b| - 1]);
    }
  }

  /** Two neighbouring stretches make one. */
  lemma {:induction false} BetweenJoin(all: seq<Row>, lo: int, mid: int, hi: int)
    requires Increasing(all) && lo <= mid <= hi
    ensures Between(all, lo, hi) == Between(all, lo, mid) + Between(all, mid, hi)
  {
    if all != [] {
      var init := all[..|all| - 1];
      BetweenJoin(init, lo, mid, hi);
      if lo < all[|all| - 1].num <= mid {
        NothingBetween(init, mid, hi);
      }
    }
  }

  lemma {:induction false} NothingBetween(all: seq<Row>, lo: int, hi: int)
    requires forall i :: 0 <= i < |all| ==> !(lo < all[i].num <= hi)
    ensures Between(all, lo, hi) == []
  {
    if all != [] {
      NothingBetween(all[..|all| - 1], lo, hi);
    }
  }

  /** Rows appended later lie beyond the stretch. */
  lemma AppendBeyond(all: seq<Row>, r: Row, lo: int, hi: int)
    requires hi < r.num
    ensures Between(all + [r], lo, hi) == Between(all, lo, hi)
  {
  }

  /** A beginning of a stretch is the stretch up to its last row. */
  lemma {:induction false} BetweenPrefix(all: seq<Row>, lo: int, hi: int, k: nat)
    requires Increasing(all) && 0 < k <= |Between(all, lo, hi)|
    ensures Between(all, lo, Between(all, lo, hi)[k - 1].num) == Between(all, lo, hi)[..k]
  {
    var w := Between(all, lo, hi);
    BetweenIncreasing(all, lo, hi);
    var mid := w[k - 1].num;
    BetweenOf(all, lo, hi, w[k - 1]);
    BetweenJoin(all, lo, mid, hi);
    var a, b := Between(all, lo, mid), Between(all, mid, hi);
    assert w == a + b;
    if |a| < k {
      assert w[k - 1] == b[k - 1 - |a|];
      BetweenOf(all, mid, hi, w[k - 1]);
    } else if |a| > k {
      assert w[k] == a[k];
      BetweenOf(all, lo, mid, w[k]);
    }
  }

  lemma {:induction false} AfterIsBetween(all: seq<Row>, gone: set<int>, c: int, top: int)
    requires forall i :: 0 <= i < |all| ==> all[i].num <= top
    requires forall n :: n in gone ==> n <= c
    ensures After(all, gone, c) == Between(all, c, top)
  {
    if all != [] {
      AfterIsBetween(all[..|all| - 1], gone, c, top);
    }
  }

  /** A read of the journal from the persisted cursor returns the next rows with none left out, and a short
      batch reaches the end. */
  lemma ListIsNext(db: Store)
    requires JournalSound(db)
    ensures List(db, db.cursor) != [] ==>
      List(db, db.cursor) == Between(db.all, db.cursor, List(db, db.cursor)[|List(db, db.cursor)| - 1].num)
    ensures |List(db, db.cursor)| <= 64
    ensures |List(db, db.cursor)| < 64 ==> List(db, db.cursor) == Between(db.all, db.cursor, db.top)
  {
    AfterIsBetween(db.all, db.gone, db.cursor, db.top);
    var w := Between(db.all, db.cursor, db.top);
    var rows := List(db, db.cursor);
    if rows != [] {
      BetweenPrefix(db.all, db.cursor, db.top, |rows|);
      assert rows == w[..|rows|];
    }
  }
}
