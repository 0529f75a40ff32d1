/** Opening a subscription: where a registration starts reading, depending on which of its three store calls
    succeed, and what a start beyond the stored cursor costs. */
module HealthOpening {
  import opened Basics
  import opened MemberRows
  import opened HealthDelivery

  // MaxHealthEventSeq: the highest number still in the journal.
  function Tail(all: seq<Row>, gone: set<int>): int {
    if all == [] then 0
    else if all[|all| - 1].num !in gone then all[|all| - 1].num
    else Tail(all[..|all| - 1], gone)
  }

  /** Where a registration starts reading, and the cursor stored afterwards. */
  datatype Opening = Opening(cursor: int, stored: Option<int>)

  function Open(stored: Option<int>, tail: int, cursorOk: bool, tailOk: bool, writeOk: bool): Opening {
    if cursorOk && stored.Some? then Opening(stored.value, stored)
    else if !tailOk then Opening(0, stored)
    else Opening(tail, if !writeOk then stored
                       else match stored case None => Some(tail) case Some(c) => Some(if tail > c then tail else c))
  }

  lemma {:induction false} TailIsHighest(all: seq<Row>, gone: set<int>)
    requires Increasing(all)
    ensures forall r :: r in all && r.num !in gone ==> r.num <= Tail(all, gone)
    ensures Tail(all, gone) == 0 || exists r :: r in all && r.num == Tail(all, gone) && r.num !in gone
    ensures Tail(all, gone) == 0 ==> forall r :: r in all && r.num !in gone ==> r.num <= 0
  {
    if all != [] {
      var init, last := all[..|all| - 1], all[|all| - 1];
      TailIsHighest(init, gone);
      assert all == init + [last];
      assert forall r :: r in init ==> r.num < last.num;
    }
  }

  /** Where a registration starts and what it leaves stored: at the stored cursor if there is one and it can be read;
      else behind everything that is in the journal, stored if the write succeeds; at the beginning if that fails too. A
      cursor that is stored never goes back. */
  lemma StartsAt(all: seq<Row>, gone: set<int>, stored: Option<int>, cursorOk: bool, tailOk: bool, writeOk: bool)
    requires Increasing(all)
    ensures var o := Open(stored, Tail(all, gone), cursorOk, tailOk, writeOk);
            var found := cursorOk && stored.Some?;
            && (found ==> o.cursor == stored.value && o.stored == stored)
            && (!found && !tailOk ==> o.cursor == 0 && o.stored == stored)
            && (!found && tailOk ==>
                  && (forall r :: r in all && r.num !in gone ==> r.num <= o.cursor)
                  && (o.cursor == 0 || exists r :: r in all && r.num == o.cursor && r.num !in gone)
                  && (!writeOk ==> o.stored == stored)
                  && (writeOk ==> o.stored.Some? && o.stored.value >= o.cursor)
                  && (writeOk && stored.None? ==> o.stored == Some(o.cursor)))
            && (stored.Some? ==> o.stored.Some? && o.stored.value >= stored.value)
  {
    TailIsHighest(all, gone);
  }

  /** A consumer with a stored cursor starts at or before every row it has not seen, if and only if its cursor
      could be read, or the tail could not, or nothing lies between the two.  Whether the tail could then be
      written does not matter. */
  lemma NothingPassedOverIff(all: seq<Row>, gone: set<int>, c: int, cursorOk: bool, tailOk: bool, writeOk: bool)
    requires Increasing(all) && 0 <= c
    ensures var tail := Tail(all, gone);
            (forall r :: r in all && r.num > c ==> r.num > Open(Some(c), tail, cursorOk, tailOk, writeOk).cursor)
            <==> cursorOk || !tailOk || Between(all, c, tail) == []
  {
    var tail := Tail(all, gone);
    if Between(all, c, tail) == [] {
      forall r | r in all && r.num > c ensures r.num > tail {
        BetweenOf(all, c, tail, r);
      }
    } else {
      var r := Between(all, c, tail)[0];
      BetweenOf(all, c, tail, r);
    }
  }

  // -------------------------------------------------------------------------------------------
  // Rows passed over
  // -------------------------------------------------------------------------------------------

  /** Row number `n` was not delivered, and the registration and the store are both past it. */
  predicate PassedOver(s: State, n: int) {
    && n <= s.sub.cursor && n <= s.db.cursor && n !in s.log.ever
    && match s.pc
       case Listing(after) => n <= after
       case Batch(rows, _) => forall i :: 0 <= i < |rows| ==> n < rows[i].num
       case Passing(rows, _) => forall i :: 0 <= i < |rows| ==> n < rows[i].num
       case _ => true
  }

  lemma {:induction false} AfterAbove(all: seq<Row>, gone: set<int>, c: int)
    ensures forall i :: 0 <= i < |After(all, gone, c)| ==> After(all, gone, c)[i].num > c
  {
    if all != [] {
      AfterAbove(all[..|all| - 1], gone, c);
    }
  }

  lemma StaysPassedOver(s: State, a: Action, n: int)
    requires PassedOver(s, n) && Enabled(s, a)
    ensures PassedOver(Next(s, a), n)
  {
    hide PassedOver, Work, WorkEnabled;
    if a.Worker? {
      WorkStaysPassedOver(s, a.answer, n);
    } else {
      OthersStayPassedOver(s, a, n);
    }
  }

  lemma OthersStayPassedOver(s: State, a: Action, n: int)
    requires PassedOver(s, n) && Enabled(s, a) && !a.Worker?
    ensures PassedOver(Next(s, a), n)
  {
  }

  lemma WorkStaysPassedOver(s: State, a: Answer, n: int)
    requires PassedOver(s, n) && WorkEnabled(s)
    ensures PassedOver(Work(s, a), n)
  {
    hide UpsertAll, Record, Restore, List;
    if s.pc.Listing? {
      ListedAbove(s.db, s.pc.after);
    }
  }

  lemma ListedAbove(db: Store, c: int)
    ensures forall i :: 0 <= i < |List(db, c)| ==> List(db, c)[i].num > c
  {
    AfterAbove(db.all, db.gone, c);
  }

  /** A stretch of the protocol. */
  ghost predicate Leads(s: State, acts: seq<Action>, t: State)
    decreases |acts|
  {
    if acts == [] then s == t
    else Enabled(s, acts[0]) && Leads(Next(s, acts[0]), acts[1..], t)
  }

  /** What is passed over stays so: no later read, retry, restart or commit delivers it. */
  lemma {:induction false} PassedOverForGood(s: State, acts: seq<Action>, t: State, n: int)
    requires PassedOver(s, n) && Leads(s, acts, t)
    ensures n !in t.log.ever && n <= t.db.cursor
    decreases |acts|
  {
    hide Next, Enabled;
    if acts != [] {
      StaysPassedOver(s, acts[0], n);
      PassedOverForGood(Next(s, acts[0]), acts[1..], t, n);
    }
  }

  // -------------------------------------------------------------------------------------------
  // Rows left over from before
  // -------------------------------------------------------------------------------------------

  predicate Notifies(a: Action) {
    a.NotifyRow? || a.NotifySnapshot? || a.NotifyInline?
  }

  // Nothing calls the worker, and it has called nobody.
  predicate Untold(s: State) {
    && (s.pc.Idle? || s.pc.Exited?) && !s.sub.wake && !s.sub.armed && s.log.senders == 0 && s.log.calls == []
  }

  lemma StaysUntold(s: State, a: Action)
    requires Untold(s) && Enabled(s, a) && !Notifies(a)
    ensures Untold(Next(s, a)) && Next(s, a).log.ever == s.log.ever && Next(s, a).db.cursor == s.db.cursor
  {
  }

  lemma {:induction false} UntoldForGood(s: State, acts: seq<Action>, t: State)
    requires Untold(s) && Leads(s, acts, t) && forall i :: 0 <= i < |acts| ==> !Notifies(acts[i])
    ensures Untold(t) && t.log.ever == s.log.ever && t.db.cursor == s.db.cursor
    decreases |acts|
  {
    hide Next, Enabled;
    if acts != [] {
      StaysUntold(s, acts[0]);
      UntoldForGood(Next(s, acts[0]), acts[1..], t);
    }
  }

  /** A registration reads nothing by itself: however long it runs and whatever is appended, until somebody notifies it
      no row is delivered and the stored cursor stays, so rows left over from before wait. */
  lemma BacklogWaitsForNotice(s: State, acts: seq<Action>, t: State)
    requires Leads(Next(s, Restart), acts, t) && forall i :: 0 <= i < |acts| ==> !Notifies(acts[i])
    ensures t.log.calls == [] && t.log.ever == s.log.ever && t.db.cursor == s.db.cursor
  {
    UntoldForGood(Next(s, Restart), acts, t);
  }

  ghost predicate Reaches(s: State, t: State) {
    exists acts :: Leads(s, acts, t)
  }

  lemma ReachesItself(s: State)
    ensures Reaches(s, s)
  {
    assert Leads(s, [], s);
  }

  lemma {:induction false} LeadsThen(s: State, acts: seq<Action>, t: State, a: Action)
    requires Leads(s, acts, t) && Enabled(t, a)
    ensures Leads(s, acts + [a], Next(t, a))
    decreases |acts|
  {
    hide Next, Enabled;
    var longer := acts + [a];
    if acts == [] {
      assert longer[1..] == [];
      assert Leads(Next(s, a), longer[1..], Next(t, a));
    } else {
      LeadsThen(Next(s, acts[0]), acts[1..], t, a);
      assert longer[1..] == acts[1..] + [a];
    }
  }

  lemma Then(s: State, t: State, a: Action)
    requires Reaches(s, t) && Enabled(t, a)
    ensures Reaches(s, Next(t, a))
  {
    hide Next, Enabled;
    var acts: seq<Action> :| Leads(s, acts, t);
    LeadsThen(s, acts, t, a);
  }

  // A registration that starts reading at `start` while `db.cursor` is stored.
  function Opened(f: Filter, db: Store, start: int): State {
    State(f, db, Fresh(start), Idle, Log(db.cursor, {}, db.cursor, db.rows, {}, [], 0, 0, 0))
  }

  // After a start at the tail only what is appended later is read.
  lemma {:induction false} NothingAfterTail(all: seq<Row>, gone: set<int>, top: int)
    requires Increasing(all) && forall i :: 0 <= i < |all| ==> 0 < all[i].num <= top
    ensures After(all, gone, Tail(all, gone)) == []
    ensures 0 <= Tail(all, gone) && (all != [] ==> Tail(all, gone) <= all[|all| - 1].num)
  {
    if all != [] && all[|all| - 1].num in gone {
      NothingAfterTail(all[..|all| - 1], gone, top);
    } else if all != [] {
      AfterEnd(all, gone, all[|all| - 1].num);
    }
  }

  lemma {:induction false} AfterEnd(all: seq<Row>, gone: set<int>, c: int)
    requires forall i :: 0 <= i < |all| ==> all[i].num <= c
    ensures After(all, gone, c) == []
  {
    if all != [] {
      AfterEnd(all[..|all| - 1], gone, c);
    }
  }

  // The registration once it has been told of the appended row.
  lemma Told(f: Filter, db: Store, start: int, r: Row)
    requires r.num > db.top >= 0
    ensures var s := Opened(f, db, start);
            Reaches(s, State(f, db.(all := db.all + [r], top := r.num),
                Fresh(start).(dirty := true, wake := true), Idle, s.log.(told := r.num)))
  {
    var s := Opened(f, db, start);
    var s1 := Next(s, Append(r));
    assert s1.db.all[|s1.db.all| - 1] == r;
    var s2 := Next(s1, NotifyRow(r.num));
    ReachesItself(s);
    hide Leads, Reaches, Work;
    Then(s, s, Append(r));
    Then(s, s1, NotifyRow(r.num));
    Then(s, s2, Send);
  }

  // The worker reads that row alone, delivers it and commits.
  lemma DeliversOnly(first: State, s: State, r: Row)
    requires Reaches(first, s) && s.pc == Idle && s.sub == Fresh(s.sub.cursor).(dirty := true, wake := true)
    requires List(s.db, s.sub.cursor) == [r] && Takes(s.f, r) && r.num > s.sub.cursor && r.num > s.db.cursor
    requires s.log.ever == {} && r.num > 0
    ensures exists t ::
              Reaches(first, t) && t.db.cursor == r.num == t.sub.cursor && t.log.ever == {r.num} && t.pc.Return?
  {
    hide Leads, Reaches, List;
    var go := Worker(Answer(true, []));
    var fetched := Fetches(first, s);
    hide Fresh;
    Then(first, fetched, go);
    var passing := Next(fetched, go);
    Then(first, passing, go);
    var batch := Next(passing, go);
    Then(first, batch, go);
    var flush := Next(batch, go);
    Then(first, flush, go);
    var committing := Next(flush, go);
    assert committing.pc == Committing(Drained, r.num, []);
    Then(first, committing, go);
    var saved := Next(committing, go);
    Then(first, saved, go);
  }

  lemma Fetches(first: State, s: State) returns (t: State)
    requires Reaches(first, s) && s.pc == Idle && s.sub == Fresh(s.sub.cursor).(dirty := true, wake := true)
    requires List(s.db, s.sub.cursor) != []
    ensures Reaches(first, t)
    ensures t == s.(sub := Fresh(s.sub.cursor), pc := Batch(List(s.db, s.sub.cursor), 0))
  {
    hide Leads, Reaches, List;
    var go := Worker(Answer(true, []));
    Then(first, s, go);
    var top := Next(s, go);
    Then(first, top, go);
    var popping := Next(top, go);
    Then(first, popping, go);
    var checking := Next(popping, go);
    Then(first, checking, go);
    var listing := Next(checking, go);
    Then(first, listing, go);
    t := Next(listing, go);
  }

  /** The cost, exactly when a row is passed over: the cursor read fails, the tail is read, and a row lies between
      the stored cursor and the tail.  Whether or not the tail is then written, the next row this consumer takes is
      delivered alone and commits a cursor beyond the row passed over, which no continuation ever delivers. */
  lemma FailedReadLosesRow(f: Filter, db: Store, writeOk: bool, skipped: Row, r: Row)
    requires JournalSound(db) && skipped in db.all && db.cursor < skipped.num <= Tail(db.all, db.gone)
    requires r.num > db.top && Takes(f, r)
    ensures var o := Open(Some(db.cursor), Tail(db.all, db.gone), false, true, writeOk);
            exists t :: Reaches(Opened(f, db.(cursor := o.stored.value), o.cursor), t)
                        && t.db.cursor == r.num && t.log.ever == {r.num} && PassedOver(t, skipped.num)
  {
    var tail := Tail(db.all, db.gone);
    var o := Open(Some(db.cursor), tail, false, true, writeOk);
    var db' := db.(cursor := o.stored.value);
    var first := Opened(f, db', o.cursor);
    NothingAfterTail(db.all, db.gone, db.top);
    Told(f, db', o.cursor, r);
    var told := State(f, db'.(all := db.all + [r], top := r.num), Fresh(o.cursor).(dirty := true, wake := true), Idle,
                      first.log.(told := r.num));
    assert (db.all + [r])[..|db.all|] == db.all;
    assert List(told.db, tail) == [r];
    hide Reaches, List, Tail, After, Fresh;
    DeliversOnly(first, told, r);
  }
}
