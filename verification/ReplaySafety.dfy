/** The journal's consumer and a group member together: the measurements a resumed consumer delivers again are
    within the member's replay window, so each counts once.

    The subscription may be closed and registered again any number of times while the member lives. */
module ReplaySafety {
  import opened Basics
  import opened MemberRows
  import opened HealthDelivery
  import opened HealthDeliverySafety
  import PR = ProbeRing
  import GM = GroupMember

  /** A member of the group and the node IDs the group's topology knows. */
  datatype Who = Who(tag: string, nodeId: int, topology: set<int>)

  // The callback looks a known node up by its ID and any other by its tag.
  predicate For(who: Who, r: Row) {
    if r.nodeId != 0 && r.nodeId in who.topology then r.nodeId == who.nodeId else r.tag == who.tag
  }

  // The callback's effect on a member; the clock reading and the error text are the caller's.
  function EventOf(r: Row, at: int, cause: Option<string>): GM.Event {
    if r.success then GM.ProbeSuccess(at, r.probe) else GM.ProbeFailure(at, r.probe, cause)
  }

  /** A step of the worker that runs the callback on a journal row. */
  predicate Delivers(s: State, a: Action) {
    a.Worker? && s.pc.Batch? && s.pc.i < |s.pc.rows| && !s.sub.closed && Takes(s.f, s.pc.rows[s.pc.i])
  }

  /** The consumer, the events the member has seen, and the highest number delivered. */
  datatype Joint = Joint(s: State, events: seq<GM.Event>, top: int)

  datatype Move = Deliver(a: Action, at: int, cause: Option<string>) | Elsewhere(e: GM.Event)

  predicate Allowed(j: Joint, m: Move) {
    match m
    case Deliver(a, _, _) => Enabled(j.s, a)
    case Elsewhere(e) => !GM.IsProbe(e)
  }

  function JointNext(who: Who, j: Joint, m: Move): Joint
    requires Allowed(j, m)
  {
    match m
    case Deliver(a, at, cause) =>
      if Delivers(j.s, a) then
        var r := j.s.pc.rows[j.s.pc.i];
        Joint(Next(j.s, a), if For(who, r) then j.events + [EventOf(r, at, cause)] else j.events,
              if r.num > j.top then r.num else j.top)
      else j.(s := Next(j.s, a))
    case Elsewhere(e) => j.(events := j.events + [e])
  }

  predicate JointInitial(j: Joint) {
    Initial(j.s) && j.events == [] && j.top == j.s.log.start
  }

  ghost predicate JointRun(who: Who, trace: seq<Joint>) {
    |trace| > 0 && JointInitial(trace[0]) && forall i :: 0 < i < |trace| ==> JointFollows(who, trace[i - 1], trace[i])
  }

  ghost predicate JointFollows(who: Who, j: Joint, k: Joint) {
    exists m: Move :: Allowed(j, m) && k == JointNext(who, j, m)
  }

  /** Every measurement of the member has its own identity, as the prober gives it. */
  predicate OwnIdentities(who: Who, all: seq<Row>) {
    forall i, j :: 0 <= i < |all| && 0 <= j < |all| && For(who, all[i]) && For(who, all[j]) ==>
      all[i].probe != "" && (all[i].probe == all[j].probe ==> i == j)
  }

  function ProbesOf(who: Who, rows: seq<Row>): seq<PR.ProbeId> {
    if rows == [] then []
    else
      var before := ProbesOf(who, rows[..|rows| - 1]);
      var r := rows[|rows| - 1];
      if For(who, r) then before + [r.probe] else before
  }

  lemma {:induction false} ProbesOfConcat(who: Who, a: seq<Row>, b: seq<Row>)
    ensures ProbesOf(who, a + b) == ProbesOf(who, a) + ProbesOf(who, b)
  {
    if b == [] {
      assert a + b == a;
    } else {
      assert (a + b)[..|a + b| - 1] == a + b[..|b| - 1];
      ProbesOfConcat(who, a, b[..|b| - 1]);
    }
  }

  lemma ProbesOfOne(who: Who, rows: seq<Row>, r: Row)
    ensures ProbesOf(who, rows + [r]) == if For(who, r) then ProbesOf(who, rows) + [r.probe] else ProbesOf(who, rows)
  {
  }

  lemma {:induction false} ProbesOfMembers(who: Who, rows: seq<Row>, p: PR.ProbeId)
    ensures |ProbesOf(who, rows)| <= |rows|
    ensures p in ProbesOf(who, rows) <==> exists r :: r in rows && For(who, r) && r.probe == p
  {
    if rows != [] {
      var init, last := rows[..|rows| - 1], rows[|rows| - 1];
      ProbesOfMembers(who, init, p);
      assert rows == init + [last];
      assert last in rows;
      assert forall r :: r in rows <==> r in init || r == last;
    }
  }

  /** The member has accepted exactly one measurement for each of its rows delivered so far, in order. */
  ghost predicate OncePerRow(who: Who, j: Joint) {
    var s := j.s;
    s.log.start <= j.top <= s.db.top
    && (j.top == s.log.start || j.top in s.log.ever)
    && (forall n :: n in s.log.ever ==> n <= j.top)
    && PR.Accepted(GM.Offers(j.events)) == ProbesOf(who, Window(s, s.log.start, j.top))
  }

  lemma {:induction false} LatestKeepsEnd<T>(a: seq<T>, b: seq<T>, n: nat, x: T)
    requires |b| <= n && x in b
    ensures x in PR.Latest(a + b, n)
  {
    var log := a + b;
    var i :| 0 <= i < |b| && b[i] == x;
    assert log[|a| + i] == x;
    if |log| > n {
      assert PR.Latest(log, n)[|a| + i - (|log| - n)] == x;
    }
  }

  /** A row delivered before, beyond the stored cursor, is still in the replay window. */
  lemma DeliveredIsRemembered(who: Who, j: Joint, r: Row)
    requires Inv(j.s) && OncePerRow(who, j)
    requires r in j.s.db.all && For(who, r) && Takes(j.s.f, r) && j.s.db.cursor < r.num <= j.top
    ensures r.probe in PR.Latest(PR.Accepted(GM.Offers(j.events)), PR.RING_SIZE)
  {
    var s := j.s;
    BetweenJoin(s.db.all, s.log.start, s.db.cursor, j.top);
    var earlier, recent := Between(s.db.all, s.log.start, s.db.cursor), Between(s.db.all, s.db.cursor, j.top);
    TakenConcat(s.f, earlier, recent);
    ProbesOfConcat(who, Taken(s.f, earlier), Taken(s.f, recent));
    TakenShorter(s.f, recent);
    BetweenOf(s.db.all, s.db.cursor, j.top, r);
    TakenOf(s.f, recent, r);
    ProbesOfMembers(who, Taken(s.f, recent), r.probe);
    assert Near(s.db, s.db.cursor, j.top);
    LatestKeepsEnd(ProbesOf(who, Taken(s.f, earlier)), ProbesOf(who, Taken(s.f, recent)), PR.RING_SIZE, r.probe);
  }

  // The delivered row is the only one the filter takes between the highest delivered so far and itself.
  lemma NothingSkipped(j: Joint, a: Action)
    requires Inv(j.s) && Enabled(j.s, a) && Delivers(j.s, a)
    requires j.s.log.start <= j.top && (forall n :: n in j.s.log.ever ==> n <= j.top)
    requires j.s.pc.rows[j.s.pc.i].num > j.top
    ensures Window(j.s, j.s.log.start, j.s.pc.rows[j.s.pc.i].num) == Window(j.s, j.s.log.start, j.top)
            + [j.s.pc.rows[j.s.pc.i]]
    ensures j.s.pc.rows[j.s.pc.i].num <= j.s.db.top
  {
    var s, rows, i, all := j.s, j.s.pc.rows, j.s.pc.i, j.s.db.all;
    var r := rows[i];
    var last := rows[|rows| - 1].num;
    NextInStretch(all, s.db.cursor, last, rows, i);
    BetweenOf(all, s.db.cursor, last, r);
    EverCovers(s);
    hide Inv, Between, Taken, Takes, Enabled;
    OnlyTakenInGap(s.f, all, s.log.start, j.top, s.sub.cursor, r);
    BetweenJoin(all, s.log.start, j.top, r.num);
    TakenConcat(s.f, Between(all, s.log.start, j.top), Between(all, j.top, r.num));
  }

  lemma OnlyTakenInGap(f: Filter, all: seq<Row>, start: int, top: int, cursor: int, r: Row)
    requires Increasing(all) && Takes(f, r) && r in all && start <= top < r.num && Between(all, cursor, r.num) == [r]
    requires forall x :: x in all && Takes(f, x) && start < x.num <= cursor ==> x.num <= top
    ensures Taken(f, Between(all, top, r.num)) == [r]
  {
    hide Takes, Taken, Between, Increasing;
    var gap := Between(all, top, r.num);
    BetweenIncreasing(all, top, r.num);
    TakenIncreasing(f, gap);
    BetweenOf(all, top, r.num, r);
    TakenOf(f, gap, r);
    forall k | 0 <= k < |Taken(f, gap)| ensures Taken(f, gap)[k] == r {
      var x := Taken(f, gap)[k];
      TakenOf(f, gap, x);
      BetweenOf(all, top, r.num, x);
      BetweenOf(all, cursor, r.num, x);
    }
    OnlyOne(Taken(f, gap), r);
  }

  lemma OnlyOne(rows: seq<Row>, r: Row)
    requires Increasing(rows) && r in rows && forall k :: 0 <= k < |rows| ==> rows[k] == r
    ensures rows == [r]
  {
    assert |rows| > 1 ==> rows[0].num < rows[1].num;
  }

  lemma EverCovers(s: State)
    requires Inv(s)
    ensures forall x :: x in s.db.all && Takes(s.f, x) && s.log.start < x.num <= s.sub.cursor ==> x.num in s.log.ever
  {
  }

  /** One step of either kind keeps the correspondence, and a row that was delivered before leaves the member as it
      is. */
  lemma DeliveryCountsOnce(who: Who, j: Joint, a: Action, at: int, cause: Option<string>, c: GM.Config, m: GM.Member)
    requires Inv(j.s) && OncePerRow(who, j) && OwnIdentities(who, j.s.db.all) && m.ring == []
    requires Enabled(j.s, a) && Delivers(j.s, a)
    ensures OncePerRow(who, JointNext(who, j, Deliver(a, at, cause)))
    ensures var r := j.s.pc.rows[j.s.pc.i];
            r.num <= j.top ==>
              GM.After(c, m, JointNext(who, j, Deliver(a, at, cause)).events) == GM.After(c, m, j.events)
  {
    hide Inv, OncePerRow, OwnIdentities, Next;
    if j.s.pc.rows[j.s.pc.i].num <= j.top {
      DeliveredAgain(who, j, a, at, cause, c, m);
    } else {
      DeliveredFirst(who, j, a, at, cause);
    }
  }

  // What a delivery changes of the log and the store.
  lemma DeliveryStep(s: State, a: Action)
    requires Inv(s) && Enabled(s, a) && Delivers(s, a)
    ensures Next(s, a).log.ever == s.log.ever + {s.pc.rows[s.pc.i].num}
    ensures Next(s, a).log.start == s.log.start && Next(s, a).db == s.db && Next(s, a).f == s.f
    ensures s.pc.rows[s.pc.i] in s.db.all && s.db.cursor < s.pc.rows[s.pc.i].num && JournalSound(s.db)
  {
    DeliveredRow(s);
    hide Inv, Record, Between, JournalSound, Takes, Supersedes;
  }

  lemma DeliveredRow(s: State)
    requires Inv(s) && s.pc.Batch? && s.pc.i < |s.pc.rows|
    ensures s.pc.rows[s.pc.i] in s.db.all && s.db.cursor < s.pc.rows[s.pc.i].num && JournalSound(s.db)
  {
    hide Between, StatesSound, RowsSound, DeliveredSound, Awake, Informed, JournalSound;
    BetweenOf(s.db.all, s.db.cursor, s.pc.rows[|s.pc.rows| - 1].num, s.pc.rows[s.pc.i]);
  }

  // The correspondence depends on these parts only.
  lemma OnceAfter(who: Who, j: Joint, k: Joint, num: int)
    requires OncePerRow(who, j) && k.s.log.start == j.s.log.start && k.s.db == j.s.db && k.s.f == j.s.f
    requires k.s.log.ever == j.s.log.ever + {num} && num <= j.s.db.top
    requires k.top == if num > j.top then num else j.top
    requires PR.Accepted(GM.Offers(k.events)) == ProbesOf(who, Window(j.s, j.s.log.start, k.top))
    ensures OncePerRow(who, k)
  {
  }

  lemma DeliveredAgain(who: Who, j: Joint, a: Action, at: int, cause: Option<string>, c: GM.Config, m: GM.Member)
    requires Inv(j.s) && OncePerRow(who, j) && m.ring == []
    requires Enabled(j.s, a) && Delivers(j.s, a) && j.s.pc.rows[j.s.pc.i].num <= j.top
    ensures OncePerRow(who, JointNext(who, j, Deliver(a, at, cause)))
    ensures GM.After(c, m, JointNext(who, j, Deliver(a, at, cause)).events) == GM.After(c, m, j.events)
  {
    var s, r := j.s, j.s.pc.rows[j.s.pc.i];
    DeliveryStep(s, a);
    OnceSays(who, j);
    hide Inv, Next, Enabled, Takes, For, Between, Taken, GM.After, OncePerRow, ProbesOf, JournalSound;
    if For(who, r) {
      DeliveredIsRemembered(who, j, r);
      OfferReplay(j.events, EventOf(r, at, cause));
      GM.ReplayedEventsChangeNothing(c, m, j.events, [EventOf(r, at, cause)]);
    }
    OnceAfter(who, j, JointNext(who, j, Deliver(a, at, cause)), r.num);
  }

  lemma OnceSays(who: Who, j: Joint)
    requires OncePerRow(who, j)
    ensures j.s.log.start <= j.top <= j.s.db.top && (forall n :: n in j.s.log.ever ==> n <= j.top)
    ensures PR.Accepted(GM.Offers(j.events)) == ProbesOf(who, Window(j.s, j.s.log.start, j.top))
  {
  }

  lemma DeliveredFirst(who: Who, j: Joint, a: Action, at: int, cause: Option<string>)
    requires Inv(j.s) && OncePerRow(who, j) && OwnIdentities(who, j.s.db.all)
    requires Enabled(j.s, a) && Delivers(j.s, a) && j.s.pc.rows[j.s.pc.i].num > j.top
    ensures OncePerRow(who, JointNext(who, j, Deliver(a, at, cause)))
  {
    var s, r := j.s, j.s.pc.rows[j.s.pc.i];
    DeliveryStep(s, a);
    OnceSays(who, j);
    hide Inv, Next, Enabled, Takes, For, OwnIdentities, Between, Taken, ProbesOf, OncePerRow, JournalSound;
    NothingSkipped(j, a);
    ProbesOfOne(who, Window(s, s.log.start, j.top), r);
    if For(who, r) {
      FirstTime(who, j, r);
      OfferNew(j.events, EventOf(r, at, cause));
    }
    OnceAfter(who, j, JointNext(who, j, Deliver(a, at, cause)), r.num);
  }

  lemma OfferReplay(events: seq<GM.Event>, e: GM.Event)
    requires GM.IsProbe(e) && e.probe in PR.Latest(PR.Accepted(GM.Offers(events)), PR.RING_SIZE)
    ensures PR.Accepted(GM.Offers(events + [e])) == PR.Accepted(GM.Offers(events))
  {
    var offers := GM.Offers(events);
    assert (events + [e])[..|events + [e]| - 1] == events;
    PR.ReplaysAreNeutral(offers, [e.probe]);
  }

  lemma OfferNew(events: seq<GM.Event>, e: GM.Event)
    requires GM.IsProbe(e) && e.probe != "" && e.probe !in PR.Accepted(GM.Offers(events))
    ensures PR.Accepted(GM.Offers(events + [e])) == PR.Accepted(GM.Offers(events)) + [e.probe]
  {
    var offers := GM.Offers(events);
    assert (events + [e])[..|events + [e]| - 1] == events;
    PR.RingIsLatestAccepted(offers);
    assert (offers + [e.probe])[..|offers + [e.probe]| - 1] == offers;
    assert e.probe !in PR.RingOf(offers);
  }

  /** A measurement beyond all delivered ones carries a new identity. */
  lemma FirstTime(who: Who, j: Joint, r: Row)
    requires OncePerRow(who, j) && OwnIdentities(who, j.s.db.all)
    requires r in j.s.db.all && For(who, r) && r.num > j.top
    ensures r.probe != "" && r.probe !in PR.Accepted(GM.Offers(j.events))
  {
    var s := j.s;
    var stretch := Between(s.db.all, s.log.start, j.top);
    var w := Taken(s.f, stretch);
    ProbesOfMembers(who, w, r.probe);
    forall x | x in w && For(who, x) ensures x.probe != r.probe {
      TakenOf(s.f, stretch, x);
      BetweenOf(s.db.all, s.log.start, j.top, x);
    }
  }

  lemma OtherStepsKeepOnce(who: Who, j: Joint, m: Move)
    requires Inv(j.s) && OncePerRow(who, j) && Allowed(j, m)
    requires m.Deliver? ==> !Delivers(j.s, m.a)
    ensures OncePerRow(who, JointNext(who, j, m))
  {
    match m
    case Deliver(a, at, cause) =>
      SameEver(j.s, a);
      if a.Append? {
        AppendBeyond(j.s.db.all, a.row, j.s.log.start, j.top);
      }
    case Elsewhere(e) =>
      assert (j.events + [e])[..|j.events + [e]| - 1] == j.events;
  }

  // Only a delivery adds to what was ever delivered.
  lemma SameEver(s: State, a: Action)
    requires Enabled(s, a) && !Delivers(s, a)
    ensures Next(s, a).log.ever == s.log.ever && Next(s, a).log.start == s.log.start && Next(s, a).f == s.f
    ensures Next(s, a).db.all == (if a.Append? then s.db.all + [a.row] else s.db.all)
    ensures Next(s, a).db.top == (if a.Append? then a.row.num else s.db.top)
  {
    hide Record, Restore, List, UpsertAll, Takes;
  }

  lemma {:induction false} JointRunKeepsOnce(who: Who, trace: seq<Joint>)
    requires JointRun(who, trace) && OwnIdentities(who, trace[|trace| - 1].s.db.all)
    ensures Inv(trace[|trace| - 1].s) && OncePerRow(who, trace[|trace| - 1])
  {
    hide Inv, OncePerRow, OwnIdentities, Initial;
    var last := trace[|trace| - 1];
    if |trace| == 1 {
      InitialInv(last.s);
      InitialOnce(who, last);
    } else {
      var shorter := trace[..|trace| - 1];
      var j := trace[|trace| - 2];
      assert forall i :: 0 < i < |shorter| ==> JointFollows(who, trace[i - 1], trace[i]);
      assert JointFollows(who, j, last);
      var m: Move :| Allowed(j, m) && last == JointNext(who, j, m);
      FewerIdentities(who, j, m);
      JointRunKeepsOnce(who, shorter);
      MoveKeeps(who, j, m);
    }
  }

  lemma InitialOnce(who: Who, j: Joint)
    requires JointInitial(j)
    ensures OncePerRow(who, j)
  {
    NoStretch(j.s.db.all, j.s.log.start);
  }

  lemma FewerIdentities(who: Who, j: Joint, m: Move)
    requires Allowed(j, m) && OwnIdentities(who, JointNext(who, j, m).s.db.all)
    ensures OwnIdentities(who, j.s.db.all)
  {
    var all, more := j.s.db.all, JointNext(who, j, m).s.db.all;
    JournalGrows(j, m, who);
    assert forall i :: 0 <= i < |all| ==> all[i] == more[i];
  }

  lemma JournalGrows(j: Joint, m: Move, who: Who)
    requires Allowed(j, m)
    ensures j.s.db.all <= JointNext(who, j, m).s.db.all
  {
  }

  lemma MoveKeeps(who: Who, j: Joint, m: Move)
    requires Inv(j.s) && OncePerRow(who, j) && OwnIdentities(who, j.s.db.all) && Allowed(j, m)
    ensures Inv(JointNext(who, j, m).s) && OncePerRow(who, JointNext(who, j, m))
  {
    hide Inv, OncePerRow, OwnIdentities;
    if m.Deliver? {
      NextKeepsInv(j.s, m.a);
    }
    if m.Deliver? && Delivers(j.s, m.a) {
      var c := GM.Config(0, 0, GM.DEFAULT_POLICY);
      DeliveryCountsOnce(who, j, m.a, m.at, m.cause, c, GM.Member(false, 0, "", [], false, "", None, 0, [], 0));
    } else {
      OtherStepsKeepOnce(who, j, m);
    }
  }

  /** Each measurement counts once, over any number of registrations: the member accepts one measurement for each
      journal row of its own, in order, and delivering again a row it has seen changes nothing in it: no streak,
      no window, no eviction. */
  lemma ResumedConsumerCountsOnce(who: Who, trace: seq<Joint>, a: Action, at: int, cause: Option<string>,
                                  c: GM.Config, m: GM.Member)
    requires JointRun(who, trace) && OwnIdentities(who, trace[|trace| - 1].s.db.all) && m.ring == []
    requires Enabled(trace[|trace| - 1].s, a) && Delivers(trace[|trace| - 1].s, a)
    ensures var j := trace[|trace| - 1];
            PR.Accepted(GM.Offers(j.events)) == ProbesOf(who, Window(j.s, j.s.log.start, j.top))
    ensures var j := trace[|trace| - 1];
            j.s.pc.rows[j.s.pc.i].num in j.s.log.ever ==>
              GM.After(c, m, JointNext(who, j, Deliver(a, at, cause)).events) == GM.After(c, m, j.events)
  {
    var j := trace[|trace| - 1];
    JointRunKeepsOnce(who, trace);
    DeliveryCountsOnce(who, j, a, at, cause, c, m);
    hide Inv, JointNext, Next, Enabled;
  }
}
