/** What an apply can do to members it does not mean to touch.  Nodes that share a tag without sharing key and
    endpoint are outside the safety theorems of `RetirementSafety`; here is exactly when one apply can then take
    away the outbound of a member that stays a member. */
module RetirementRisk {
  import opened Basics
  import opened Retirement
  import opened RetirementSafety

  /** The steps while one apply is running: its own, and those of the drain goroutines in between. */
  ghost predicate Amid(s: State, actions: seq<Action>, t: State)
    decreases |actions|
  {
    if actions == [] then s == t
    else s.apply.On? && Enabled({}, s, actions[0]) && Amid(Next({}, s, actions[0]), actions[1..], t)
  }

  ghost predicate Reaches(s: State, t: State) {
    exists actions :: Amid(s, actions, t)
  }

  lemma {:induction false} AmidThen(s: State, actions: seq<Action>, t: State, a: Action)
    requires Amid(s, actions, t) && t.apply.On? && Enabled({}, t, a)
    ensures Amid(s, actions + [a], Next({}, t, a))
    decreases |actions|
  {
    hide Next, Enabled;
    var longer := actions + [a];
    if actions == [] {
      assert longer[1..] == [];
      assert Amid(Next({}, s, a), longer[1..], Next({}, t, a));
    } else {
      AmidThen(Next({}, s, actions[0]), actions[1..], t, a);
      assert longer[1..] == actions[1..] + [a];
    }
  }

  lemma Then(s: State, t: State, a: Action)
    requires Reaches(s, t) && t.apply.On? && Enabled({}, t, a)
    ensures Reaches(s, Next({}, t, a))
  {
    hide Next, Enabled, Amid;
    var actions: seq<Action> :| Amid(s, actions, t);
    AmidThen(s, actions, t, a);
  }

  lemma ReachesItself(s: State)
    ensures Reaches(s, s)
  {
    assert Amid(s, [], s);
  }

  // -------------------------------------------------------------------------------------------
  // The condition
  // -------------------------------------------------------------------------------------------

  /** No apply is running, the claims are those of their tickets, and members are registered and not retiring. */
  ghost predicate Settled(s: State) {
    && s.apply.Off?
    && (forall t :: t in s.retiring ==> s.retiring[t] < |s.tickets| && s.tickets[s.retiring[t]].tag == t)
    && (forall k :: k in s.members ==> s.members[k].tag in s.outbounds && s.members[k].tag !in s.retiring)
  }

  // The member of this key keeps its outbound: the endpoint is the same.
  predicate Kept(members: map<string, Live>, node: Node) {
    node.key in members && members[node.key].node.uri == node.uri
  }

  // The tag a desired node ends up with: that of the member it continues, or its own.
  function Effective(members: map<string, Live>, node: Node): Option<Tag> {
    if Kept(members, node) then Some(members[node.key].tag) else node.tag
  }

  /** The apply gets past desired node `j`: it continues a member, or has a tag that no earlier node took. */
  predicate Passes(members: map<string, Live>, desired: seq<Node>, j: nat)
    requires j < |desired|
  {
    Kept(members, desired[j])
    || (desired[j].tag.Some? && forall l :: 0 <= l < j ==> Effective(members, desired[l]) != desired[j].tag)
  }

  predicate BearsMemberTag(members: map<string, Live>, tag: Tag) {
    exists k :: k in members && members[k].tag == tag
  }

  /** Some desired node bears a member's tag under another key or for another endpoint, and the apply gets to it. */
  predicate Overtakes(members: map<string, Live>, desired: seq<Node>) {
    exists i :: 0 <= i < |desired|
                && !Kept(members, desired[i]) && desired[i].tag.Some? && BearsMemberTag(members, desired[i].tag.value)
                && forall j :: 0 <= j <= i ==> Passes(members, desired, j)
  }

  /** The apply can end without having changed the members, and with the outbound of one of them gone. */
  ghost predicate CanLose(s: State, desired: seq<Node>) {
    exists t, tag ::
      Reaches(Begin(s, desired), t) && t.apply.Off? && t.members == s.members
      && BearsMemberTag(s.members, tag) && tag !in t.outbounds
  }

  /** A desired node is served without a new outbound only by one for its own endpoint: that of the member it continues,
      or one that was retiring under its tag, whose claim has not changed since the apply began. */
  lemma TakenServesEndpoint(s: State)
    requires s.apply.On? && s.apply.stage == Choosing && s.apply.i < |s.apply.desired|
    requires Choose(s).apply.On? && Choose(s).apply.i == s.apply.i + 1
    ensures var a, node, b := s.apply, s.apply.desired[s.apply.i], Choose(s).apply;
            && node.key in b.next && b.next[node.key].node == node && b.specs == a.specs + [b.next[node.key].tag]
            && (if node.key in a.previous && a.previous[node.key].node.uri == node.uri
                then b.next[node.key].tag == a.previous[node.key].tag && b.cancelled == a.cancelled
                else
                  && node.tag == Some(b.next[node.key].tag) && node.tag.value !in a.specs
                     && node.tag.value in s.outbounds
                  && node.tag.value in s.retiring && node.tag.value !in Choose(s).retiring
                  && s.retiring[node.tag.value] < |s.tickets|
                  && s.tickets[s.retiring[node.tag.value]].node.Some?
                  && s.tickets[s.retiring[node.tag.value]].node.value.uri == node.uri
                  && Choose(s).tickets[s.retiring[node.tag.value]].stopped
                  && b.cancelled == a.cancelled + [s.retiring[node.tag.value]])
  {
    var a, node := s.apply, s.apply.desired[s.apply.i];
    if !Retained(a, node) && node.tag.Some? && node.tag.value !in a.specs {
      assert Reusable(s, node) && node.tag.value in s.retiring;
    }
  }

  // -------------------------------------------------------------------------------------------
  // Without such a node nothing is lost
  // -------------------------------------------------------------------------------------------

  // The apply has taken the nodes before `i`, each under its effective tag.
  ghost predicate TakenTo(members: map<string, Live>, desired: seq<Node>, specs: seq<Tag>, i: nat) {
    && i == |specs| <= |desired|
    && forall j :: 0 <= j < i ==> Passes(members, desired, j) && Effective(members, desired[j]) == Some(specs[j])
  }

  ghost predicate Harmless(members: map<string, Live>, tickets: seq<Ticket>, a: Apply)
    requires a.On?
  {
    && (forall i :: 0 <= i < |a.created| ==> !BearsMemberTag(members, a.created[i]))
    && (forall i :: 0 <= i < |a.cancelled| ==>
          a.cancelled[i] < |tickets| && !BearsMemberTag(members, tickets[a.cancelled[i]].tag))
  }

  ghost predicate ClaimsMatch(claims: map<Tag, nat>, tickets: seq<Ticket>, members: map<string, Live>) {
    forall t :: t in claims ==> claims[t] < |tickets| && tickets[claims[t]].tag == t && !BearsMemberTag(members, t)
  }

  ghost predicate Same(s0: State, outbounds: map<Tag, nat>) {
    forall t :: BearsMemberTag(s0.members, t) ==> t in outbounds && t in s0.outbounds && outbounds[t] == s0.outbounds[t]
  }

  // The position of the apply among the desired nodes.
  ghost predicate Positioned(s0: State, desired: seq<Node>, a: Apply)
    requires a.On?
  {
    && a.desired == desired && a.previous == s0.members && a.seen == s0.retiring
    && TakenTo(s0.members, desired, a.specs, a.i)
    && (a.stage.Creating? ==>
          a.i < |desired| && !Kept(s0.members, desired[a.i]) && desired[a.i].tag == Some(a.stage.tag)
          && Passes(s0.members, desired, a.i))
  }

  ghost predicate Safe(s0: State, desired: seq<Node>, s: State) {
    && Same(s0, s.outbounds)
    && (s.apply.On? ==>
          && Positioned(s0, desired, s.apply)
          && Harmless(s0.members, s.tickets, s.apply)
          && ClaimsMatch(s.retiring, s.tickets, s0.members)
          && ClaimsMatch(s.apply.seen, s.tickets, s0.members))
  }

  lemma SafeStart(s: State, desired: seq<Node>)
    requires Settled(s)
    ensures Safe(s, desired, Begin(s, desired))
  {
  }

  // Tickets are only added or stopped.
  predicate TicketsStay(a: seq<Ticket>, b: seq<Ticket>) {
    |a| <= |b| && forall i :: 0 <= i < |a| ==> b[i].tag == a[i].tag
  }

  lemma ClaimsStay(claims: map<Tag, nat>, a: seq<Ticket>, b: seq<Ticket>, members: map<string, Live>)
    requires ClaimsMatch(claims, a, members) && TicketsStay(a, b)
    ensures ClaimsMatch(claims, b, members)
  {
  }

  lemma ChooseSafe(s0: State, desired: seq<Node>, s: State)
    requires Safe(s0, desired, s) && s.apply.On? && s.apply.stage == Choosing
    ensures Safe(s0, desired, Choose(s))
  {
    hide Positioned, Harmless, ClaimsMatch, Same;
    ChooseOnlyStops(s);
    ChooseStaysOn(s);
    ClaimsStay(s.apply.seen, s.tickets, Choose(s).tickets, s0.members);
    ClaimsStay(s.retiring, s.tickets, Choose(s).tickets, s0.members);
    FewerClaims(s.retiring, Choose(s).retiring, Choose(s).tickets, s0.members);
    ChooseHarmless(s0.members, s);
    ChoosePositioned(s0, desired, s);
  }

  lemma ChooseOnlyStops(s: State)
    requires s.apply.On? && s.apply.stage == Choosing
    ensures var t := Choose(s);
            && TicketsStay(s.tickets, t.tickets) && t.outbounds == s.outbounds && t.retiring.Keys <= s.retiring.Keys
            && forall tag :: tag in t.retiring ==> t.retiring[tag] == s.retiring[tag]
  {
    hide Keep, Retained;
  }

  lemma ChooseStaysOn(s: State)
    requires s.apply.On? && s.apply.stage == Choosing
    ensures Choose(s).apply.On? && Choose(s).apply.seen == s.apply.seen
  {
    hide Retained, Reusable, Stopped, Keep;
  }

  lemma FewerClaims(claims: map<Tag, nat>, claims': map<Tag, nat>, tickets: seq<Ticket>, members: map<string, Live>)
    requires ClaimsMatch(claims, tickets, members) && claims'.Keys <= claims.Keys
    requires forall tag :: tag in claims' ==> claims'[tag] == claims[tag]
    ensures ClaimsMatch(claims', tickets, members)
  {
  }

  lemma ChooseHarmless(members: map<string, Live>, s: State)
    requires s.apply.On? && s.apply.stage == Choosing
    requires Harmless(members, s.tickets, s.apply) && ClaimsMatch(s.apply.seen, s.tickets, members)
    ensures Choose(s).apply.On? && Harmless(members, Choose(s).tickets, Choose(s).apply)
  {
    hide BearsMemberTag, Retained, Stopped, Choose;
    ChooseOnlyStops(s);
    ChooseStaysOn(s);
    ChooseTakesBack(s);
  }

  // What an apply chooses is never created yet, and taken back is only what was retiring at its start.
  lemma ChooseTakesBack(s: State)
    requires s.apply.On? && s.apply.stage == Choosing
    ensures Choose(s).apply.On? && Choose(s).apply.created == s.apply.created
    ensures Choose(s).apply.cancelled == s.apply.cancelled
         || exists tag :: tag in s.apply.seen && Choose(s).apply.cancelled == s.apply.cancelled + [s.apply.seen[tag]]
  {
    hide Retained, Stopped;
    var a := s.apply;
    if a.i < |a.desired| && a.desired[a.i].tag.Some? {
      var tag := a.desired[a.i].tag.value;
      if Reusable(s, a.desired[a.i]) {
        assert tag in a.seen;
      }
      hide Reusable;
    }
  }

  lemma ChoosePositioned(s0: State, desired: seq<Node>, s: State)
    requires s.apply.On? && s.apply.stage == Choosing && Positioned(s0, desired, s.apply)
    ensures Choose(s).apply.On? && Positioned(s0, desired, Choose(s).apply)
  {
    if s.apply.i < |desired| {
      TookOne(s0.members, desired, s.apply.specs, s.apply.i);
    }
    hide TakenTo, Passes, Effective;
  }

  // What the next node adds to the nodes taken.
  lemma TookOne(members: map<string, Live>, desired: seq<Node>, specs: seq<Tag>, i: nat)
    requires TakenTo(members, desired, specs, i) && i < |desired|
    ensures var node := desired[i];
            && (Kept(members, node) ==> TakenTo(members, desired, specs + [members[node.key].tag], i + 1))
            && (!Kept(members, node) && node.tag.Some? && node.tag.value !in specs ==>
                  Passes(members, desired, i) && TakenTo(members, desired, specs + [node.tag.value], i + 1))
  {
  }

  lemma CreateSafe(s0: State, desired: seq<Node>, s: State, o: Outcome)
    requires Safe(s0, desired, s) && s.apply.On? && s.apply.stage.Creating? && s.apply.i < |s.apply.desired|
    requires !Overtakes(s0.members, desired)
    ensures Safe(s0, desired, Create(s, o))
  {
  }

  lemma CleanUpSafe(s0: State, desired: seq<Node>, s: State)
    requires Safe(s0, desired, s) && s.apply.On? && s.apply.stage == Cleaning
    ensures Safe(s0, desired, CleanUp(s))
  {
  }

  lemma UndoSafe(s0: State, desired: seq<Node>, s: State)
    requires Safe(s0, desired, s) && s.apply.On? && s.apply.stage == Undoing
    ensures Safe(s0, desired, Undo(s))
  {
    hide BearsMemberTag, TakenTo, Passes, Effective, ClaimsMatch, Same;
    var t := Undo(s);
    UndoOnlyAdds(s);
    ClaimsStay(s.apply.seen, s.tickets, t.tickets, s0.members);
    ClaimsStay(s.retiring, s.tickets, t.tickets, s0.members);
    UndoClaims(s0.members, s);
  }

  lemma UndoOnlyAdds(s: State)
    requires s.apply.On? && s.apply.stage == Undoing
    ensures Undo(s).outbounds == s.outbounds && TicketsStay(s.tickets, Undo(s).tickets)
  {
  }

  lemma UndoClaims(members: map<string, Live>, s: State)
    requires s.apply.On? && s.apply.stage == Undoing
    requires Harmless(members, s.tickets, s.apply) && ClaimsMatch(s.retiring, s.tickets, members)
    ensures ClaimsMatch(Undo(s).retiring, Undo(s).tickets, members)
  {
  }

  lemma FinishSafe(s0: State, desired: seq<Node>, s: State, id: nat)
    requires Safe(s0, desired, s) && s.apply.On? && id < |s.tickets|
    ensures Safe(s0, desired, Finish(s, id))
  {
  }

  lemma PublishSafe(s0: State, desired: seq<Node>, s: State)
    requires Safe(s0, desired, s) && s.apply.On? && s.apply.stage.Publishing?
    ensures Safe(s0, desired, Publish(s))
  {
    PublishSameOutbounds({}, s);
    hide BearsMemberTag;
  }

  lemma StepSafe(s0: State, desired: seq<Node>, s: State, a: Action)
    requires Safe(s0, desired, s) && s.apply.On? && Enabled({}, s, a) && !Overtakes(s0.members, desired)
    ensures Safe(s0, desired, Next({}, s, a))
  {
    hide Safe, Choose, Create, Publish, CleanUp, Undo, Finish, Overtakes;
    match a
    case ChooseNext => ChooseSafe(s0, desired, s);
    case CreateNext(o) => CreateSafe(s0, desired, s, o);
    case DecideNext(ok) => DecideSafe(s0, desired, s, ok);
    case PublishNext => PublishSafe(s0, desired, s);
    case CleanUpNext => CleanUpSafe(s0, desired, s);
    case UndoNext => UndoSafe(s0, desired, s);
    case GiveUp(id) => GiveUpSafe(s0, desired, s, id);
    case FinishDrain(id) => FinishSafe(s0, desired, s, id);
    case _ =>
  }

  lemma DecideSafe(s0: State, desired: seq<Node>, s: State, ok: bool)
    requires Safe(s0, desired, s) && s.apply.On? && s.apply.stage == Deciding
    ensures Safe(s0, desired, Decide(s, ok))
  {
  }

  lemma GiveUpSafe(s0: State, desired: seq<Node>, s: State, id: nat)
    requires Safe(s0, desired, s)
    ensures Safe(s0, desired, s.(alive := s.alive - {id}))
  {
  }

  /** While no desired node overtakes a member, the same object stays registered under every member's tag at every
      moment of the apply, whatever fails in it and whatever the drain goroutines do meanwhile. */
  lemma {:induction false} MembersKeepOutbounds(s0: State, desired: seq<Node>, s: State, actions: seq<Action>, t: State)
    requires Safe(s0, desired, s) && Amid(s, actions, t) && !Overtakes(s0.members, desired)
    ensures Same(s0, t.outbounds)
    decreases |actions|
  {
    hide Next, Enabled, Overtakes;
    if actions != [] {
      StepSafe(s0, desired, s, actions[0]);
      MembersKeepOutbounds(s0, desired, Next({}, s, actions[0]), actions[1..], t);
    }
  }

  // -------------------------------------------------------------------------------------------
  // With such a node something can be lost
  // -------------------------------------------------------------------------------------------

  // The apply about to choose node `i`.
  ghost predicate At(s0: State, desired: seq<Node>, s: State, i: nat) {
    && s.apply.On? && s.apply.stage == Choosing && s.apply.i == i && s.members == s0.members
    && Positioned(s0, desired, s.apply) && s.apply.seen == s0.retiring
  }

  lemma {:induction false} Drives(s0: State, desired: seq<Node>, i: nat) returns (t: State)
    requires i <= |desired| && s0.apply.Off?
    requires forall j :: 0 <= j < i ==> Passes(s0.members, desired, j)
    ensures Reaches(Begin(s0, desired), t) && At(s0, desired, t, i)
  {
    hide Reaches, Choose, Create;
    if i == 0 {
      t := Begin(s0, desired);
      ReachesItself(t);
    } else {
      var s := Drives(s0, desired, i - 1);
      Then(Begin(s0, desired), s, ChooseNext);
      DriveChoice(s0, desired, s, i - 1);
      t := Choose(s);
      if t.apply.stage.Creating? {
        Then(Begin(s0, desired), t, CreateNext(Made));
        DriveCreate(s0, desired, t, i - 1);
        t := Create(t, Made);
      }
    }
  }

  // Choosing a node the apply gets past: taken already, or to be created.
  lemma DriveChoice(s0: State, desired: seq<Node>, s: State, i: nat)
    requires At(s0, desired, s, i) && i < |desired| && Passes(s0.members, desired, i)
    ensures var t := Choose(s);
            At(s0, desired, t, i + 1) || CreatingAt(s0, desired, t, i)
  {
  }

  ghost predicate CreatingAt(s0: State, desired: seq<Node>, s: State, i: nat) {
    && s.apply.On? && s.apply.stage.Creating? && s.apply.i == i < |desired| && s.members == s0.members
    && Positioned(s0, desired, s.apply)
  }

  lemma DriveCreate(s0: State, desired: seq<Node>, s: State, i: nat)
    requires CreatingAt(s0, desired, s, i)
    ensures At(s0, desired, Create(s, Made), i + 1)
  {
  }

  // The member's tag is not retiring, so it is not taken back but created again.
  lemma OvertakerIsCreated(s0: State, desired: seq<Node>, s: State, i: nat)
    requires Settled(s0) && At(s0, desired, s, i) && i < |desired| && Passes(s0.members, desired, i)
    requires !Kept(s0.members, desired[i]) && BearsMemberTag(s0.members, desired[i].tag.value)
    ensures CreatingAt(s0, desired, Choose(s), i) && Choose(s).apply.stage.tag == desired[i].tag.value
  {
  }

  /** Rolling back removes what was created, and never brings an outbound back. */
  lemma {:induction false} RollsBack(first: State, s: State) returns (t: State)
    requires Reaches(first, s) && s.apply.On? && (s.apply.stage == Cleaning || s.apply.stage == Undoing)
    ensures Reaches(first, t) && t.apply.Off? && t.members == s.members && t.outbounds.Keys <= s.outbounds.Keys
    ensures s.apply.stage == Cleaning ==> forall i :: 0 <= i < |s.apply.created| ==> s.apply.created[i] !in t.outbounds
    decreases s.apply.stage == Cleaning, |s.apply.created|, |s.apply.cancelled|
  {
    hide Reaches;
    if s.apply.stage == Cleaning {
      Then(first, s, CleanUpNext);
      t := RollsBack(first, CleanUp(s));
    } else {
      Then(first, s, UndoNext);
      if s.apply.cancelled == [] {
        t := Undo(s);
      } else {
        t := RollsBack(first, Undo(s));
      }
    }
  }

  lemma OvertakingLoses(s: State, desired: seq<Node>)
    requires Settled(s) && Overtakes(s.members, desired)
    ensures CanLose(s, desired)
  {
    hide Reaches, Positioned, Choose;
    var i :| 0 <= i < |desired|
             && !Kept(s.members, desired[i]) && desired[i].tag.Some? && BearsMemberTag(s.members, desired[i].tag.value)
             && forall j :: 0 <= j <= i ==> Passes(s.members, desired, j);
    var first, tag := Begin(s, desired), desired[i].tag.value;
    var at := Drives(s, desired, i);
    Then(first, at, ChooseNext);
    OvertakerIsCreated(s, desired, at, i);
    CreatingInRange(s, desired, Choose(at), i);
    Then(first, Choose(at), CreateNext(MadeAndRemoved));
    var removed := Create(Choose(at), MadeAndRemoved);
    var t := RollsBack(first, removed);
    assert tag !in removed.outbounds;
  }

  lemma CreatingInRange(s0: State, desired: seq<Node>, s: State, i: nat)
    requires CreatingAt(s0, desired, s, i)
    ensures s.apply.i < |s.apply.desired|
  {
  }

  /** Exactly when an apply can cost a member its outbound: some desired node bears a member's tag under another key
      or for another endpoint, and no earlier node stops the apply before it gets there. */
  lemma CanLoseIff(s: State, desired: seq<Node>)
    requires Settled(s)
    ensures CanLose(s, desired) <==> Overtakes(s.members, desired)
  {
    hide Amid, Same, Settled, Overtakes;
    if Overtakes(s.members, desired) {
      OvertakingLoses(s, desired);
    } else if CanLose(s, desired) {
      var t, tag :| Reaches(Begin(s, desired), t) && t.apply.Off? && t.members == s.members
                    && BearsMemberTag(s.members, tag) && tag !in t.outbounds;
      var actions: seq<Action> :| Amid(Begin(s, desired), actions, t);
      SafeStart(s, desired);
      MembersKeepOutbounds(s, desired, Begin(s, desired), actions, t);
      SameRegistered(s, t.outbounds, tag);
    }
  }

  lemma SameRegistered(s0: State, outbounds: map<Tag, nat>, tag: Tag)
    requires Same(s0, outbounds) && BearsMemberTag(s0.members, tag)
    ensures tag in outbounds
  {
  }

  /** The everyday case: a member is renamed, so its endpoint arrives under its tag with another key, or its tag is
      given another endpoint.  If the pool then refuses the update, the outbound is gone although the member stays. */
  lemma RefusedRenameLosesOutbound(s: State, k: string, node: Node)
    requires Settled(s) && k in s.members && node.tag == Some(s.members[k].tag)
    requires !Kept(s.members, node)
    ensures var tag := s.members[k].tag;
            var made := Create(Choose(Begin(s, [node])), Made);
            var refused := Decide(Choose(made), false);
            var t := Undo(CleanUp(CleanUp(refused)));
            t.apply.Off? && k in t.members && t.members[k].tag == tag && tag !in t.outbounds
  {
    var choosing := Begin(s, [node]);
    assert Choose(choosing).apply == choosing.apply.(stage := Creating(node.tag.value));
  }

  /** Where the safety theorems apply there is no such node: every state of the protocol is settled between applies,
      and within one generation of tags no desired node overtakes a member. */
  lemma CoherentNeverOvertakes(universe: set<Node>, s: State, desired: seq<Node>)
    requires Coherent(universe) && Inv(universe, s) && s.apply.Off?
    requires forall i :: 0 <= i < |desired| ==> desired[i] in universe
    ensures Settled(s) && !Overtakes(s.members, desired)
  {
  }
}
