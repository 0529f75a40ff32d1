/** What every interleaving of an apply with the drain goroutines keeps: each registered outbound has exactly one
    owner, no outbound in use is removed, and none is forgotten. */
module RetirementSafety {
  import opened Basics
  import opened Retirement

  // -------------------------------------------------------------------------------------------
  // The invariant
  // -------------------------------------------------------------------------------------------

  function TagsOf(members: map<string, Live>): set<Tag> {
    set k | k in members :: members[k].tag
  }

  function SetOf(tags: seq<Tag>): set<Tag> {
    set t | t in tags
  }

  function TicketTags(tickets: seq<Ticket>, ids: seq<nat>): set<Tag> {
    set id | id in ids && id < |tickets| :: tickets[id].tag
  }

  // Outbounds the running apply has created or taken back.
  function Taken(s: State): set<Tag> {
    if s.apply.Off? then {} else SetOf(s.apply.created) + TicketTags(s.tickets, s.apply.cancelled)
  }

  ghost predicate GoodMembers(universe: set<Node>, members: map<string, Live>) {
    forall k :: k in members ==>
      members[k].node in universe && members[k].node.key == k && members[k].node.tag == Some(members[k].tag)
  }

  ghost predicate GoodTicket(universe: set<Node>, t: Ticket) {
    t.node.Some? && t.node.value in universe && t.node.value.tag == Some(t.tag)
  }

  /** A retiring tag has a live goroutine with a valid ticket: it will be removed once drained. */
  ghost predicate GoodRetiring(universe: set<Node>, s: State) {
    forall t :: t in s.retiring ==>
      s.retiring[t] < |s.tickets| && s.retiring[t] in s.alive
      && s.tickets[s.retiring[t]].tag == t && !s.tickets[s.retiring[t]].stopped
      && GoodTicket(universe, s.tickets[s.retiring[t]])
  }

  /** The registered outbounds are the members', the retiring ones and those the apply holds, each in one role. */
  predicate Partition(s: State) {
    var members, retiring, taken := TagsOf(s.members), s.retiring.Keys, Taken(s);
    s.outbounds.Keys == members + retiring + taken
    && members !! retiring && members !! taken && retiring !! taken
  }

  predicate NoRepeats<T(==)>(xs: seq<T>) {
    forall i, j :: 0 <= i < j < |xs| ==> xs[i] != xs[j]
  }

  // What the running apply holds.
  ghost predicate GoodApply(universe: set<Node>, s: State) {
    var a := s.apply;
    a.On? ==>
      DistinctKeys(a.desired) && (forall i :: 0 <= i < |a.desired| ==> a.desired[i] in universe)
      && a.previous == s.members
      && (forall t :: t in s.retiring ==> !a.stage.Undoing? ==> t in a.seen && a.seen[t] == s.retiring[t])
      && NoRepeats(a.created)
      && SetOf(a.created) !! TicketTags(s.tickets, a.cancelled)
      && (forall id :: id in a.cancelled ==> id < |s.tickets| && GoodTicket(universe, s.tickets[id]))
      && (forall i, j :: 0 <= i < j < |a.cancelled| && a.cancelled[i] < |s.tickets| && a.cancelled[j] < |s.tickets| ==>
            s.tickets[a.cancelled[i]].tag != s.tickets[a.cancelled[j]].tag)
      && (a.stage.Undoing? ==> a.created == [])
  }

  // The set being built.
  ghost predicate GoodNext(universe: set<Node>, s: State) {
    var a := s.apply;
    a.On? && !a.stage.Cleaning? && !a.stage.Undoing? ==>
      GoodMembers(universe, a.next)
      && a.i <= |a.desired|
      && (forall k :: k in a.next ==> exists j :: 0 <= j < a.i && a.desired[j].key == k)
      && (forall j :: 0 <= j < a.i ==> a.desired[j].key in a.next && a.next[a.desired[j].key].node == a.desired[j])
      && (a.stage.Deciding? || a.stage.Publishing? ==> a.i == |a.desired|)
      && TagsOf(a.next) == SetOf(a.specs)
      && Taken(s) <= SetOf(a.specs) <= TagsOf(s.members) + Taken(s)
      && (a.stage.Creating? ==>
            a.i < |a.desired| && a.desired[a.i].tag == Some(a.stage.tag) && a.stage.tag !in s.outbounds)
  }

  // What the pool publishes.
  predicate GoodTopology(s: State) {
    if s.apply.On? && s.apply.stage.Publishing? then
      SetOf(s.topology) == SetOf(s.apply.specs)
      && SetOf(s.apply.stage.retired) == TagsOf(s.members) - SetOf(s.apply.specs)
      && NoRepeats(s.apply.stage.retired) && NoRepeats(s.topology)
    else SetOf(s.topology) == TagsOf(s.members) && NoRepeats(s.topology)
  }

  ghost predicate Inv(universe: set<Node>, s: State) {
    GoodMembers(universe, s.members) && GoodRetiring(universe, s) && Partition(s) && GoodApply(universe, s)
    && GoodNext(universe, s) && GoodTopology(s)
  }

  // -------------------------------------------------------------------------------------------
  // One lemma for each step
  // -------------------------------------------------------------------------------------------

  lemma BeginKeeps(universe: set<Node>, s: State, desired: seq<Node>)
    requires Inv(universe, s) && Enabled(universe, s, BeginApply(desired))
    ensures Inv(universe, Begin(s, desired))
  {
  }

  lemma NewKey(universe: set<Node>, s: State)
    requires GoodApply(universe, s) && GoodNext(universe, s)
    requires s.apply.On? && !s.apply.stage.Cleaning? && !s.apply.stage.Undoing? && s.apply.i < |s.apply.desired|
    ensures s.apply.desired[s.apply.i].key !in s.apply.next
  {
  }

  lemma TagsOfAdded(members: map<string, Live>, k: string, live: Live)
    requires k !in members
    ensures TagsOf(members[k := live]) == TagsOf(members) + {live.tag}
  {
    var more := members[k := live];
    assert forall x :: x in members ==> more[x] == members[x];
    assert more[k] == live;
    assert forall x :: x in more ==> x == k || x in members;
    forall t ensures t in TagsOf(more) <==> t in TagsOf(members) + {live.tag} {
      if t in TagsOf(members) {
        var x :| x in members && members[x].tag == t;
        assert more[x].tag == t;
      }
    }
  }

  lemma SetOfAdded(tags: seq<Tag>, t: Tag)
    ensures SetOf(tags + [t]) == SetOf(tags) + {t}
  {
  }

  lemma DesiredKnown(universe: set<Node>, s: State)
    requires GoodApply(universe, s) && s.apply.On? && s.apply.i < |s.apply.desired|
    ensures s.apply.desired[s.apply.i] in universe
  {
  }

  lemma MembersGrow(universe: set<Node>, members: map<string, Live>, live: Live)
    requires GoodMembers(universe, members) && live.node in universe && live.node.tag == Some(live.tag)
    ensures GoodMembers(universe, members[live.node.key := live])
  {
  }

  /** Taking the next node into the set being built, under a tag that is the member's own, taken back or new. */
  lemma KeepGrows(universe: set<Node>, s: State, live: Live, t: State)
    requires GoodApply(universe, s) && GoodNext(universe, s)
    requires s.apply.On? && !s.apply.stage.Cleaning? && !s.apply.stage.Undoing? && s.apply.i < |s.apply.desired|
    requires live.node == s.apply.desired[s.apply.i] && live.node.tag == Some(live.tag)
    requires t.members == s.members && t.apply.On?
    requires t.apply.desired == s.apply.desired && t.apply.i == s.apply.i + 1 && t.apply.stage == Choosing
    requires t.apply.next == s.apply.next[live.node.key := live] && t.apply.specs == s.apply.specs + [live.tag]
    requires Taken(s) <= Taken(t) <= Taken(s) + {live.tag}
    requires live.tag in TagsOf(s.members) + Taken(t)
    ensures GoodNext(universe, t)
  {
    hide TagsOf, SetOf, Taken, GoodMembers, GoodApply;
    var a := s.apply;
    NewKey(universe, s);
    assert a.desired[a.i] in universe by { DesiredKnown(universe, s); }
    TagsOfAdded(a.next, a.desired[a.i].key, live);
    SetOfAdded(a.specs, live.tag);
    MembersGrow(universe, a.next, live);
    assert forall k :: k in t.apply.next <==> k in a.next || k == a.desired[a.i].key;
  }

  lemma RetainKeeps(universe: set<Node>, s: State)
    requires Coherent(universe) && Inv(universe, s)
    requires s.apply.On? && s.apply.stage == Choosing && s.apply.i < |s.apply.desired|
    requires Retained(s.apply, s.apply.desired[s.apply.i])
    ensures Inv(universe, Choose(s))
  {
    hide Inv, GoodRetiring, Partition, GoodTopology, TicketTags, TagsOf, SetOf, DistinctKeys;
    Parts(universe, s);
    var a, t := s.apply, Choose(s);
    var node := a.desired[a.i];
    RetainedTag(universe, s);
    assert Taken(t) == Taken(s);
    KeepGrows(universe, s, a.previous[node.key].(node := node), t);
    RetiringFrame(universe, s, t);
    TopologyFrame(s, t);
    PartitionFrame(s, t);
    Combine(universe, t);
  }

  lemma RetainedTag(universe: set<Node>, s: State)
    requires Coherent(universe) && GoodMembers(universe, s.members) && GoodApply(universe, s) && GoodNext(universe, s)
    requires s.apply.On? && s.apply.stage == Choosing && s.apply.i < |s.apply.desired|
    requires Retained(s.apply, s.apply.desired[s.apply.i])
    ensures var node := s.apply.desired[s.apply.i];
            node.key in s.members && s.members[node.key].tag in TagsOf(s.members)
            && node.tag == Some(s.members[node.key].tag) && s.apply.previous == s.members
  {
  }

  /** A node whose tag nobody holds is new. */
  lemma CreatedTagIsNew(universe: set<Node>, s: State, tag: Tag)
    requires Coherent(universe) && Inv(universe, s)
    requires s.apply.On? && s.apply.stage == Choosing && s.apply.i < |s.apply.desired|
    requires s.apply.desired[s.apply.i].tag == Some(tag) && !Retained(s.apply, s.apply.desired[s.apply.i])
    requires tag !in s.apply.specs
    requires !(Reusable(s, s.apply.desired[s.apply.i]) && tag in s.retiring && s.retiring[tag] == s.apply.seen[tag])
    ensures tag !in s.outbounds
  {
  }

  lemma ReuseKeeps(universe: set<Node>, s: State)
    requires Inv(universe, s)
    requires s.apply.On? && s.apply.stage == Choosing && s.apply.i < |s.apply.desired|
    requires var node := s.apply.desired[s.apply.i];
             !Retained(s.apply, node) && node.tag.Some? && node.tag.value !in s.apply.specs && Reusable(s, node)
             && node.tag.value in s.retiring && s.retiring[node.tag.value] == s.apply.seen[node.tag.value]
    ensures Inv(universe, Choose(s))
  {
    hide Inv, GoodNext, GoodApply, GoodRetiring, GoodMembers, GoodTopology, Partition, Taken, TicketTags;
    var a, t := s.apply, Choose(s);
    var node := a.desired[a.i];
    var tag := node.tag.value;
    var id := a.seen[tag];
    ReuseIsHeld(universe, s, tag);
    TakenBack(s, t, tag, id);
    KeepGrows(universe, s, Live(tag, node), t);
    ReuseApply(universe, s, t, tag, id);
    ReuseRetiring(universe, s, t, tag, id);
    ReusePartition(s, t, tag);
    TopologyFrame(s, t);
    Combine(universe, t);
  }

  // The parts of the invariant are the invariant.
  lemma Combine(universe: set<Node>, s: State)
    requires GoodMembers(universe, s.members) && GoodRetiring(universe, s) && Partition(s) && GoodApply(universe, s)
    requires GoodNext(universe, s) && GoodTopology(s)
    ensures Inv(universe, s)
  {
  }

  lemma Parts(universe: set<Node>, s: State)
    requires Inv(universe, s)
    ensures GoodMembers(universe, s.members) && GoodRetiring(universe, s) && Partition(s) && GoodApply(universe, s)
    ensures GoodNext(universe, s) && GoodTopology(s)
  {
  }

  lemma ReuseIsHeld(universe: set<Node>, s: State, tag: Tag)
    requires Inv(universe, s) && tag in s.retiring
    ensures GoodMembers(universe, s.members) && GoodRetiring(universe, s) && Partition(s) && GoodApply(universe, s)
    ensures GoodNext(universe, s) && GoodTopology(s)
    ensures tag in s.outbounds && s.retiring[tag] < |s.tickets| && s.tickets[s.retiring[tag]].tag == tag
    ensures GoodTicket(universe, s.tickets[s.retiring[tag]])
  {
  }

  lemma ReusePartition(s: State, t: State, tag: Tag)
    requires Partition(s) && tag in s.retiring && t.retiring == s.retiring - {tag}
    requires t.outbounds == s.outbounds && t.members == s.members && Taken(t) == Taken(s) + {tag}
    ensures Partition(t)
  {
  }

  lemma TakenBack(s: State, t: State, tag: Tag, id: nat)
    requires s.apply.On? && t.apply.On? && id < |s.tickets| && s.tickets[id].tag == tag
    requires t.tickets == Stopped(s.tickets, id)
    requires t.apply.created == s.apply.created && t.apply.cancelled == s.apply.cancelled + [id]
    ensures TicketTags(t.tickets, t.apply.cancelled) == TicketTags(s.tickets, s.apply.cancelled) + {tag}
    ensures Taken(t) == Taken(s) + {tag}
  {
    assert forall x :: x in t.apply.cancelled <==> x in s.apply.cancelled || x == id;
    assert forall x :: 0 <= x < |s.tickets| ==> t.tickets[x].tag == s.tickets[x].tag;
  }

  lemma ReuseApply(universe: set<Node>, s: State, t: State, tag: Tag, id: nat)
    requires GoodApply(universe, s) && Partition(s) && s.apply.On? && id < |s.tickets| && s.tickets[id].tag == tag
    requires tag in s.retiring
    requires GoodTicket(universe, s.tickets[id]) && s.apply.stage == Choosing && s.apply.i < |s.apply.desired|
    requires s.apply.desired[s.apply.i].tag == Some(tag)
    requires t == s.(tickets := Stopped(s.tickets, id), retiring := s.retiring - {tag},
                     apply := Keep(s.apply, Live(tag, s.apply.desired[s.apply.i])).(cancelled := s.apply.cancelled
                         + [id]))
    ensures GoodApply(universe, t)
  {
    var a := s.apply;
    TakenBack(s, t, tag, id);
    assert forall x :: 0 <= x < |s.tickets| ==>
           t.tickets[x].tag == s.tickets[x].tag && t.tickets[x].node == s.tickets[x].node;
    forall i | 0 <= i < |a.cancelled| ensures a.cancelled[i] < |s.tickets| && s.tickets[a.cancelled[i]].tag != tag {
      assert a.cancelled[i] in a.cancelled;
      assert s.tickets[a.cancelled[i]].tag in TicketTags(s.tickets, a.cancelled);
    }
    assert tag !in SetOf(a.created);
    hide GoodNext, TagsOf, GoodMembers, GoodRetiring, SetOf, GoodTopology, DistinctKeys;
  }

  lemma ReuseRetiring(universe: set<Node>, s: State, t: State, tag: Tag, id: nat)
    requires GoodRetiring(universe, s) && tag in s.retiring && s.retiring[tag] == id
    requires t.tickets == Stopped(s.tickets, id) && t.retiring == s.retiring - {tag} && t.alive == s.alive
    ensures GoodRetiring(universe, t)
  {
  }

  lemma RetiringFrame(universe: set<Node>, s: State, t: State)
    requires GoodRetiring(universe, s) && t.retiring == s.retiring && t.tickets == s.tickets && t.alive == s.alive
    ensures GoodRetiring(universe, t)
  {
  }

  lemma TakenFrame(s: State, t: State)
    requires s.apply.On? && t.apply.On? && t.tickets == s.tickets
    requires t.apply.created == s.apply.created && t.apply.cancelled == s.apply.cancelled
    ensures Taken(t) == Taken(s)
  {
  }

  lemma PartitionFrame(s: State, t: State)
    requires Partition(s) && t.outbounds.Keys == s.outbounds.Keys && t.members == s.members && t.retiring == s.retiring
    requires Taken(t) == Taken(s)
    ensures Partition(t)
  {
  }

  lemma TopologyFrame(s: State, t: State)
    requires GoodTopology(s) && t.topology == s.topology && t.members == s.members
    requires !(s.apply.On? && s.apply.stage.Publishing?) && !(t.apply.On? && t.apply.stage.Publishing?)
    ensures GoodTopology(t)
  {
  }

  // Steps that only move the apply to another stage.
  lemma StageKeeps(universe: set<Node>, s: State, stage: Stage)
    requires Inv(universe, s) && s.apply.On?
             && (s.apply.stage == Choosing || s.apply.stage == Deciding || s.apply.stage.Creating?)
    requires stage == Cleaning || (stage == Deciding && s.apply.i >= |s.apply.desired|) ||
             (stage.Creating? && s.apply.i < |s.apply.desired| && s.apply.desired[s.apply.i].tag == Some(stage.tag)
              && stage.tag !in s.outbounds)
    ensures Inv(universe, s.(apply := s.apply.(stage := stage)))
  {
  }

  lemma ChooseKeeps(universe: set<Node>, s: State)
    requires Coherent(universe) && Inv(universe, s) && Enabled(universe, s, ChooseNext)
    ensures Inv(universe, Choose(s))
  {
    var a := s.apply;
    hide Inv, Coherent, Retained;
    if a.i >= |a.desired| {
      StageKeeps(universe, s, Deciding);
    } else if Retained(a, a.desired[a.i]) {
      RetainKeeps(universe, s);
    } else if a.desired[a.i].tag.None? || a.desired[a.i].tag.value in a.specs {
      StageKeeps(universe, s, Cleaning);
    } else {
      var tag := a.desired[a.i].tag.value;
      if Reusable(s, a.desired[a.i]) && tag in s.retiring && s.retiring[tag] == a.seen[tag] {
        ReuseKeeps(universe, s);
      } else {
        CreatedTagIsNew(universe, s, tag);
        StageKeeps(universe, s, Creating(tag));
      }
    }
  }

  lemma CreateKeeps(universe: set<Node>, s: State, o: Outcome)
    requires Inv(universe, s) && Enabled(universe, s, CreateNext(o))
    ensures Inv(universe, Create(s, o))
  {
    var a, tag := s.apply, s.apply.stage.tag;
    if o.Made? {
      MadeKeeps(universe, s);
    } else {
      StageKeeps(universe, s, Cleaning);
      assert s.outbounds - {tag} == s.outbounds;
      hide Inv;
    }
  }

  lemma MadeKeeps(universe: set<Node>, s: State)
    requires Inv(universe, s) && Enabled(universe, s, CreateNext(Made))
    ensures Inv(universe, Create(s, Made))
  {
    hide Inv, GoodNext, GoodApply, GoodRetiring, GoodMembers, GoodTopology, Partition, Taken, TicketTags;
    Parts(universe, s);
    var a, t := s.apply, Create(s, Made);
    var tag := a.stage.tag;
    CreatingTag(universe, s);
    SetOfAdded(a.created, tag);
    MadeTaken(s, t, tag);
    KeepGrows(universe, s, Live(tag, a.desired[a.i]), t);
    MadeApply(universe, s, t, tag);
    RetiringFrame(universe, s, t);
    MadePartition(s, t, tag);
    TopologyFrame(s, t);
    Combine(universe, t);
  }

  lemma CreatingTag(universe: set<Node>, s: State)
    requires GoodNext(universe, s) && Partition(s) && s.apply.On? && s.apply.stage.Creating?
    ensures s.apply.i < |s.apply.desired| && s.apply.desired[s.apply.i].tag == Some(s.apply.stage.tag)
    ensures s.apply.stage.tag !in s.outbounds && s.apply.stage.tag !in Taken(s)
  {
  }

  lemma MadeTaken(s: State, t: State, tag: Tag)
    requires s.apply.On? && t.apply.On? && t.tickets == s.tickets
    requires t.apply.created == s.apply.created + [tag] && t.apply.cancelled == s.apply.cancelled
    ensures Taken(t) == Taken(s) + {tag}
  {
  }

  lemma MadePartition(s: State, t: State, tag: Tag)
    requires Partition(s) && tag !in s.outbounds && t.retiring == s.retiring
    requires t.outbounds.Keys == s.outbounds.Keys + {tag} && t.members == s.members && Taken(t) == Taken(s) + {tag}
    ensures Partition(t)
  {
  }

  lemma MadeApply(universe: set<Node>, s: State, t: State, tag: Tag)
    requires GoodApply(universe, s) && s.apply.On? && s.apply.stage.Creating? && t.apply.On? && tag !in Taken(s)
    requires t.tickets == s.tickets && t.retiring == s.retiring && t.members == s.members
    requires t.apply == s.apply.(created := s.apply.created + [tag], i := t.apply.i, next := t.apply.next,
             specs := t.apply.specs, stage := Choosing)
    ensures GoodApply(universe, t)
  {
  }

  lemma {:induction false} WithoutOf(tags: seq<Tag>, dropped: seq<Tag>)
    requires NoRepeats(tags)
    ensures SetOf(Without(tags, dropped)) == SetOf(tags) - SetOf(dropped)
    ensures NoRepeats(Without(tags, dropped))
  {
    if tags != [] {
      var init := tags[..|tags| - 1];
      WithoutOf(init, dropped);
      assert tags == init + [tags[|tags| - 1]];
      SetOfAdded(init, tags[|tags| - 1]);
      assert tags[|tags| - 1] !in init;
      forall i | 0 <= i < |Without(init, dropped)| ensures Without(init, dropped)[i] != tags[|tags| - 1] {
        assert Without(init, dropped)[i] in SetOf(Without(init, dropped));
      }
      SetOfAdded(Without(init, dropped), tags[|tags| - 1]);
    }
  }

  lemma DecideKeeps(universe: set<Node>, s: State, ok: bool)
    requires Inv(universe, s) && Enabled(universe, s, DecideNext(ok))
    ensures Inv(universe, Decide(s, ok))
  {
    hide Inv, GoodMembers, GoodRetiring, TagsOf, SetOf, TicketTags, DistinctKeys, Taken;
    Parts(universe, s);
    if ok && Resolves(s.apply.specs, s.outbounds) {
      var t := Decide(s, ok);
      DecideTopology(s);
      TakenFrame(s, t);
      RetiringFrame(universe, s, t);
      Combine(universe, t);
    } else {
      StageKeeps(universe, s, Cleaning);
    }
  }

  lemma DecideTopology(s: State)
    requires GoodTopology(s) && s.apply.On? && s.apply.stage == Deciding && Resolves(s.apply.specs, s.outbounds)
    ensures GoodTopology(Decide(s, true))
  {
    WithoutOf(s.topology, s.apply.specs);
    hide TagsOf, SetOf;
  }

  // -------------------------------------------------------------------------------------------
  // Publishing and undoing
  // -------------------------------------------------------------------------------------------

  lemma NodeWithTagIsGood(universe: set<Node>, members: map<string, Live>, tag: Tag)
    requires GoodMembers(universe, members) && tag in TagsOf(members)
    ensures GoodTicket(universe, Ticket(tag, NodeWithTag(members, tag), false))
  {
  }

  lemma IssueKeeps(universe: set<Node>, s: State, tag: Tag, node: Option<Node>)
    requires GoodRetiring(universe, s) && tag !in s.retiring && GoodTicket(universe, Ticket(tag, node, false))
    ensures GoodRetiring(universe, Issue(s, tag, node))
    ensures Issue(s, tag, node).retiring.Keys == s.retiring.Keys + {tag}
  {
  }

  lemma {:induction false} RetireAllKeeps(universe: set<Node>, s: State, previous: map<string, Live>, tags: seq<Tag>)
    requires GoodMembers(universe, previous) && GoodRetiring(universe, s)
    requires NoRepeats(tags) && SetOf(tags) <= TagsOf(previous) && SetOf(tags) !! s.retiring.Keys
    ensures var t := RetireAll(s, previous, tags);
            GoodRetiring(universe, t) && t.retiring.Keys == s.retiring.Keys + SetOf(tags)
            && t.outbounds == s.outbounds && t.topology == s.topology && t.members == s.members && t.apply == s.apply
  {
    hide GoodMembers, GoodRetiring, TagsOf, NodeWithTag, GoodTicket;
    if tags != [] {
      var init, tag := tags[..|tags| - 1], tags[|tags| - 1];
      LastTag(tags);
      hide SetOf, NoRepeats;
      RetireAllKeeps(universe, s, previous, init);
      NodeWithTagIsGood(universe, previous, tag);
      IssueKeeps(universe, RetireAll(s, previous, init), tag, NodeWithTag(previous, tag));
    }
  }

  lemma LastTag(tags: seq<Tag>)
    requires NoRepeats(tags) && tags != []
    ensures var init, tag := tags[..|tags| - 1], tags[|tags| - 1];
            NoRepeats(init) && tag !in SetOf(init) && SetOf(tags) == SetOf(init) + {tag}
  {
  }

  lemma PublishKeeps(universe: set<Node>, s: State)
    requires Inv(universe, s) && Enabled(universe, s, PublishNext)
    ensures Inv(universe, Publish(s))
  {
    hide Inv, GoodMembers, TagsOf, RetireAll, NodeWithTag;
    Parts(universe, s);
    var a, t := s.apply, Publish(s);
    RetiredAreFree(universe, s);
    RetireAllKeeps(universe, s.(members := a.next), a.previous, a.stage.retired);
    RetiringFrame(universe, RetireAll(s.(members := a.next), a.previous, a.stage.retired), t);
    PublishPartition(universe, s, t);
    Combine(universe, t);
  }

  lemma RetiredAreFree(universe: set<Node>, s: State)
    requires GoodTopology(s) && Partition(s) && GoodApply(universe, s) && s.apply.On? && s.apply.stage.Publishing?
    requires GoodRetiring(universe, s)
    ensures s.apply.previous == s.members
    ensures SetOf(s.apply.stage.retired) <= TagsOf(s.members) && SetOf(s.apply.stage.retired) !! s.retiring.Keys
    ensures NoRepeats(s.apply.stage.retired)
    ensures GoodRetiring(universe, s.(members := s.apply.next))
  {
  }

  lemma PublishPartition(universe: set<Node>, s: State, t: State)
    requires GoodTopology(s) && Partition(s) && GoodNext(universe, s) && s.apply.On? && s.apply.stage.Publishing?
    requires t.outbounds == s.outbounds && t.members == s.apply.next && t.topology == s.topology && t.apply == Off
    requires t.retiring.Keys == s.retiring.Keys + SetOf(s.apply.stage.retired)
    ensures Partition(t) && GoodTopology(t) && GoodMembers(universe, t.members)
    ensures GoodApply(universe, t) && GoodNext(universe, t)
  {
  }

  lemma CleanUpKeeps(universe: set<Node>, s: State)
    requires Inv(universe, s) && Enabled(universe, s, CleanUpNext)
    ensures Inv(universe, CleanUp(s))
  {
    hide Inv, GoodApply, GoodRetiring, GoodMembers, GoodTopology, Partition, Taken, TicketTags;
    Parts(universe, s);
    var t := CleanUp(s);
    CleanUpApply(universe, s);
    CleanUpPartition(universe, s);
    RetiringFrame(universe, s, t);
    TopologyFrame(s, t);
    Combine(universe, t);
  }

  lemma CleanUpApply(universe: set<Node>, s: State)
    requires GoodApply(universe, s) && s.apply.On? && s.apply.stage == Cleaning
    ensures GoodApply(universe, CleanUp(s))
  {
  }

  lemma CleanUpPartition(universe: set<Node>, s: State)
    requires GoodApply(universe, s) && Partition(s) && s.apply.On? && s.apply.stage == Cleaning
    ensures Partition(CleanUp(s))
    ensures s.apply.created != [] ==> s.apply.created[|s.apply.created| - 1] in Taken(s)
  {
    var created, t := s.apply.created, CleanUp(s);
    if created != [] {
      var init, last := created[..|created| - 1], created[|created| - 1];
      assert created == init + [last];
      SetOfAdded(init, last);
      LastIsFresh(created);
      assert last !in TicketTags(s.tickets, s.apply.cancelled);
      assert Taken(t) == Taken(s) - {last};
    } else {
      assert Taken(t) == Taken(s);
    }
    hide TagsOf, TicketTags, GoodApply;
  }

  lemma LastIsFresh(tags: seq<Tag>)
    requires NoRepeats(tags) && tags != []
    ensures tags[|tags| - 1] !in SetOf(tags[..|tags| - 1])
  {
  }

  lemma UndoKeeps(universe: set<Node>, s: State)
    requires Inv(universe, s) && Enabled(universe, s, UndoNext)
    ensures Inv(universe, Undo(s))
  {
    hide Inv, GoodApply, GoodRetiring, GoodMembers, GoodTopology, Partition, Taken, TicketTags;
    Parts(universe, s);
    var t := Undo(s);
    if s.apply.cancelled == [] {
      NothingTaken(universe, s);
      RetiringFrame(universe, s, t);
    } else {
      UndoTaken(universe, s);
      var id := s.apply.cancelled[0];
      UndoApply(universe, s);
      IssueKeeps(universe, s, s.tickets[id].tag, s.tickets[id].node);
      RetiringFrame(universe, Issue(s, s.tickets[id].tag, s.tickets[id].node), t);
      UndoPartition(s, t, s.tickets[id].tag);
    }
    TopologyFrame(s, t);
    Combine(universe, t);
  }

  lemma NothingTaken(universe: set<Node>, s: State)
    requires GoodApply(universe, s) && Partition(s) && s.apply.On? && s.apply.stage == Undoing
             && s.apply.cancelled == []
    ensures Partition(Undo(s)) && GoodApply(universe, Undo(s)) && GoodNext(universe, Undo(s))
  {
  }

  /** The first retirement to give back claims a tag nobody else holds. */
  lemma UndoTaken(universe: set<Node>, s: State)
    requires GoodApply(universe, s) && Partition(s) && s.apply.On? && s.apply.stage == Undoing
             && s.apply.cancelled != []
    ensures var id := s.apply.cancelled[0];
            id < |s.tickets| && s.tickets[id].tag !in s.retiring
                && GoodTicket(universe, s.tickets[id].(stopped := false))
            && Undo(s) ==
               Issue(s, s.tickets[id].tag, s.tickets[id].node).(apply := s.apply.(cancelled := s.apply.cancelled[1..]))
            && Taken(Undo(s)) == Taken(s) - {s.tickets[id].tag} && s.tickets[id].tag in Taken(s)
  {
    var cancelled, t := s.apply.cancelled, Undo(s);
    var id, rest := cancelled[0], cancelled[1..];
    assert id in cancelled && id < |s.tickets|;
    var tag := s.tickets[id].tag;
    assert tag in TicketTags(s.tickets, cancelled);
    assert tag !in s.retiring by { hide TagsOf, GoodApply; }
    RestOfTickets(s.tickets, t.tickets, cancelled);
    hide TagsOf, TicketTags, DistinctKeys, Partition, NoRepeats;
  }

  lemma RestOfTickets(tickets: seq<Ticket>, more: seq<Ticket>, ids: seq<nat>)
    requires ids != [] && tickets <= more
    requires forall id :: id in ids ==> id < |tickets|
    requires forall i, j :: 0 <= i < j < |ids| && ids[i] < |tickets| && ids[j] < |tickets| ==>
             tickets[ids[i]].tag != tickets[ids[j]].tag
    ensures ids[0] in ids && TicketTags(more, ids[1..]) == TicketTags(tickets, ids) - {tickets[ids[0]].tag}
  {
    var rest := ids[1..];
    assert ids == [ids[0]] + rest;
    assert ids[0] in ids && forall id :: id in rest ==> id in ids;
    forall id | id in rest ensures id < |tickets| && more[id] == tickets[id] && tickets[id].tag != tickets[ids[0]].tag {
      var j :| 0 <= j < |rest| && rest[j] == id;
      assert ids[j + 1] == id;
    }
  }

  lemma UndoApply(universe: set<Node>, s: State)
    requires GoodApply(universe, s) && s.apply.On? && s.apply.stage == Undoing && s.apply.cancelled != []
    ensures GoodApply(universe, Undo(s)) && GoodNext(universe, Undo(s))
  {
    hide TicketTags, DistinctKeys, GoodTicket, NoRepeats, Stopped;
    var t, rest := Undo(s), s.apply.cancelled[1..];
    assert t.apply == s.apply.(cancelled := rest) && t.members == s.members && s.tickets <= t.tickets;
    assert forall x :: 0 <= x < |s.tickets| ==> t.tickets[x] == s.tickets[x];
    Shorter(universe, s.tickets, t.tickets, s.apply.cancelled);
    assert SetOf(t.apply.created) == {};
  }

  lemma Shorter(universe: set<Node>, tickets: seq<Ticket>, more: seq<Ticket>, ids: seq<nat>)
    requires ids != [] && tickets <= more
    requires forall id :: id in ids ==> id < |tickets| && GoodTicket(universe, tickets[id])
    requires forall i, j :: 0 <= i < j < |ids| && ids[i] < |tickets| && ids[j] < |tickets| ==>
             tickets[ids[i]].tag != tickets[ids[j]].tag
    ensures forall id :: id in ids[1..] ==> id < |more| && GoodTicket(universe, more[id])
    ensures var rest := ids[1..];
            forall i, j :: 0 <= i < j < |rest| && rest[i] < |more| && rest[j] < |more| ==>
                more[rest[i]].tag != more[rest[j]].tag
  {
    var rest := ids[1..];
    assert forall i :: 0 <= i < |rest| ==> rest[i] == ids[i + 1] && ids[i + 1] in ids;
    assert forall x :: 0 <= x < |tickets| ==> more[x] == tickets[x];
    hide GoodTicket;
  }

  lemma UndoPartition(s: State, t: State, tag: Tag)
    requires Partition(s) && tag in Taken(s) && t.retiring.Keys == s.retiring.Keys + {tag}
    requires t.outbounds == s.outbounds && t.members == s.members && Taken(t) == Taken(s) - {tag}
    ensures Partition(t)
  {
  }

  // -------------------------------------------------------------------------------------------
  // Drains
  // -------------------------------------------------------------------------------------------

  lemma FinishKeeps(universe: set<Node>, s: State, id: nat)
    requires Inv(universe, s) && Enabled(universe, s, FinishDrain(id))
    ensures Inv(universe, Finish(s, id))
  {
    hide Inv, GoodNext, GoodApply, GoodMembers, GoodTopology, Taken, TicketTags;
    Parts(universe, s);
    var t := Finish(s, id);
    FinishRetiring(universe, s, id);
    FinishApply(universe, s, id);
    FinishPartition(universe, s, id);
    TopologySame(s, t);
    Combine(universe, t);
  }

  lemma FinishRetiring(universe: set<Node>, s: State, id: nat)
    requires GoodRetiring(universe, s) && id < |s.tickets|
    ensures GoodRetiring(universe, Finish(s, id))
  {
  }

  lemma FinishApply(universe: set<Node>, s: State, id: nat)
    requires GoodApply(universe, s) && GoodNext(universe, s) && id < |s.tickets|
    ensures GoodApply(universe, Finish(s, id)) && GoodNext(universe, Finish(s, id))
  {
    assert Taken(Finish(s, id)) == Taken(s);
    hide TagsOf, SetOf, TicketTags, DistinctKeys, NoRepeats, Taken, GoodMembers, GoodTicket;
  }

  lemma FinishPartition(universe: set<Node>, s: State, id: nat)
    requires GoodRetiring(universe, s) && Partition(s) && id < |s.tickets|
    ensures Partition(Finish(s, id))
  {
  }

  lemma TopologySame(s: State, t: State)
    requires GoodTopology(s) && t.topology == s.topology && t.members == s.members && t.apply == s.apply
    ensures GoodTopology(t)
  {
  }

  lemma GiveUpKeeps(universe: set<Node>, s: State, id: nat)
    requires Inv(universe, s) && Enabled(universe, s, GiveUp(id))
    ensures Inv(universe, s.(alive := s.alive - {id}))
  {
    hide Inv, GoodMembers, GoodApply, GoodNext, Partition, GoodTopology, GoodTicket, TagsOf;
    Parts(universe, s);
    var t := s.(alive := s.alive - {id});
    assert GoodRetiring(universe, t);
    AliveFrame(universe, s, t);
    TopologySame(s, t);
    Combine(universe, t);
  }

  lemma AliveFrame(universe: set<Node>, s: State, t: State)
    requires Partition(s) && GoodApply(universe, s) && GoodNext(universe, s) && t == s.(alive := t.alive)
    ensures Partition(t) && GoodApply(universe, t) && GoodNext(universe, t)
  {
  }

  lemma NextKeepsInv(universe: set<Node>, s: State, a: Action)
    requires Coherent(universe) && Inv(universe, s) && Enabled(universe, s, a)
    ensures Inv(universe, Next(universe, s, a))
  {
    hide Inv, Coherent;
    match a
    case BeginApply(desired) => BeginKeeps(universe, s, desired);
    case ChooseNext => ChooseKeeps(universe, s);
    case CreateNext(outcome) => CreateKeeps(universe, s, outcome);
    case DecideNext(ok) => DecideKeeps(universe, s, ok);
    case PublishNext => PublishKeeps(universe, s);
    case CleanUpNext => CleanUpKeeps(universe, s);
    case UndoNext => UndoKeeps(universe, s);
    case GiveUp(id) => GiveUpKeeps(universe, s, id);
    case FinishDrain(id) => FinishKeeps(universe, s, id);
    case TearDown => TearDownKeeps(universe, s);
  }

  lemma TearDownKeeps(universe: set<Node>, s: State)
    requires s.apply.Off?
    ensures Inv(universe, Next(universe, s, TearDown))
  {
  }

  // -------------------------------------------------------------------------------------------
  // Whole runs
  // -------------------------------------------------------------------------------------------

  /** A group that has just been built: its members' outbounds are registered and published, nothing drains. */
  ghost predicate Initial(universe: set<Node>, s: State) {
    GoodMembers(universe, s.members) && s.outbounds.Keys == TagsOf(s.members)
    && SetOf(s.topology) == TagsOf(s.members) && NoRepeats(s.topology)
    && s.retiring == map[] && s.apply == Off
  }

  ghost predicate Follows(universe: set<Node>, s: State, t: State) {
    exists a: Action :: Enabled(universe, s, a) && t == Next(universe, s, a)
  }

  ghost predicate Run(universe: set<Node>, trace: seq<State>) {
    |trace| > 0 && Initial(universe, trace[0])
    && forall i :: 0 < i < |trace| ==> Follows(universe, trace[i - 1], trace[i])
  }

  lemma {:induction false} RunKeepsInv(universe: set<Node>, trace: seq<State>)
    requires Coherent(universe) && Run(universe, trace)
    ensures Inv(universe, trace[|trace| - 1])
  {
    hide Inv, Coherent, Initial, Enabled, Next;
    if |trace| == 1 {
      InitialInv(universe, trace[0]);
    } else {
      var shorter := trace[..|trace| - 1];
      assert forall i :: 0 < i < |shorter| ==> Follows(universe, trace[i - 1], trace[i]);
      RunKeepsInv(universe, shorter);
      var s, t := trace[|trace| - 2], trace[|trace| - 1];
      assert Follows(universe, s, t);
      var a: Action :| Enabled(universe, s, a) && t == Next(universe, s, a);
      NextKeepsInv(universe, s, a);
    }
  }

  lemma InitialInv(universe: set<Node>, s: State)
    requires Initial(universe, s)
    ensures Inv(universe, s)
  {
  }

  /** No outbound is lost and none leaks: whenever no apply is running, the registered outbounds are exactly the
      members' and the retiring ones, no outbound is both, the pool publishes the members, and every retiring outbound
      has a goroutine that will remove it. */
  lemma NothingLeaks(universe: set<Node>, trace: seq<State>)
    requires Coherent(universe) && Run(universe, trace) && trace[|trace| - 1].apply.Off?
    ensures var s := trace[|trace| - 1];
            s.outbounds.Keys == TagsOf(s.members) + s.retiring.Keys && TagsOf(s.members) !! s.retiring.Keys
            && SetOf(s.topology) == TagsOf(s.members)
            && forall t :: t in s.retiring ==>
                 s.retiring[t] in s.alive && s.retiring[t] < |s.tickets| && s.tickets[s.retiring[t]].tag == t
                 && Finish(s, s.retiring[t]).outbounds == s.outbounds - {t}
  {
    RunKeepsInv(universe, trace);
    hide GoodMembers, GoodApply, GoodNext, GoodTicket;
  }

  /** No outbound in use is taken away: a step other than tearing the group down leaves the outbound of every member,
      and of everything the pool publishes, registered and the same object. */
  lemma OutboundsInUseStay(universe: set<Node>, trace: seq<State>, a: Action, tag: Tag)
    requires Coherent(universe) && Run(universe, trace)
    requires Enabled(universe, trace[|trace| - 1], a) && a != TearDown
    requires tag in TagsOf(trace[|trace| - 1].members) || tag in trace[|trace| - 1].topology
    ensures var s := trace[|trace| - 1];
            var t := Next(universe, s, a);
            tag in s.outbounds && tag in t.outbounds && t.outbounds[tag] == s.outbounds[tag]
  {
    hide Inv, Coherent, Enabled, Next, TagsOf;
    RunKeepsInv(universe, trace);
    StepKeepsInUse(universe, trace[|trace| - 1], a, tag);
  }

  lemma StepKeepsInUse(universe: set<Node>, s: State, a: Action, tag: Tag)
    requires Inv(universe, s) && Enabled(universe, s, a) && a != TearDown
    requires tag in TagsOf(s.members) || tag in s.topology
    ensures var t := Next(universe, s, a);
            tag in s.outbounds && tag in t.outbounds && t.outbounds[tag] == s.outbounds[tag]
  {
    hide Inv, TagsOf, Taken, RetireAll, GoodApply, GoodNext, GoodTopology, GoodRetiring, Partition;
    InUseIsHeld(universe, s, tag);
    match a
    case PublishNext => PublishSameOutbounds(universe, s);
    case CleanUpNext => CleanUpPartition(universe, s);
    case FinishDrain(id) => FinishIsRetiring(universe, s, id, tag);
    case CreateNext(_) => CreatingTag(universe, s);
    case _ =>
  }

  lemma InUseIsHeld(universe: set<Node>, s: State, tag: Tag)
    requires Inv(universe, s) && (tag in TagsOf(s.members) || tag in s.topology)
    ensures tag in s.outbounds && tag !in s.retiring
    ensures s.apply.On? && s.apply.stage == Cleaning ==> tag !in Taken(s)
    ensures GoodRetiring(universe, s) && GoodApply(universe, s) && Partition(s) && GoodNext(universe, s)
  {
  }

  lemma FinishIsRetiring(universe: set<Node>, s: State, id: nat, tag: Tag)
    requires id < |s.tickets| && tag in s.outbounds && tag !in s.retiring
    ensures tag in Finish(s, id).outbounds && Finish(s, id).outbounds[tag] == s.outbounds[tag]
  {
  }

  lemma {:induction false} RetireAllSame(s: State, previous: map<string, Live>, tags: seq<Tag>)
    ensures var t := RetireAll(s, previous, tags);
            t.outbounds == s.outbounds && t.members == s.members && t.topology == s.topology
  {
    if tags != [] {
      RetireAllSame(s, previous, tags[..|tags| - 1]);
    }
  }

  lemma PublishSameOutbounds(universe: set<Node>, s: State)
    requires s.apply.On? && s.apply.stage.Publishing?
    ensures Publish(s).outbounds == s.outbounds && Publish(s).members == s.apply.next
  {
    RetireAllSame(s.(members := s.apply.next), s.apply.previous, s.apply.stage.retired);
  }

  /** All or nothing: members change only when an apply publishes, and then to exactly the desired nodes, each under
      its own tag. */
  lemma PublishedAsDesired(universe: set<Node>, trace: seq<State>, a: Action)
    requires Coherent(universe) && Run(universe, trace) && Enabled(universe, trace[|trace| - 1], a) && a != TearDown
    ensures var s := trace[|trace| - 1];
            var t := Next(universe, s, a);
            t.members != s.members ==> a == PublishNext && MembersAre(t.members, s.apply.desired)
  {
    hide Inv, Coherent, MembersAre;
    RunKeepsInv(universe, trace);
    var s := trace[|trace| - 1];
    if a.PublishNext? {
      PublishSameOutbounds(universe, s);
      NextIsDesired(universe, s);
    }
    hide RetireAll;
  }

  predicate MembersAre(members: map<string, Live>, desired: seq<Node>) {
    members.Keys == (set node | node in desired :: node.key)
    && forall node :: node in desired ==>
         node.key in members && members[node.key].node == node && node.tag == Some(members[node.key].tag)
  }

  lemma NextIsDesired(universe: set<Node>, s: State)
    requires Inv(universe, s) && s.apply.On? && s.apply.stage.Publishing?
    ensures MembersAre(s.apply.next, s.apply.desired)
  {
  }
}
