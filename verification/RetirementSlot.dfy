/** A group's runtime slot as an object: the incremental apply and the drain goroutine's last section, each against the
    steps of the protocol. */
module RetirementSlot {
  import opened Basics
  import opened Retirement
  import opened RetirementSafety

  ghost predicate StepsWith(universe: set<Node>, s: State, actions: seq<Action>, t: State)
    decreases |actions|
  {
    if actions == [] then s == t
    else Enabled(universe, s, actions[0]) && StepsWith(universe, Next(universe, s, actions[0]), actions[1..], t)
  }

  /** One state leads to the other by steps of the protocol. */
  ghost predicate Steps(universe: set<Node>, s: State, t: State) {
    exists actions: seq<Action> :: StepsWith(universe, s, actions, t)
  }

  lemma StepsNone(universe: set<Node>, s: State)
    ensures Steps(universe, s, s)
  {
    assert StepsWith(universe, s, [], s);
  }

  lemma {:induction false} StepsWithThen(universe: set<Node>, s: State, actions: seq<Action>, t: State, a: Action)
    requires StepsWith(universe, s, actions, t) && Enabled(universe, t, a)
    ensures StepsWith(universe, s, actions + [a], Next(universe, t, a))
    decreases |actions|
  {
    hide Next, Enabled;
    if actions == [] {
      assert StepsWith(universe, Next(universe, t, a), [a][1..], Next(universe, t, a));
      assert [] + [a] == [a];
    } else {
      StepsWithThen(universe, Next(universe, s, actions[0]), actions[1..], t, a);
      assert (actions + [a])[1..] == actions[1..] + [a];
    }
  }

  lemma ThenStep(universe: set<Node>, s: State, t: State, a: Action)
    requires Steps(universe, s, t) && Enabled(universe, t, a)
    ensures Steps(universe, s, Next(universe, t, a))
  {
    hide Next, Enabled, StepsWith;
    var actions: seq<Action> :| StepsWith(universe, s, actions, t);
    StepsWithThen(universe, s, actions, t, a);
  }

  lemma {:induction false} StepsWithKeepInv(universe: set<Node>, s: State, actions: seq<Action>, t: State)
    requires Coherent(universe) && Inv(universe, s) && StepsWith(universe, s, actions, t)
    ensures Inv(universe, t)
    decreases |actions|
  {
    hide Next, Enabled, Inv, Coherent;
    if actions != [] {
      NextKeepsInv(universe, s, actions[0]);
      StepsWithKeepInv(universe, Next(universe, s, actions[0]), actions[1..], t);
    }
  }

  lemma StepsKeepInv(universe: set<Node>, s: State, t: State)
    requires Coherent(universe) && Inv(universe, s) && Steps(universe, s, t)
    ensures Inv(universe, t)
  {
    hide Inv, StepsWith, Coherent;
    var actions: seq<Action> :| StepsWith(universe, s, actions, t);
    StepsWithKeepInv(universe, s, actions, t);
  }

  lemma ThenChoose(universe: set<Node>, first: State, s: State)
    requires Steps(universe, first, s) && s.apply.On? && s.apply.stage == Choosing
    ensures Steps(universe, first, Choose(s))
  {
    hide Steps;
    ThenStep(universe, first, s, ChooseNext);
  }

  lemma ThenCreate(universe: set<Node>, first: State, s: State, outcome: Outcome)
    requires Steps(universe, first, s) && s.apply.On? && s.apply.stage.Creating? && s.apply.i < |s.apply.desired|
    ensures Steps(universe, first, Create(s, outcome))
  {
    hide Steps;
    ThenStep(universe, first, s, CreateNext(outcome));
  }

  class Slot {
    var outbounds: map<Tag, nat>
    var made: nat
    var topology: seq<Tag>
    var members: map<string, Live>
    var retiring: map<Tag, nat>
    var tickets: seq<Ticket>
    var alive: set<nat>

    ghost function At(a: Apply): State
      reads this
    {
      State(outbounds, made, topology, members, retiring, tickets, alive, a)
    }

    /** The last critical section of a drain goroutine. */
    method FinishRetirement(id: nat, ghost a: Apply)
      requires id < |tickets|
      modifies this
      ensures At(a) == Finish(old(At(a)), id)
      ensures var tag := tickets[id].tag;
              var claims := tag in old(retiring) && old(retiring)[tag] == id;
              && outbounds == (if claims && !tickets[id].stopped then old(outbounds) - {tag} else old(outbounds))
              && retiring == (if claims then old(retiring) - {tag} else old(retiring))
              && tickets == old(tickets) && members == old(members) && topology == old(topology)
              && alive == old(alive) - {id}
    {
      var tag := tickets[id].tag;
      alive := alive - {id};
      if tag !in retiring || retiring[tag] != id {
        return;
      }
      if tickets[id].stopped {
        retiring := retiring - {tag};
        return;
      }
      outbounds := outbounds - {tag};
      retiring := retiring - {tag};
    }

    /** cancelGroupRetirements: every goroutine is told to stop and no claim remains. */
    method CancelRetirements()
      requires forall t :: t in retiring ==> retiring[t] < |tickets|
      modifies this`retiring, this`tickets
      ensures retiring == map[] && tickets == StopAll(old(tickets), old(retiring))
      ensures forall t :: t in old(retiring) ==> tickets[old(retiring)[t]].stopped
      ensures forall i :: 0 <= i < |tickets| ==>
                && tickets[i].tag == old(tickets)[i].tag && tickets[i].node == old(tickets)[i].node
                && ((forall t :: t in old(retiring) ==> old(retiring)[t] != i) ==> tickets[i] == old(tickets)[i])
    {
      var todo := retiring.Keys;
      while todo != {}
        invariant todo <= old(retiring).Keys && retiring.Keys == todo
        invariant forall t :: t in todo ==> retiring[t] == old(retiring)[t]
        invariant |tickets| == |old(tickets)|
        invariant forall i :: 0 <= i < |tickets| ==>
          tickets[i] == if exists t :: t in old(retiring).Keys - todo && old(retiring)[t] == i
                        then old(tickets)[i].(stopped := true) else old(tickets)[i]
      {
        var tag := Pick(todo);
        tickets := Stopped(tickets, retiring[tag]);
        retiring := retiring - {tag};
        todo := todo - {tag};
      }
    }

    // The node a retired tag belonged to.
    method FindNode(previous: map<string, Live>, tag: Tag) returns (node: Option<Node>)
      ensures node.Some? ==> exists k :: k in previous && previous[k].tag == tag && node == Some(previous[k].node)
      ensures node.None? ==> forall k :: k in previous ==> previous[k].tag != tag
    {
      var todo := previous.Keys;
      while todo != {}
        invariant todo <= previous.Keys
        invariant forall k :: k in previous && k !in todo ==> previous[k].tag != tag
      {
        var k := Pick(todo);
        if previous[k].tag == tag {
          return Some(previous[k].node);
        }
        todo := todo - {k};
      }
      node := None;
    }

    // One desired node: kept, refused, taken back or created. `ok` is false when the apply has to be rolled back.
    method TakeNode(ghost universe: set<Node>, desired: seq<Node>, i: nat, previous: map<string, Live>,
                    seen: map<Tag, nat>, next: map<string, Live>, specs: seq<Tag>, created: seq<Tag>,
                    cancelled: seq<nat>, outcome: Outcome, ghost first: State)
        returns (ok: bool, next': map<string, Live>, specs': seq<Tag>, created': seq<Tag>, cancelled': seq<nat>)
      requires i < |desired|
      requires Steps(universe, first, At(On(desired, i, previous, seen, next, specs, created, cancelled, Choosing)))
      modifies this
      ensures Steps(universe, first, At(On(desired, if ok then i + 1 else i, previous, seen, next', specs', created',
              cancelled', if ok then Choosing else Cleaning)))
      ensures members == old(members) && topology == old(topology)
    {
      hide Steps, Next, Enabled;
      ghost var now := On(desired, i, previous, seen, next, specs, created, cancelled, Choosing);
      ThenChoose(universe, first, At(now));
      next', specs', created', cancelled' := next, specs, created, cancelled;
      var node := desired[i];
      if node.key in previous && previous[node.key].node.uri == node.uri {
        next' := next[node.key := previous[node.key].(node := node)];
        specs' := specs + [previous[node.key].tag];
        return true, next', specs', created', cancelled';
      }
      if node.tag.None? || node.tag.value in specs {
        return false, next', specs', created', cancelled';
      }
      var tag := node.tag.value;
      if tag in seen && seen[tag] < |tickets| && tickets[seen[tag]].node.Some?
          && tickets[seen[tag]].node.value.uri == node.uri {
        if tag in retiring && retiring[tag] == seen[tag] {
          tickets := Stopped(tickets, seen[tag]);
          if tag in outbounds {
            cancelled' := cancelled + [seen[tag]];
            retiring := retiring - {tag};
            next', specs' := next[node.key := Live(tag, node)], specs + [tag];
            return true, next', specs', created', cancelled';
          }
        }
      }
      ok := CreateNode(universe, now.(stage := Creating(tag)), tag, outcome, first);
      if ok {
        created', next', specs' := created + [tag], next[node.key := Live(tag, node)], specs + [tag];
      }
    }

    // A new outbound is built and registered under the tag.
    method CreateNode(ghost universe: set<Node>, ghost a: Apply, tag: Tag, outcome: Outcome, ghost first: State)
        returns (ok: bool)
      requires a.On? && a.stage == Creating(tag) && a.i < |a.desired| && Steps(universe, first, At(a))
      modifies this
      ensures Steps(universe, first,
                    At(if ok then a.(next := a.next[a.desired[a.i].key := Live(tag, a.desired[a.i])], specs := a.specs
                        + [tag], i := a.i + 1, created := a.created + [tag], stage := Choosing)
                       else a.(stage := Cleaning)))
      ensures members == old(members) && topology == old(topology)
    {
      hide Steps;
      ThenCreate(universe, first, At(a), outcome);
      match outcome
      case NotMade => ok := false;
      case MadeAndRemoved =>
        outbounds := outbounds - {tag};
        ok := false;
      case Made =>
        outbounds, made := outbounds[tag := made], made + 1;
        ok := true;
    }

    // After a failed apply: the outbounds created are removed last first, then each retirement taken back is issued
    // again.
    method RollBack(ghost universe: set<Node>, ghost a: Apply, createdTags: seq<Tag>, cancelledIds: seq<nat>,
                    ghost first: State)
      requires a.On? && a.created == createdTags && a.cancelled == cancelledIds && a.stage == Cleaning
      requires Steps(universe, first, At(a))
      modifies this
      ensures Steps(universe, first, At(Off))
      ensures members == old(members) && topology == old(topology)
    {
      hide Steps;
      var created, cancelled := createdTags, cancelledIds;
      while created != []
        invariant Steps(universe, first, At(a.(created := created)))
        invariant members == old(members) && topology == old(topology)
        decreases |created|
      {
        ThenStep(universe, first, At(a.(created := created)), CleanUpNext);
        outbounds := outbounds - {created[|created| - 1]};
        created := created[..|created| - 1];
      }
      ThenStep(universe, first, At(a.(created := [])), CleanUpNext);
      ghost var undoing := a.(created := [], stage := Undoing);
      while cancelled != []
        invariant Steps(universe, first, At(undoing.(cancelled := cancelled)))
        invariant members == old(members) && topology == old(topology)
        decreases |cancelled|
      {
        ThenStep(universe, first, At(undoing.(cancelled := cancelled)), UndoNext);
        var id := cancelled[0];
        if id < |tickets| && tickets[id].tag !in retiring {
          var tag, node := tickets[id].tag, tickets[id].node;
          alive := alive + {|tickets|};
          retiring := retiring[tag := |tickets|];
          tickets := tickets + [Ticket(tag, node, false)];
        }
        cancelled := cancelled[1..];
      }
      ThenStep(universe, first, At(undoing.(cancelled := [])), UndoNext);
    }

    // One dropped outbound gets a ticket and a goroutine.
    method Retire(tag: Tag, previous: map<string, Live>)
      requires forall j, k :: j in previous && k in previous && previous[j].tag == previous[k].tag ==> j == k
      modifies this
      ensures forall a :: At(a) == RetireOne(old(At(a)), previous, tag)
      ensures tag in old(retiring) && old(retiring)[tag] < |old(tickets)| ==> tickets[old(retiring)[tag]].stopped
      ensures |tickets| == |old(tickets)| + 1 && !tickets[|old(tickets)|].stopped && tickets[|old(tickets)|].tag == tag
      ensures retiring == old(retiring)[tag := |old(tickets)|] && alive == old(alive) + {|old(tickets)|}
    {
      var node := FindNode(previous, tag);
      assert node == NodeWithTag(previous, tag);
      if tag in retiring && retiring[tag] < |tickets| {
        tickets := Stopped(tickets, retiring[tag]);
      }
      alive := alive + {|tickets|};
      retiring := retiring[tag := |tickets|];
      tickets := tickets + [Ticket(tag, node, false)];
    }

    // After a commit: the new members are published and each dropped outbound gets a ticket and a goroutine.
    method PublishMembers(next: map<string, Live>, previous: map<string, Live>, retired: seq<Tag>, ghost a: Apply)
      requires a.On? && a.stage == Publishing(retired) && a.next == next && a.previous == previous
      requires forall j, k :: j in previous && k in previous && previous[j].tag == previous[k].tag ==> j == k
      modifies this
      ensures At(Off) == Publish(old(At(a)))
    {
      hide Steps, RetireOne;
      ghost var start := At(a).(members := next);
      members := next;
      for n := 0 to |retired|
        invariant At(a) == RetireAll(start, previous, retired[..n])
      {
        var tag := retired[n];
        assert retired[..n + 1][..n] == retired[..n];
        Retire(tag, previous);
      }
      assert retired[..|retired|] == retired;
    }

    /** applyGroupRuntimeIncremental: the desired nodes become the members, or nothing the members use has changed. An
        update that matches no node is refused. */
    method ApplyIncremental(ghost universe: set<Node>, desired: seq<Node>, outcomes: seq<Outcome>, commits: bool)
        returns (committed: bool)
      requires Coherent(universe) && Inv(universe, At(Off))
      requires DistinctKeys(desired) && forall i :: 0 <= i < |desired| ==> desired[i] in universe
      requires |outcomes| == |desired|
      modifies this
      ensures Steps(universe, old(At(Off)), At(Off)) && Inv(universe, At(Off))
      ensures committed ==> desired != [] && MembersAre(members, desired)
      ensures !committed ==> members == old(members) && topology == old(topology)
    {
      hide Steps, Inv, Coherent, MembersAre;
      ghost var first := At(Off);
      StepsNone(universe, first);
      if desired == [] {
        return false;
      }
      ThenStep(universe, first, first, BeginApply(desired));
      var previous, seen := members, retiring;
      var next, specs, created, cancelled := map[], [], [], [];
      var i, ok := 0, true;
      while i < |desired| && ok
        invariant 0 <= i <= |desired|
        invariant members == old(members) && topology == old(topology)
        invariant Steps(universe, first, At(On(desired, i, previous, seen, next, specs, created, cancelled,
                                               if ok then Choosing else Cleaning)))
        decreases |desired| - i, ok
      {
        ok, next, specs, created, cancelled :=
          TakeNode(universe, desired, i, previous, seen, next, specs, created, cancelled, outcomes[i], first);
        if ok {
          i := i + 1;
        }
      }
      ghost var a := On(desired, i, previous, seen, next, specs, created, cancelled, if ok then Choosing else Cleaning);
      committed := false;
      if ok {
        ThenStep(universe, first, At(a), ChooseNext);
        a := a.(stage := Deciding);
        ThenStep(universe, first, At(a), DecideNext(commits));
        if commits && Resolves(specs, outbounds) {
          var retired := Without(topology, specs);
          topology := specs;
          a := a.(stage := Publishing(retired));
          StepsKeepInv(universe, first, At(a));
          NextIsDesired(universe, At(a));
          UniqueTags(universe, At(a));
          ThenStep(universe, first, At(a), PublishNext);
          ghost var publishing := At(a);
          PublishMembers(next, previous, retired, a);
          PublishSameOutbounds(universe, publishing);
          committed := true;
        } else {
          a := a.(stage := Cleaning);
        }
      }
      if !committed {
        RollBack(universe, a, created, cancelled, first);
      }
      StepsKeepInv(universe, first, At(Off));
    }
  }

  lemma UniqueTags(universe: set<Node>, s: State)
    requires Coherent(universe) && Inv(universe, s) && s.apply.On?
    ensures var previous := s.apply.previous;
            forall j, k :: j in previous && k in previous && previous[j].tag == previous[k].tag ==> j == k
  {
  }
}
