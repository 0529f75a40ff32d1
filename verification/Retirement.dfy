/** Changing a group's members while outbounds of earlier members are still draining.

    One apply at a time builds the next member set under the group's gate. Every retired outbound has a drain
    goroutine that removes it once its connections are gone. An apply may take a retiring outbound back, and
    must undo that when it fails. The model interleaves the critical sections of the apply with those of all
    drain goroutines. */
module Retirement {
  import opened Basics

  type Tag = string

  /** A configured node: its runtime key, the tag it gets in this generation (None when it has none) and its URI. */
  datatype Node = Node(key: string, tag: Option<Tag>, uri: string)

  datatype Live = Live(tag: Tag, node: Node)

  /** A retirement: the outbound it claims, the member it was, and whether its goroutine was told to stop. */
  datatype Ticket = Ticket(tag: Tag, node: Option<Node>, stopped: bool)

  datatype Stage = Choosing | Creating(tag: Tag) | Deciding | Publishing(retired: seq<Tag>) | Cleaning | Undoing

  datatype Apply =
    | Off
    | On(desired: seq<Node>, i: nat, previous: map<string, Live>, seen: map<Tag, nat>, next: map<string, Live>,
         specs: seq<Tag>, created: seq<Tag>, cancelled: seq<nat>, stage: Stage)

  /** The registered outbounds (each tag with the object behind it), the tags the pool publishes, the slot's members
      and retirements, and the tickets issued so far with the goroutines still running. */
  datatype State = State(outbounds: map<Tag, nat>, made: nat, topology: seq<Tag>, members: map<string, Live>,
                         retiring: map<Tag, nat>, tickets: seq<Ticket>, alive: set<nat>, apply: Apply)

  // -------------------------------------------------------------------------------------------
  // The apply
  // -------------------------------------------------------------------------------------------

  function Begin(s: State, desired: seq<Node>): State {
    s.(apply := On(desired, 0, s.members, s.retiring, map[], [], [], [], Choosing))
  }

  function Stopped(tickets: seq<Ticket>, id: nat): seq<Ticket>
    requires id < |tickets|
  {
    tickets[id := tickets[id].(stopped := true)]
  }

  // The member is taken into the next set under a tag that is already registered.
  function Keep(a: Apply, live: Live): (r: Apply)
    requires a.On? && a.i < |a.desired|
    ensures r.On? && r.seen == a.seen
  {
    a.(next := a.next[a.desired[a.i].key := live], specs := a.specs + [live.tag], i := a.i + 1)
  }

  predicate Retained(a: Apply, node: Node)
    requires a.On?
  {
    node.key in a.previous && a.previous[node.key].node.uri == node.uri
  }

  // A retirement seen at the start claims this tag for the same endpoint.
  predicate Reusable(s: State, node: Node)
    requires s.apply.On? && node.tag.Some?
  {
    var tag := node.tag.value;
    tag in s.apply.seen && s.apply.seen[tag] < |s.tickets|
    && s.tickets[s.apply.seen[tag]].node.Some? && s.tickets[s.apply.seen[tag]].node.value.uri == node.uri
  }

  /** The next desired node: kept, refused, taken back from retirement, or to be created. */
  function Choose(s: State): State
    requires s.apply.On? && s.apply.stage == Choosing
  {
    var a := s.apply;
    if a.i >= |a.desired| then s.(apply := a.(stage := Deciding))
    else
      var node := a.desired[a.i];
      if Retained(a, node) then s.(apply := Keep(a, a.previous[node.key].(node := node)))
      else if node.tag.None? || node.tag.value in a.specs then s.(apply := a.(stage := Cleaning))
      else
        var tag := node.tag.value;
        if Reusable(s, node) && tag in s.retiring && s.retiring[tag] == a.seen[tag] then
          var t := s.(tickets := Stopped(s.tickets, a.seen[tag]));
          if tag in s.outbounds then
            t.(retiring := s.retiring - {tag},
               apply := Keep(a, Live(tag, node)).(cancelled := a.cancelled + [a.seen[tag]]))
          else t.(apply := a.(stage := Creating(tag)))
        else s.(apply := a.(stage := Creating(tag)))
  }

  // Building can fail; creating can fail before or after the outbound was registered.
  datatype Outcome = Made | NotMade | MadeAndRemoved

  function Create(s: State, o: Outcome): State
    requires s.apply.On? && s.apply.stage.Creating? && s.apply.i < |s.apply.desired|
  {
    var a, tag := s.apply, s.apply.stage.tag;
    match o
    case Made =>
      s.(outbounds := s.outbounds[tag := s.made], made := s.made + 1,
         apply := Keep(a, Live(tag, a.desired[a.i])).(created := a.created + [tag], stage := Choosing))
    case NotMade => s.(apply := a.(stage := Cleaning))
    case MadeAndRemoved => s.(outbounds := s.outbounds - {tag}, apply := a.(stage := Cleaning))
  }

  function Without(tags: seq<Tag>, dropped: seq<Tag>): seq<Tag> {
    if tags == [] then []
    else
      var before := Without(tags[..|tags| - 1], dropped);
      if tags[|tags| - 1] in dropped then before else before + [tags[|tags| - 1]]
  }

  predicate Resolves(specs: seq<Tag>, outbounds: map<Tag, nat>) {
    (forall i :: 0 <= i < |specs| ==> specs[i] != "" && specs[i] in outbounds)
    && (forall i, j :: 0 <= i < j < |specs| ==> specs[i] != specs[j])
  }

  /** Preparing and committing the pool's update: it can fail, and must when a tag is missing or repeated. */
  function Decide(s: State, ok: bool): State
    requires s.apply.On? && s.apply.stage == Deciding
  {
    var a := s.apply;
    if ok && Resolves(a.specs, s.outbounds) then
      s.(topology := a.specs, apply := a.(stage := Publishing(Without(s.topology, a.specs))))
    else s.(apply := a.(stage := Cleaning))
  }

  // The member that held a tag before the apply.
  ghost function NodeWithTag(members: map<string, Live>, tag: Tag): Option<Node> {
    if exists k :: k in members && members[k].tag == tag then
      var k :| k in members && members[k].tag == tag;
      Some(members[k].node)
    else None
  }

  // Issues a ticket for a tag and starts its goroutine.
  function Issue(s: State, tag: Tag, node: Option<Node>): State {
    s.(tickets := s.tickets + [Ticket(tag, node, false)], retiring := s.retiring[tag := |s.tickets|],
       alive := s.alive + {|s.tickets|})
  }

  ghost function RetireOne(s: State, previous: map<string, Live>, tag: Tag): State {
    var t := if tag in s.retiring && s.retiring[tag] < |s.tickets| then
        s.(tickets := Stopped(s.tickets, s.retiring[tag])) else s;
    Issue(t, tag, NodeWithTag(previous, tag))
  }

  ghost function RetireAll(s: State, previous: map<string, Live>, tags: seq<Tag>): State {
    if tags == [] then s else RetireOne(RetireAll(s, previous, tags[..|tags| - 1]), previous, tags[|tags| - 1])
  }

  /** The committed set becomes the slot's members, and what the pool dropped starts to drain. */
  ghost function Publish(s: State): State
    requires s.apply.On? && s.apply.stage.Publishing?
  {
    RetireAll(s.(members := s.apply.next), s.apply.previous, s.apply.stage.retired).(apply := Off)
  }

  /** After a failure: outbounds created so far are removed, last first. */
  function CleanUp(s: State): State
    requires s.apply.On? && s.apply.stage == Cleaning
  {
    var created := s.apply.created;
    if created == [] then s.(apply := s.apply.(stage := Undoing))
    else s.(outbounds := s.outbounds - {created[|created| - 1]}, apply := s.apply.(created := created[..|created| - 1]))
  }

  /** After a failure: each retirement taken back is issued again, first one first. */
  function Undo(s: State): State
    requires s.apply.On? && s.apply.stage == Undoing
  {
    var cancelled := s.apply.cancelled;
    if cancelled == [] then s.(apply := Off)
    else
      var t := s.(apply := s.apply.(cancelled := cancelled[1..]));
      if cancelled[0] < |s.tickets| && s.tickets[cancelled[0]].tag !in s.retiring then
        Issue(t, s.tickets[cancelled[0]].tag, s.tickets[cancelled[0]].node)
      else t
  }

  // -------------------------------------------------------------------------------------------
  // The drain goroutines and the whole protocol
  // -------------------------------------------------------------------------------------------

  /** A drained goroutine's last critical section: it removes the outbound only if its ticket still holds the claim and
      was not told to stop. */
  function Finish(s: State, id: nat): State
    requires id < |s.tickets|
  {
    var tag := s.tickets[id].tag;
    var t := s.(alive := s.alive - {id});
    if tag !in s.retiring || s.retiring[tag] != id then t
    else if s.tickets[id].stopped then t.(retiring := s.retiring - {tag})
    else t.(outbounds := s.outbounds - {tag}, retiring := s.retiring - {tag})
  }

  // Stopping every retirement when the group's box goes away.
  function StopAll(tickets: seq<Ticket>, retiring: map<Tag, nat>): seq<Ticket> {
    seq(|tickets|, i requires 0 <= i < |tickets| =>
      if i in retiring.Values then tickets[i].(stopped := true) else tickets[i])
  }

  datatype Action =
    | BeginApply(desired: seq<Node>)
    | ChooseNext
    | CreateNext(outcome: Outcome)
    | DecideNext(ok: bool)
    | PublishNext
    | CleanUpNext
    | UndoNext
    | GiveUp(id: nat)
    | FinishDrain(id: nat)
    | TearDown

  /** Within a generation a tag stands for one node and one endpoint. */
  ghost predicate Coherent(universe: set<Node>) {
    forall a, b :: a in universe && b in universe ==>
      (a.tag.Some? && a.tag == b.tag ==> a.key == b.key && a.uri == b.uri)
      && (a.key == b.key && a.uri == b.uri ==> a.tag == b.tag)
  }

  predicate DistinctKeys(desired: seq<Node>) {
    forall i, j :: 0 <= i < j < |desired| ==> desired[i].key != desired[j].key
  }

  ghost predicate Enabled(universe: set<Node>, s: State, a: Action) {
    match a
    case BeginApply(desired) =>
      s.apply.Off? && desired != [] && DistinctKeys(desired) && forall i :: 0 <= i < |desired| ==>
          desired[i] in universe
    case ChooseNext => s.apply.On? && s.apply.stage == Choosing
    case CreateNext(_) => s.apply.On? && s.apply.stage.Creating? && s.apply.i < |s.apply.desired|
    case DecideNext(_) => s.apply.On? && s.apply.stage == Deciding
    case PublishNext => s.apply.On? && s.apply.stage.Publishing?
    case CleanUpNext => s.apply.On? && s.apply.stage == Cleaning
    case UndoNext => s.apply.On? && s.apply.stage == Undoing
    case GiveUp(id) => id in s.alive && id < |s.tickets| && s.tickets[id].stopped
    case FinishDrain(id) => id in s.alive && id < |s.tickets|
    case TearDown => s.apply.Off?
  }

  ghost function Next(universe: set<Node>, s: State, a: Action): State
    requires Enabled(universe, s, a)
  {
    match a
    case BeginApply(desired) => Begin(s, desired)
    case ChooseNext => Choose(s)
    case CreateNext(outcome) => Create(s, outcome)
    case DecideNext(ok) => Decide(s, ok)
    case PublishNext => Publish(s)
    case CleanUpNext => CleanUp(s)
    case UndoNext => Undo(s)
    case GiveUp(id) => s.(alive := s.alive - {id})
    case FinishDrain(id) => Finish(s, id)
    case TearDown =>
      s.(outbounds := map[], topology := [], members := map[], retiring := map[],
          tickets := StopAll(s.tickets, s.retiring))
  }
}
