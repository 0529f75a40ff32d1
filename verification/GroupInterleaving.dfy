/** Two operations on one node at the same time.  An eviction sets the node's mark and visits every group under that
    group's lock, a recovery or a restore removes the mark and visits them too, so their critical sections interleave;
    elsewhere in this project each operation is one step. */
module GroupInterleaving {
  import opened GroupMember
  import opened GroupWorld

  /** One critical section: the eviction in a group, the recovery in a group, or a change of the mark. */
  datatype Visit = EvictIn(g: int) | FreeIn(g: int) | Mark | Unmark

  // The group where an operation begins is changed by the report itself.
  ghost predicate Begins(w: World, w': World, g: int, n: int, evicts: bool) {
    exists t: Tag, out: Outcome ::
      && Holds(w, g, t) && w.groups[g].members[t].nodeId == n == out.member.nodeId
      && w' == Origin(w, g, t, out)
      && if evicts then out.effect.Evicted? && out.member.evicted else out.effect.Readmitted? && !out.member.evicted
  }

  ghost predicate Visits(w: World, w': World, n: int, s: Source, scope: Scope, v: Visit) {
    match v
    case EvictIn(g) => g in w.groups && (Begins(w, w', g, n, true) || exists hit :: GroupStruck(w, w', g, n, s, hit))
    case FreeIn(g) => g in w.groups && (Begins(w, w', g, n, false) || exists hit :: GroupFreed(w, w', g, n, scope, hit))
    case Mark => w' == w.(marks := w.marks + {n})
    case Unmark => w' == w.(marks := w.marks - {n})
  }

  /** The critical sections of one eviction and one recovery (automatic or manual, by `scope`) of node `n`, in any
      order: each visits every group once and changes the mark once. */
  ghost predicate Interleaved(ws: seq<World>, vs: seq<Visit>, n: int, s: Source, scope: Scope) {
    && |ws| == |vs| + 1 && Shape(ws[0])
    && (forall i :: 0 <= i < |vs| ==> Visits(ws[i], ws[i + 1], n, s, scope, vs[i]))
    && (forall g :: g in ws[0].groups ==> EvictIn(g) in vs && FreeIn(g) in vs)
    && Mark in vs && Unmark in vs
    && (forall i, j :: 0 <= i < j < |vs| ==> vs[i] != vs[j])
  }

  // Group `g` holds node `n` under tag `t`, and under no other.
  ghost predicate HoldsAs(w: World, g: int, n: int, t: Tag) {
    Holds(w, g, t) && w.groups[g].members[t].nodeId == n && OneTagPerNode(w.groups[g].members)
  }

  /** Of two critical sections, the one that comes last in the first `k`. */
  predicate LastIs(vs: seq<Visit>, v: Visit, other: Visit, k: nat)
    requires k <= |vs|
  {
    k > 0 && (vs[k - 1] == v || (vs[k - 1] != other && LastIs(vs, v, other, k - 1)))
  }

  lemma VisitHolds(w: World, w': World, n: int, s: Source, scope: Scope, v: Visit, g: int, t: Tag)
    requires Visits(w, w', n, s, scope, v) && HoldsAs(w, g, n, t)
    ensures HoldsAs(w', g, n, t)
    ensures w'.groups[g].members[t].evicted ==
            if v == EvictIn(g) then true else if v == FreeIn(g) then false else w.groups[g].members[t].evicted
    ensures n in w'.marks <==> v.Mark? || (n in w.marks && !v.Unmark?)
  {
    hide RuntimeShape;
    match v
    case EvictIn(h) => EvictHolds(w, w', n, s, h, g, t);
    case FreeIn(h) => FreeHolds(w, w', n, scope, h, g, t);
    case _ =>
  }

  lemma EvictHolds(w: World, w': World, n: int, s: Source, h: int, g: int, t: Tag)
    requires h in w.groups && HoldsAs(w, g, n, t)
    requires Begins(w, w', h, n, true) || exists hit :: GroupStruck(w, w', h, n, s, hit)
    ensures HoldsAs(w', g, n, t) && w'.marks == w.marks
    ensures w'.groups[g].members[t].evicted == (h == g || w.groups[g].members[t].evicted)
  {
    if !Begins(w, w', h, n, true) {
      var hit :| GroupStruck(w, w', h, n, s, hit);
      assert h == g && hit.None? ==> !Struck(w.groups[g].members[t], map[n := s]);
    }
  }

  lemma FreeHolds(w: World, w': World, n: int, scope: Scope, h: int, g: int, t: Tag)
    requires h in w.groups && HoldsAs(w, g, n, t)
    requires Begins(w, w', h, n, false) || exists hit :: GroupFreed(w, w', h, n, scope, hit)
    ensures HoldsAs(w', g, n, t) && w'.marks == w.marks
    ensures w'.groups[g].members[t].evicted == (h != g && w.groups[g].members[t].evicted)
  {
    if !Begins(w, w', h, n, false) {
      var hit :| GroupFreed(w, w', h, n, scope, hit);
      assert h == g && hit.None? ==> !Freed(w.groups[g].members[t], n, scope);
    }
  }

  lemma {:induction false} FollowsLastVisit(ws: seq<World>, vs: seq<Visit>, n: int, s: Source, scope: Scope,
                                            g: int, t: Tag, k: nat)
    requires Interleaved(ws, vs, n, s, scope) && HoldsAs(ws[0], g, n, t) && k <= |vs|
    ensures HoldsAs(ws[k], g, n, t)
    ensures EvictIn(g) in vs[..k] || FreeIn(g) in vs[..k] ==>
              (ws[k].groups[g].members[t].evicted <==> LastIs(vs, EvictIn(g), FreeIn(g), k))
  {
    hide Visits, HoldsAs;
    if k > 0 {
      FollowsLastVisit(ws, vs, n, s, scope, g, t, k - 1);
      assert Visits(ws[k - 1], ws[k - 1 + 1], n, s, scope, vs[k - 1]);
      VisitHolds(ws[k - 1], ws[k], n, s, scope, vs[k - 1], g, t);
      assert vs[..k] == vs[..k - 1] + [vs[k - 1]];
    }
  }

  lemma {:induction false} MarkFollowsLast(ws: seq<World>, vs: seq<Visit>, n: int, s: Source, scope: Scope, k: nat)
    requires Interleaved(ws, vs, n, s, scope) && k <= |vs|
    ensures Mark in vs[..k] || Unmark in vs[..k] ==> (n in ws[k].marks <==> LastIs(vs, Mark, Unmark, k))
  {
    hide Visits;
    if k > 0 {
      MarkFollowsLast(ws, vs, n, s, scope, k - 1);
      assert Visits(ws[k - 1], ws[k - 1 + 1], n, s, scope, vs[k - 1]);
      MarkMoves(ws[k - 1], ws[k], n, s, scope, vs[k - 1]);
      assert vs[..k] == vs[..k - 1] + [vs[k - 1]];
    }
  }

  lemma MarkMoves(w: World, w': World, n: int, s: Source, scope: Scope, v: Visit)
    requires Visits(w, w', n, s, scope, v)
    ensures n in w'.marks <==> v.Mark? || (n in w.marks && !v.Unmark?)
  {
  }

  // With one of each, the last is the one at the later place.
  lemma {:induction false} LastIsLater(vs: seq<Visit>, i: nat, j: nat, k: nat)
    requires i < k && j < k <= |vs| && i != j
    requires forall a, b :: 0 <= a < b < |vs| ==> vs[a] != vs[b]
    ensures LastIs(vs, vs[i], vs[j], k) <==> j < i
  {
    if k - 1 != i && k - 1 != j {
      LastIsLater(vs, i, j, k - 1);
    }
  }

  // Every group agrees with the mark about the node.
  ghost predicate AgreesAbout(w: World, n: int) {
    forall g, t :: HoldsAs(w, g, n, t) ==> (w.groups[g].members[t].evicted <==> n in w.marks)
  }

  // `a` comes before `b`.
  ghost predicate Before(vs: seq<Visit>, a: Visit, b: Visit) {
    exists i, j :: 0 <= i < j < |vs| && vs[i] == a && vs[j] == b
  }

  // In every group that holds the node the two operations come in the order in which they change the mark.
  ghost predicate SameOrderEverywhere(w: World, vs: seq<Visit>, n: int) {
    forall g, t :: HoldsAs(w, g, n, t) ==> (Before(vs, EvictIn(g), FreeIn(g)) <==> Before(vs, Mark, Unmark))
  }

  lemma OrderedByPlace(vs: seq<Visit>, a: Visit, b: Visit)
    requires a in vs && b in vs && a != b && forall i, j :: 0 <= i < j < |vs| ==> vs[i] != vs[j]
    ensures LastIs(vs, a, b, |vs|) <==> !Before(vs, a, b)
  {
    var i :| 0 <= i < |vs| && vs[i] == a;
    var j :| 0 <= j < |vs| && vs[j] == b;
    LastIsLater(vs, i, j, |vs|);
  }

  /** The groups agree in the end if and only if the two operations come in the same order everywhere: in each group
      that holds the node as in the mark. A recovery that overtakes a running propagation leaves the groups evicted that
      the propagation visits after it, with no mark to say so; a mark set after its removal stays on a node nobody holds
      evicted. */
  lemma InterleavedAgreesIff(ws: seq<World>, vs: seq<Visit>, n: int, s: Source, scope: Scope)
    requires Interleaved(ws, vs, n, s, scope)
    ensures AgreesAbout(ws[|vs|], n) <==> SameOrderEverywhere(ws[0], vs, n)
  {
    hide Visits, HoldsAs, Shape, LastIs, Before;
    var w := ws[|vs|];
    assert vs[..|vs|] == vs;
    MarkFollowsLast(ws, vs, n, s, scope, |vs|);
    OrderedByPlace(vs, Mark, Unmark);
    forall g, t ensures HoldsAs(ws[0], g, n, t) <==> HoldsAs(w, g, n, t) {
      HoldersStay(ws, vs, n, s, scope, g, t, |vs|);
    }
    forall g, t | HoldsAs(ws[0], g, n, t)
      ensures Holds(w, g, t) && (w.groups[g].members[t].evicted <==> !Before(vs, EvictIn(g), FreeIn(g)))
    {
      HolderIn(ws[0], g, n, t);
      FollowsLastVisit(ws, vs, n, s, scope, g, t, |vs|);
      HolderIn(w, g, n, t);
      OrderedByPlace(vs, EvictIn(g), FreeIn(g));
    }
  }

  lemma HolderIn(w: World, g: int, n: int, t: Tag)
    requires HoldsAs(w, g, n, t)
    ensures g in w.groups && Holds(w, g, t)
  {
  }

  lemma {:induction false} HoldersStay(ws: seq<World>, vs: seq<Visit>, n: int, s: Source, scope: Scope, g: int,
                                       t: Tag, k: nat)
    requires Interleaved(ws, vs, n, s, scope) && k <= |vs|
    ensures HoldsAs(ws[0], g, n, t) <==> HoldsAs(ws[k], g, n, t)
  {
    hide Visits, HoldsAs;
    if k > 0 {
      HoldersStay(ws, vs, n, s, scope, g, t, k - 1);
      assert Visits(ws[k - 1], ws[k - 1 + 1], n, s, scope, vs[k - 1]);
      VisitKeepsHolders(ws[k - 1], ws[k], n, s, scope, vs[k - 1], g, t);
    }
  }

  lemma VisitKeepsHolders(w: World, w': World, n: int, s: Source, scope: Scope, v: Visit, g: int, t: Tag)
    requires Visits(w, w', n, s, scope, v)
    ensures HoldsAs(w, g, n, t) <==> HoldsAs(w', g, n, t)
  {
    VisitKeepsNodes(w, w', n, s, scope, v, g);
    hide Visits;
    if g in w.groups {
      var a, b := w.groups[g].members, w'.groups[g].members;
      assert forall u :: u in a ==> a[u].nodeId == b[u].nodeId;
      assert OneTagPerNode(a) <==> OneTagPerNode(b) by {
        assert forall u, x :: u in a && x in a ==> (a[u].nodeId == a[x].nodeId <==> b[u].nodeId == b[x].nodeId);
      }
    }
  }

  lemma VisitKeepsNodes(w: World, w': World, n: int, s: Source, scope: Scope, v: Visit, g: int)
    requires Visits(w, w', n, s, scope, v)
    ensures g in w'.groups <==> g in w.groups
    ensures g in w.groups ==>
              w'.groups[g].members.Keys == w.groups[g].members.Keys
              && forall u :: u in w.groups[g].members ==>
                 w'.groups[g].members[u].nodeId == w.groups[g].members[u].nodeId
  {
  }
}
