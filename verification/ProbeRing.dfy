/** The replay window of one group member: the health probe IDs applied last, at most 64 of them.

    The health journal is delivered at least once, so the member must recognise a measurement that was
    applied before.  The ring is related here to the whole log of accepted probes. */
module ProbeRing {

  const RING_SIZE := 64

  type ProbeId = string

  /** The last `n` elements of a log. */
  function Latest<T>(log: seq<T>, n: nat): seq<T> {
    if |log| <= n then log else log[|log| - n..]
  }

  /** The ring after one offered probe: unchanged for a replay or an anonymous probe. */
  function Offer(ring: seq<ProbeId>, probe: ProbeId): seq<ProbeId> {
    if probe == "" || probe in ring then ring else Latest(ring, RING_SIZE - 1) + [probe]
  }

  predicate NoDuplicates<T(==)>(s: seq<T>) {
    forall i, j :: 0 <= i < j < |s| ==> s[i] != s[j]
  }

  predicate ValidRing(ring: seq<ProbeId>) {
    |ring| <= RING_SIZE && NoDuplicates(ring) && "" !in ring
  }

  class Ring {
    var applied: seq<ProbeId>

    constructor ()
      ensures applied == []
    {
      applied := [];
    }

    /** Reports whether the probe was already applied and records it when it is new. */
    method AlreadyApplied(probe: ProbeId) returns (replay: bool)
      requires ValidRing(applied)
      modifies this
      ensures ValidRing(applied)
      ensures applied == Offer(old(applied), probe)
      ensures replay <==> probe != "" && probe in old(applied)
    {
      OfferKeepsValid(applied, probe);
      if probe == "" {
        return false;
      }
      for i := 0 to |applied|
        invariant applied == old(applied)
        invariant probe !in applied[..i]
      {
        if applied[i] == probe {
          return true;
        }
      }
      assert applied[..|applied|] == applied;
      if |applied| >= RING_SIZE {
        applied := applied[1..];
      }
      applied := applied + [probe];
      return false;
    }
  }

  lemma OfferKeepsValid(ring: seq<ProbeId>, probe: ProbeId)
    requires ValidRing(ring)
    ensures ValidRing(Offer(ring, probe))
  {
  }

  // -------------------------------------------------------------------------------------------
  // Whole runs of offered probes
  // -------------------------------------------------------------------------------------------

  /** The ring after offering the probes in order to a new member. */
  function RingOf(offers: seq<ProbeId>): seq<ProbeId> {
    if offers == [] then [] else Offer(RingOf(offers[..|offers| - 1]), offers[|offers| - 1])
  }

  /** The log of identified probes that were accepted, replays left out. */
  function Accepted(offers: seq<ProbeId>): seq<ProbeId> {
    if offers == [] then []
    else
      var init, probe := offers[..|offers| - 1], offers[|offers| - 1];
      if probe == "" || probe in RingOf(init) then Accepted(init) else Accepted(init) + [probe]
  }

  /** The ring is exactly the last (at most 64) accepted probes, and they are distinct. */
  lemma {:induction false} RingIsLatestAccepted(offers: seq<ProbeId>)
    ensures ValidRing(RingOf(offers))
    ensures RingOf(offers) == Latest(Accepted(offers), 64)
  {
    if offers != [] {
      var init, probe := offers[..|offers| - 1], offers[|offers| - 1];
      RingIsLatestAccepted(init);
      OfferKeepsValid(RingOf(init), probe);
      var log := Accepted(init);
      if probe != "" && probe !in RingOf(init) {
        assert Latest(Latest(log, RING_SIZE), RING_SIZE - 1) + [probe] == Latest(log + [probe], RING_SIZE);
      }
    }
  }

  /** Re-offering any of the last 64 accepted probes, in any order and any number of times, changes nothing. */
  lemma {:induction false} ReplaysAreNeutral(offers: seq<ProbeId>, replays: seq<ProbeId>)
    requires forall p :: p in replays ==> p in Latest(Accepted(offers), RING_SIZE)
    ensures RingOf(offers + replays) == RingOf(offers)
    ensures Accepted(offers + replays) == Accepted(offers)
  {
    if replays == [] {
      assert offers + replays == offers;
    } else {
      var init, probe := replays[..|replays| - 1], replays[|replays| - 1];
      ReplaysAreNeutral(offers, init);
      RingIsLatestAccepted(offers);
      assert (offers + replays)[..|offers + replays| - 1] == offers + init;
    }
  }

  /** The bound is sharp: the 65th last accepted probe is no longer recognised. */
  lemma OlderProbesAreForgotten(offers: seq<ProbeId>)
    requires |Accepted(offers)| > 64
    requires NoDuplicates(Accepted(offers))
    ensures var log := Accepted(offers);
            var probe := log[|log| - 65];
            Accepted(offers + [probe]) == log + [probe]
  {
    RingIsLatestAccepted(offers);
    AcceptedIdentified(offers);
    var log := Accepted(offers);
    var probe := log[|log| - RING_SIZE - 1];
    assert (offers + [probe])[..|offers|] == offers;
    var ring := RingOf(offers);
    assert forall i :: 0 <= i < |ring| ==> ring[i] == log[|log| - RING_SIZE + i];
    assert probe in log;
  }

  lemma {:induction false} AcceptedIdentified(offers: seq<ProbeId>)
    ensures "" !in Accepted(offers)
  {
    if offers != [] {
      AcceptedIdentified(offers[..|offers| - 1]);
    }
  }
}
