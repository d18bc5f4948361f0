/**
 What a group of replicas looks like from above: one agreed log that only grows at its end, the
 entries on offer for each index, and how far each replica has delivered the agreed log. A
 replica that has delivered j entries can only offer entries for index j.

 ReplicatedLog.dfy proves that the replicas, with one Paxos instance per index and with syncing,
 behave like this.
*/
module AgreedLogs {
  import opened Entries
  import opened Paths

  datatype Offer = Offer(index: nat, entry: Entry)

  datatype AgreedLog = AgreedLog(agreed: seq<Entry>, offers: set<Offer>, seen: seq<nat>)

  // Whether a replica that has delivered a prefix may propose an entry.
  type Guard = (seq<Entry>, Entry) -> bool

  function InitLog(n: nat): AgreedLog {
    AgreedLog([], {}, seq(n, _ => 0))
  }

  ghost predicate Offers(a: AgreedLog, a': AgreedLog, p: nat, e: Entry) {
    p < |a.seen| && a' == a.(offers := a.offers + {Offer(a.seen[p], e)})
  }

  ghost predicate Decides(a: AgreedLog, a': AgreedLog, e: Entry) {
    Offer(|a.agreed|, e) in a.offers && a' == a.(agreed := a.agreed + [e])
  }

  ghost predicate Advances(a: AgreedLog, a': AgreedLog, p: nat, k: nat) {
    p < |a.seen| && a.seen[p] <= k <= |a.agreed| && a' == a.(seen := a.seen[p := k])
  }

  /** Nothing is on offer for the end of the log. */
  ghost predicate IsFresh(a: AgreedLog) {
    forall o :: o in a.offers ==> o.index < |a.agreed|
  }

  /** The log after e was offered for its end, w was decided, and replica l has delivered k entries. */
  function AfterRound(a: AgreedLog, e: Entry, w: Entry, l: nat, k: nat): AgreedLog
    requires l < |a.seen|
  {
    AgreedLog(a.agreed + [w], a.offers + {Offer(|a.agreed|, e)}, a.seen[l := k])
  }

  lemma RoundIsFresh(a: AgreedLog, e: Entry, w: Entry, l: nat, k: nat)
    requires WellFormed(a) && l < |a.seen|
    ensures IsFresh(AfterRound(a, e, w, l, k))
  {
  }

  /** What replica p has delivered. */
  function Prefix(a: AgreedLog, p: nat): seq<Entry>
    requires WellFormed(a) && p < |a.seen|
  {
    a.agreed[..a.seen[p]]
  }

  predicate WellFormed(a: AgreedLog) {
    && (forall p :: 0 <= p < |a.seen| ==> a.seen[p] <= |a.agreed|)
    && (forall o :: o in a.offers ==> o.index <= |a.agreed|)
    && (forall i :: 0 <= i < |a.agreed| ==> Offer(i, a.agreed[i]) in a.offers)
  }

  /** What happens to the log without anyone offering anything. */
  ghost predicate Grows(a: AgreedLog, a': AgreedLog) {
    || a' == a
    || (exists e :: Decides(a, a', e))
    || (exists p, k :: Advances(a, a', p, k))
  }

  ghost predicate Next(guard: Guard, a: AgreedLog, a': AgreedLog) {
    Grows(a, a') || exists p, e :: Offers(a, a', p, e) && WellFormed(a) && guard(Prefix(a, p), e)
  }

  ghost function Steps(guard: Guard): Relation<AgreedLog> {
    (a, a') => Next(guard, a, a')
  }

  /** Every offer was within its guard for the agreed prefix below its index. */
  ghost predicate OffersGuarded(guard: Guard, a: AgreedLog)
    requires WellFormed(a)
  {
    forall o :: o in a.offers ==> guard(a.agreed[..o.index], o.entry)
  }

  /** Every agreed entry is within its guard for the entries before it. */
  ghost predicate Guarded(guard: Guard, entries: seq<Entry>) {
    forall i :: 0 <= i < |entries| ==> guard(entries[..i], entries[i])
  }

  lemma NextKeeps(guard: Guard, a: AgreedLog, a': AgreedLog)
    requires WellFormed(a) && OffersGuarded(guard, a) && Next(guard, a, a')
    ensures WellFormed(a') && OffersGuarded(guard, a')
    ensures a.agreed <= a'.agreed && |a.seen| == |a'.seen|
    ensures forall p :: 0 <= p < |a.seen| ==> Prefix(a, p) <= Prefix(a', p)
  {
    forall o | o in a.offers
      ensures a'.agreed[..o.index] == a.agreed[..o.index]
    {
    }
  }

  /** A guard checked when an entry was proposed holds when it is delivered. */
  lemma AgreedEntriesAreGuarded(guard: Guard, a: AgreedLog)
    requires WellFormed(a) && OffersGuarded(guard, a)
    ensures Guarded(guard, a.agreed)
    ensures forall p :: 0 <= p < |a.seen| ==> Guarded(guard, Prefix(a, p))
  {
    forall i | 0 <= i < |a.agreed|
      ensures guard(a.agreed[..i], a.agreed[i])
    {
      assert Offer(i, a.agreed[i]) in a.offers;
    }
    forall p, i | 0 <= p < |a.seen| && 0 <= i < |Prefix(a, p)|
      ensures guard(Prefix(a, p)[..i], Prefix(a, p)[i])
    {
      assert Prefix(a, p)[..i] == a.agreed[..i];
    }
  }
}
