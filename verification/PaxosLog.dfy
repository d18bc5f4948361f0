/**
 The log of one node: entries at indices, the maintained list of free indices, and the callbacks
 that run, in order, for each entry of the filled prefix. As a value, a log is the map of its
 entries; everything else is a function of that map.
*/
module PaxosLogs {
  import opened Wrappers
  import opened Entries
  import opened FiniteSets

  type Log = map<nat, Entry>

  /** An index keeps the first entry that was written to it. */
  function Filled(log: Log, index: nat, entry: Entry): Log {
    if index in log then log else log[index := entry]
  }

  // ----- The first hole, and the delivered prefix -----

  function HoleFrom(log: Log, i: nat): (h: nat)
    requires forall j :: 0 <= j < i ==> j in log
    ensures h !in log && forall j :: 0 <= j < h ==> j in log
    decreases |log| - i
  {
    SubsetSize(Below(i), log.Keys);
    if i in log then
      SubsetSize(Below(i + 1), log.Keys);
      HoleFrom(log, i + 1)
    else i
  }

  function FirstHole(log: Log): (h: nat)
    ensures h !in log && forall j :: 0 <= j < h ==> j in log
  {
    HoleFrom(log, 0)
  }

  function Delivered(log: Log): (d: seq<Entry>)
    ensures |d| == FirstHole(log)
    ensures forall i :: 0 <= i < |d| ==> i in log && d[i] == log[i]
  {
    seq(FirstHole(log), i requires 0 <= i < FirstHole(log) => log[i])
  }

  lemma FirstHoleIs(log: Log, h: nat)
    requires h !in log && forall j :: 0 <= j < h ==> j in log
    ensures FirstHole(log) == h
  {
  }

  /** Filling an index never takes anything back that was delivered. */
  lemma FillingExtends(log: Log, index: nat, entry: Entry)
    ensures FirstHole(log) <= FirstHole(Filled(log, index, entry))
    ensures Delivered(log) <= Delivered(Filled(log, index, entry))
  {
  }

  // ----- The list of free indices -----

  predicate Ascending(xs: seq<nat>) {
    forall i, j :: 0 <= i < j < |xs| ==> xs[i] < xs[j]
  }

  /** All free indices below the greatest filled one, and the one after it. */
  predicate IsHoleList(log: Log, holes: seq<nat>) {
    && holes != []
    && Ascending(holes)
    && (forall k :: k in holes ==> k !in log)
    && (forall k :: k in log ==> k < holes[|holes| - 1])
    && (forall k :: 0 <= k < holes[|holes| - 1] && k !in log ==> k in holes)
    && (holes[|holes| - 1] > 0 ==> holes[|holes| - 1] - 1 in log)
  }

  lemma InAllButLast(xs: seq<nat>, k: nat)
    requires xs != [] && Ascending(xs)
    ensures k in xs[..|xs| - 1] <==> k in xs && k != xs[|xs| - 1]
  {
  }

  lemma {:induction false} SameAscending(xs: seq<nat>, ys: seq<nat>)
    requires Ascending(xs) && Ascending(ys)
    requires forall k :: k in xs <==> k in ys
    ensures xs == ys
  {
    assert (xs != [] ==> xs[|xs| - 1] in xs) && (ys != [] ==> ys[|ys| - 1] in ys);
    if xs != [] {
      var xs', ys' := xs[..|xs| - 1], ys[..|ys| - 1];
      assert xs[|xs| - 1] == ys[|ys| - 1];
      forall k
        ensures k in xs' <==> k in ys'
      {
        InAllButLast(xs, k);
        InAllButLast(ys, k);
      }
      SameAscending(xs', ys');
      assert xs == xs' + [xs[|xs| - 1]] && ys == ys' + [ys[|ys| - 1]];
    }
  }

  /** The list of free indices is a function of the entries: the order of writing does not matter. */
  lemma HoleListIsUnique(log: Log, xs: seq<nat>, ys: seq<nat>)
    requires IsHoleList(log, xs) && IsHoleList(log, ys)
    ensures xs == ys
  {
    var x, y := xs[|xs| - 1], ys[|ys| - 1];
    assert x in xs && y in ys;
    assert x == y;
    SameAscending(xs, ys);
  }

  lemma FirstFreeIsFirstHole(log: Log, holes: seq<nat>)
    requires IsHoleList(log, holes)
    ensures holes[0] == FirstHole(log)
  {
    assert holes[0] in holes && holes[|holes| - 1] in holes;
    assert forall k :: k in holes ==> holes[0] <= k;
  }

  lemma ListedIffFree(log: Log, holes: seq<nat>, index: nat)
    requires IsHoleList(log, holes)
    ensures index in log <==> index <= holes[|holes| - 1] && index !in holes
  {
    assert holes[|holes| - 1] in holes;
  }

  // ----- Callbacks -----

  datatype Call = Call(callback: nat, index: nat, entry: Entry)

  type Callbacks = map<Kind, seq<nat>>

  function CallsAt(callbacks: Callbacks, index: nat, entry: Entry): seq<Call> {
    if KindOf(entry) in callbacks then
      var cs := callbacks[KindOf(entry)];
      seq(|cs|, i requires 0 <= i < |cs| => Call(cs[i], index, entry))
    else []
  }

  function CallsFor(callbacks: Callbacks, log: Log, lo: nat, hi: nat): seq<Call>
    requires lo <= hi
    requires forall i :: lo <= i < hi ==> i in log
    decreases hi
  {
    if lo == hi then [] else CallsFor(callbacks, log, lo, hi - 1) + CallsAt(callbacks, hi - 1, log[hi - 1])
  }

  lemma {:induction false} CallsCompose(callbacks: Callbacks, log: Log, lo: nat, mid: nat, hi: nat)
    requires lo <= mid <= hi
    requires forall i :: lo <= i < hi ==> i in log
    ensures CallsFor(callbacks, log, lo, hi) == CallsFor(callbacks, log, lo, mid) + CallsFor(callbacks, log, mid, hi)
    decreases hi
  {
    if mid < hi {
      CallsCompose(callbacks, log, lo, mid, hi - 1);
    }
  }

  lemma {:induction false} CallsSameLog(callbacks: Callbacks, log: Log, log': Log, lo: nat, hi: nat)
    requires lo <= hi
    requires forall i :: lo <= i < hi ==> i in log && i in log' && log'[i] == log[i]
    ensures CallsFor(callbacks, log', lo, hi) == CallsFor(callbacks, log, lo, hi)
    decreases hi
  {
    if lo < hi {
      CallsSameLog(callbacks, log, log', lo, hi - 1);
    }
  }

  /** What was delivered before and what a new entry makes deliverable is all there is to deliver. */
  lemma CallsAfterFilling(callbacks: Callbacks, log: Log, index: nat, entry: Entry)
    ensures
      var log' := Filled(log, index, entry);
      && FirstHole(log) <= FirstHole(log')
      && CallsFor(callbacks, log', 0, FirstHole(log')) ==
        CallsFor(callbacks, log, 0, FirstHole(log)) + CallsFor(callbacks, log', FirstHole(log), FirstHole(log'))
  {
    var log' := Filled(log, index, entry);
    FillingExtends(log, index, entry);
    CallsCompose(callbacks, log', 0, FirstHole(log), FirstHole(log'));
    CallsSameLog(callbacks, log, log', 0, FirstHole(log));
  }

  // The registration of a call: the index it is for, and which of the callbacks for that entry's kind it is of.
  datatype Slot = Slot(index: nat, registration: nat)

  predicate Before(x: Slot, y: Slot) {
    x.index < y.index || (x.index == y.index && x.registration < y.registration)
  }

  /** The slot is of an index from lo up to hi, and of a callback registered for the kind of the entry there. */
  predicate IsSlot(callbacks: Callbacks, log: Log, lo: nat, hi: nat, slot: Slot) {
    && lo <= slot.index < hi && slot.index in log
    && KindOf(log[slot.index]) in callbacks
    && slot.registration < |callbacks[KindOf(log[slot.index])]|
  }

  predicate Calls(callbacks: Callbacks, log: Log, slot: Slot, call: Call)
    requires slot.index in log && KindOf(log[slot.index]) in callbacks
    requires slot.registration < |callbacks[KindOf(log[slot.index])]|
  {
    && call.index == slot.index && call.entry == log[slot.index]
    && call.callback == callbacks[KindOf(log[slot.index])][slot.registration]
  }

  /** The calls are exactly one for each slot, by ascending index and in order of registration. */
  ghost predicate IsPass(callbacks: Callbacks, log: Log, lo: nat, hi: nat, calls: seq<Call>, slots: seq<Slot>) {
    && |slots| == |calls|
    && (forall x :: 0 <= x < |slots| ==>
          IsSlot(callbacks, log, lo, hi, slots[x]) && Calls(callbacks, log, slots[x], calls[x]))
    && (forall x, y :: 0 <= x < y < |slots| ==> Before(slots[x], slots[y]))
    && (forall slot :: IsSlot(callbacks, log, lo, hi, slot) ==> slot in slots)
  }

  function SlotsAt(index: nat, count: nat): seq<Slot> {
    seq(count, i requires 0 <= i < count => Slot(index, i))
  }

  lemma CallsAtIsPass(callbacks: Callbacks, log: Log, index: nat) returns (slots: seq<Slot>)
    requires index in log
    ensures IsPass(callbacks, log, index, index + 1, CallsAt(callbacks, index, log[index]), slots)
  {
    var kind := KindOf(log[index]);
    var count := if kind in callbacks then |callbacks[kind]| else 0;
    slots := SlotsAt(index, count);
    forall slot | IsSlot(callbacks, log, index, index + 1, slot)
      ensures slot in slots
    {
      assert slots[slot.registration] == slot;
    }
  }

  lemma PassesJoin(
    callbacks: Callbacks, log: Log, lo: nat, mid: nat, hi: nat, calls: seq<Call>, slots: seq<Slot>,
    calls': seq<Call>, slots': seq<Slot>)
    requires lo <= mid <= hi
    requires IsPass(callbacks, log, lo, mid, calls, slots) && IsPass(callbacks, log, mid, hi, calls', slots')
    ensures IsPass(callbacks, log, lo, hi, calls + calls', slots + slots')
  {
    forall slot | IsSlot(callbacks, log, lo, hi, slot)
      ensures slot in slots + slots'
    {
      assert IsSlot(callbacks, log, lo, mid, slot) || IsSlot(callbacks, log, mid, hi, slot);
    }
  }

  /** Between two indices, each callback is called once for each entry of its kind, in order, and nothing else is. */
  lemma {:induction false} CallsAreExact(callbacks: Callbacks, log: Log, lo: nat, hi: nat) returns (slots: seq<Slot>)
    requires lo <= hi && forall i :: lo <= i < hi ==> i in log
    ensures IsPass(callbacks, log, lo, hi, CallsFor(callbacks, log, lo, hi), slots)
    decreases hi
  {
    if lo == hi {
      slots := [];
    } else {
      var first := CallsAreExact(callbacks, log, lo, hi - 1);
      var last := CallsAtIsPass(callbacks, log, hi - 1);
      slots := first + last;
      PassesJoin(
        callbacks, log, lo, hi - 1, hi, CallsFor(callbacks, log, lo, hi - 1), first,
        CallsAt(callbacks, hi - 1, log[hi - 1]), last);
    }
  }

  /** There is only one such trace of calls. */
  lemma {:induction false} PassIsUnique(
    callbacks: Callbacks, log: Log, lo: nat, hi: nat, calls: seq<Call>, slots: seq<Slot>,
    calls': seq<Call>, slots': seq<Slot>)
    requires IsPass(callbacks, log, lo, hi, calls, slots) && IsPass(callbacks, log, lo, hi, calls', slots')
    ensures calls == calls'
  {
    SameSlots(slots, slots');
  }

  lemma {:induction false} SameSlots(xs: seq<Slot>, ys: seq<Slot>)
    requires forall i, j :: 0 <= i < j < |xs| ==> Before(xs[i], xs[j])
    requires forall i, j :: 0 <= i < j < |ys| ==> Before(ys[i], ys[j])
    requires forall slot :: slot in xs <==> slot in ys
    ensures xs == ys
  {
    assert (xs != [] ==> xs[|xs| - 1] in xs) && (ys != [] ==> ys[|ys| - 1] in ys);
    if xs != [] {
      var xs', ys' := xs[..|xs| - 1], ys[..|ys| - 1];
      assert xs[|xs| - 1] == ys[|ys| - 1];
      assert xs == xs' + [xs[|xs| - 1]] && ys == ys' + [ys[|ys| - 1]];
      forall slot
        ensures slot in xs' <==> slot in ys'
      {
        assert slot in xs' ==> slot != xs[|xs| - 1] && slot in ys;
        assert slot in ys' ==> slot != ys[|ys| - 1] && slot in xs;
      }
      SameSlots(xs', ys');
    }
  }

  /** The calls are one pass over the filled prefix. */
  ghost predicate MadePass(callbacks: Callbacks, log: Log, calls: seq<Call>) {
    exists slots :: IsPass(callbacks, log, 0, FirstHole(log), calls, slots)
  }

  lemma MadePassIff(callbacks: Callbacks, log: Log, calls: seq<Call>)
    ensures MadePass(callbacks, log, calls) <==> calls == CallsFor(callbacks, log, 0, FirstHole(log))
  {
    var h := FirstHole(log);
    var slots := CallsAreExact(callbacks, log, 0, h);
    if slots' :| IsPass(callbacks, log, 0, h, calls, slots') {
      PassIsUnique(callbacks, log, 0, h, calls, slots', CallsFor(callbacks, log, 0, h), slots);
    }
  }

  /** The calls for the entries that come to be in the filled prefix complete the pass. */
  lemma PassGoesOn(callbacks: Callbacks, log: Log, index: nat, entry: Entry, calls: seq<Call>, calls': seq<Call>)
    requires MadePass(callbacks, log, calls)
    requires
      var log' := Filled(log, index, entry);
      && FirstHole(log) <= FirstHole(log')
      && calls' == calls + CallsFor(callbacks, log', FirstHole(log), FirstHole(log'))
    ensures MadePass(callbacks, Filled(log, index, entry), calls')
  {
    MadePassIff(callbacks, log, calls);
    CallsAfterFilling(callbacks, log, index, entry);
    MadePassIff(callbacks, Filled(log, index, entry), calls');
  }

  // ----- The class -----

  class PaxosLog {
    var log: Log
    var available: seq<nat>
    var callbacks: Callbacks
    ghost var calls: seq<Call>  // every callback invocation so far

    ghost predicate Valid()
      reads this
    {
      IsHoleList(log, available)
    }

    // Every registered callback has run exactly once, in order, for exactly the filled prefix.
    ghost predicate InStep()
      reads this
    {
      MadePass(callbacks, log, calls)
    }

    constructor ()
      ensures Valid() && InStep()
      ensures log == map[] && callbacks == map[]
    {
      log, available, callbacks, calls := map[], [0], map[], [];
      new;
      FirstHoleIs(log, 0);
      MadePassIff(callbacks, log, calls);
    }

    method GetEntry(index: nat) returns (entry: Option<Entry>)
      ensures entry == if index in log then Some(log[index]) else None
    {
      if index in log {
        entry := Some(log[index]);
      } else {
        entry := None;
      }
    }

    method AddCallback(kind: Kind, callback: nat)
      requires Valid()
      modifies this`callbacks
      ensures Valid()
      ensures callbacks == old(callbacks)[kind :=
        (if kind in old(callbacks) then old(callbacks)[kind] else []) + [callback]]
      ensures old(InStep()) && FirstHole(log) == 0 ==> InStep()
    {
      if kind !in callbacks {
        callbacks := callbacks[kind := []];
      }
      callbacks := callbacks[kind := callbacks[kind] + [callback]];
      MadePassIff(old(callbacks), log, calls);
      MadePassIff(callbacks, log, calls);
    }

    /** Both assertions of the source hold: the list is never empty, and its first index is free. */
    method NextAvailableIndex() returns (index: nat)
      requires Valid()
      ensures index == FirstHole(log)
    {
      assert |available| > 0;
      assert available[0] in available;
      FirstFreeIsFirstHole(log, available);
      index := available[0];
    }

    method Find(index: nat) returns (pos: nat)
      requires Valid()
      ensures pos <= |available|
      ensures pos < |available| ==> available[pos] == index
      ensures pos == |available| ==> index !in available
    {
      pos := 0;
      while pos < |available| && available[pos] != index
        invariant pos <= |available|
        invariant index !in available[..pos]
      {
        pos := pos + 1;
      }
    }

    /** Takes `index`, which is at `pos` if it is in the list at all, off the list of free indices. */
    method TakeIndex(index: nat, pos: nat)
      requires Valid() && index !in log
      requires pos <= |available|
      requires pos < |available| ==> available[pos] == index
      requires pos == |available| ==> index > available[|available| - 1]
      modifies this`available
      ensures IsHoleList(log[index := Unset], available)
    {
      ghost var before := available;
      var lastIndex := available[|available| - 1];
      if index < lastIndex {
        available := available[..pos] + available[pos + 1..];
      } else if index == lastIndex {
        available := available[..pos] + available[pos + 1..];
        available := available + [index + 1];
      } else {
        var i := lastIndex + 1;
        while i < index
          invariant lastIndex < i <= index
          invariant Ascending(available) && |available| > 0 && available[|available| - 1] == i - 1
          invariant forall k :: k in available <==> k in before || lastIndex < k < i
        {
          available := available + [i];
          i := i + 1;
        }
        available := available + [index + 1];
      }
      HolesAfterFilling(log, before, index, Unset, available);
    }

    method SetEntry(index: nat, entry: Entry)
      requires Valid()
      modifies this`log, this`available, this`calls
      ensures Valid()
      ensures log == Filled(old(log), index, entry)
      ensures FirstHole(old(log)) <= FirstHole(log)
      ensures calls == old(calls) + CallsFor(callbacks, log, FirstHole(old(log)), FirstHole(log))
      ensures old(InStep()) ==> InStep()
    {
      ListedIffFree(log, available, index);
      var lastIndex := available[|available| - 1];
      var pos := Find(index);
      var first := NextAvailableIndex();
      if index <= lastIndex && pos == |available| {
        return;
      }
      TakeIndex(index, pos);
      log := log[index := entry];
      SameHoles(old(log), index, Unset, entry, available);
      FillingExtends(old(log), index, entry);
      Notify(first);
      if old(InStep()) {
        PassGoesOn(callbacks, old(log), index, entry, old(calls), calls);
      }
    }

    /** Calls back for the entries that have come to be in the filled prefix. */
    method Notify(first: nat)
      requires Valid() && first <= FirstHole(log)
      modifies this`calls
      ensures calls == old(calls) + CallsFor(callbacks, log, first, FirstHole(log))
    {
      var next := NextAvailableIndex();
      if first < next {
        RunCallbacks(first, next);
      }
    }

    method RunCallbacks(first: nat, next: nat)
      requires Valid() && first < next
      requires forall i :: first <= i < next ==> i in log
      modifies this`calls
      ensures calls == old(calls) + CallsFor(callbacks, log, first, next)
    {
      for i := first to next
        invariant calls == old(calls) + CallsFor(callbacks, log, first, i)
      {
        ghost var sofar := calls;
        var kind := KindOf(log[i]);
        if kind in callbacks {
          for c := 0 to |callbacks[kind]|
            invariant calls == sofar + CallsAt(callbacks, i, log[i])[..c]
          {
            calls := calls + [Call(callbacks[kind][c], i, log[i])];
          }
        }
      }
    }
  }

  /** The two cases of set_entry leave the list of free indices right. */
  lemma HolesAfterFilling(log: Log, holes: seq<nat>, index: nat, entry: Entry, holes': seq<nat>)
    requires IsHoleList(log, holes) && index !in log && Ascending(holes')
    requires
      var last := holes[|holes| - 1];
      if index < last then forall k :: k in holes' <==> k in holes && k != index
      else forall k :: k in holes' <==> (k in holes && k != index) || last < k < index || k == index + 1
    ensures IsHoleList(log[index := entry], holes')
  {
    var last := holes[|holes| - 1];
    var log' := log[index := entry];
    assert last in holes;
    var last' := if index < last then last else index + 1;
    assert last' in holes';
    var i :| 0 <= i < |holes'| && holes'[i] == last';
    assert forall k :: k in holes' ==> k <= last';
    assert holes'[|holes'| - 1] in holes';
  }

  lemma SameHoles(log: Log, index: nat, e: Entry, e': Entry, holes: seq<nat>)
    requires IsHoleList(log[index := e], holes)
    ensures IsHoleList(log[index := e'], holes)
  {
    assert log[index := e].Keys == log[index := e'].Keys;
  }
}
