/**
 Catching up: a node sends the list of its free indices, run-length compressed, to the others;
 they answer with the entries it lacks; it writes those into its log.
*/
module LogSyncer {
  import opened Entries
  import opened PaxosLogs

  // Both ends are inclusive.
  datatype IndexRun = IndexRun(start: nat, end: nat)

  datatype SyncRequest = SyncRequest(missing: seq<IndexRun>, lastIndex: nat)

  datatype IndexedEntry = IndexedEntry(index: nat, entry: Entry)

  // ----- Run-length compression -----

  function From(start: nat, end: nat): seq<nat>
    requires start <= end
  {
    seq(end + 1 - start, i requires 0 <= i < end + 1 - start => start + i)
  }

  lemma InFrom(start: nat, end: nat)
    requires start <= end
    ensures forall k :: k in From(start, end) <==> start <= k <= end
  {
    forall k | start <= k <= end
      ensures k in From(start, end)
    {
      assert From(start, end)[k - start] == k;
    }
  }

  function Expand(runs: seq<IndexRun>): seq<nat> {
    if runs == [] then []
    else
      var last := runs[|runs| - 1];
      Expand(runs[..|runs| - 1]) + if last.start <= last.end then From(last.start, last.end) else []
  }

  /** No run is empty, and no two neighbours could be one run. */
  predicate Maximal(runs: seq<IndexRun>) {
    && (forall i :: 0 <= i < |runs| ==> runs[i].start <= runs[i].end)
    && (forall i :: 0 < i < |runs| ==> runs[i - 1].end + 1 != runs[i].start)
  }

  lemma ExpandAppend(runs: seq<IndexRun>, run: IndexRun)
    requires run.start <= run.end
    ensures Expand(runs + [run]) == Expand(runs) + From(run.start, run.end)
  {
    assert (runs + [run])[..|runs|] == runs;
  }

  lemma GrowRun(runs: seq<IndexRun>, cur: IndexRun)
    requires Maximal(runs + [cur])
    ensures Maximal(runs + [cur.(end := cur.end + 1)])
    ensures Expand(runs + [cur.(end := cur.end + 1)]) == Expand(runs + [cur]) + [cur.end + 1]
  {
    var before, after := runs + [cur], runs + [cur.(end := cur.end + 1)];
    assert forall i :: 0 <= i < |runs| ==> after[i] == before[i];
    assert before[|runs|] == cur;
    ExpandAppend(runs, cur);
    ExpandAppend(runs, cur.(end := cur.end + 1));
    assert From(cur.start, cur.end + 1) == From(cur.start, cur.end) + [cur.end + 1];
  }

  lemma StartRun(runs: seq<IndexRun>, cur: IndexRun, x: nat)
    requires Maximal(runs + [cur]) && x != cur.end + 1
    ensures Maximal(runs + [cur] + [IndexRun(x, x)])
    ensures Expand(runs + [cur] + [IndexRun(x, x)]) == Expand(runs + [cur]) + [x]
  {
    ExpandAppend(runs + [cur], IndexRun(x, x));
  }

  lemma TakeNext(xs: seq<nat>, i: nat)
    requires i < |xs|
    ensures xs[..i + 1] == xs[..i] + [xs[i]]
  {
  }

  method BuildSyncRequest(available: seq<nat>) returns (request: SyncRequest)
    requires available != []
    ensures Expand(request.missing) == available
    ensures Maximal(request.missing)
    ensures request.lastIndex == available[|available| - 1]
  {
    var runs: seq<IndexRun> := [];
    var cur := IndexRun(available[0], available[0]);
    ExpandAppend([], cur);
    assert [] + [cur] == [cur] && available[..1] == [available[0]];
    for i := 1 to |available|
      invariant cur.end == available[i - 1]
      invariant Maximal(runs + [cur])
      invariant Expand(runs + [cur]) == available[..i]
    {
      TakeNext(available, i);
      if available[i - 1] + 1 == available[i] {
        GrowRun(runs, cur);
        cur := cur.(end := cur.end + 1);
      } else {
        StartRun(runs, cur, available[i]);
        runs := runs + [cur];
        cur := IndexRun(available[i], available[i]);
      }
    }
    runs := runs + [cur];
    request := SyncRequest(runs, available[|available| - 1]);
  }

  /** What a run expands to is part of what the list expands to. */
  lemma {:induction false} InExpand(runs: seq<IndexRun>, k: nat)
    ensures k in Expand(runs) <==> exists i :: 0 <= i < |runs| && runs[i].start <= k <= runs[i].end
  {
    if runs != [] {
      var rest := runs[..|runs| - 1];
      InExpand(rest, k);
      if runs[|runs| - 1].start <= runs[|runs| - 1].end {
        InFrom(runs[|runs| - 1].start, runs[|runs| - 1].end);
      }
      if k in Expand(rest) {
        var i :| 0 <= i < |rest| && rest[i].start <= k <= rest[i].end;
        assert runs[i].start <= k <= runs[i].end;
      }
    }
  }

  lemma LastRunApart(rest: seq<IndexRun>, last: IndexRun)
    requires rest != [] && Maximal(rest + [last]) && Ascending(Expand(rest + [last]))
    ensures rest[|rest| - 1].end + 1 < last.start
  {
    var runs, before := rest + [last], rest[|rest| - 1];
    assert runs[|rest| - 1] == before && runs[|rest|] == last;
    ExpandAppend(rest, last);
    AscendingParts(Expand(rest), From(last.start, last.end));
    InExpand(rest, before.end);
    InFrom(last.start, last.end);
    assert before.end in Expand(rest) && last.start in From(last.start, last.end);
  }

  lemma ApartAppend(rest: seq<IndexRun>, last: IndexRun)
    requires RunsApart(rest) && last.start <= last.end
    requires rest != [] ==> rest[|rest| - 1].end + 1 < last.start
    ensures RunsApart(rest + [last])
  {
    forall i | 0 <= i < |rest|
      ensures rest[i].end + 1 < last.start
    {
      assert rest[i].end <= rest[|rest| - 1].end;
    }
  }

  /** For an ascending list the runs are ascending, disjoint and not adjacent. */
  lemma {:induction false} RunsAscend(runs: seq<IndexRun>)
    requires Maximal(runs) && Ascending(Expand(runs))
    ensures RunsApart(runs)
  {
    if runs != [] {
      var rest, last := runs[..|runs| - 1], runs[|runs| - 1];
      assert runs == rest + [last];
      ExpandAppend(rest, last);
      AscendingParts(Expand(rest), From(last.start, last.end));
      if rest != [] {
        LastRunApart(rest, last);
      }
      MaximalPrefix(rest, last);
      RunsAscend(rest);
      ApartAppend(rest, last);
    }
  }

  lemma MaximalPrefix(rest: seq<IndexRun>, last: IndexRun)
    requires Maximal(rest + [last])
    ensures Maximal(rest) && last.start <= last.end
  {
    var runs := rest + [last];
    assert runs[|rest|] == last;
    assert forall i :: 0 <= i < |rest| ==> runs[i] == rest[i];
  }

  lemma AscendingParts(xs: seq<nat>, ys: seq<nat>)
    requires Ascending(xs + ys)
    ensures Ascending(xs)
    ensures forall x, y :: x in xs && y in ys ==> x < y
  {
    var zs := xs + ys;
    assert forall i :: 0 <= i < |xs| ==> zs[i] == xs[i];
    assert forall j :: 0 <= j < |ys| ==> zs[|xs| + j] == ys[j];
  }

  predicate RunsApart(runs: seq<IndexRun>) {
    && (forall i :: 0 <= i < |runs| ==> runs[i].start <= runs[i].end)
    && (forall i, j :: 0 <= i < j < |runs| ==> runs[i].end + 1 < runs[j].start)
  }

  // ----- The response -----

  function Min(a: nat, b: nat): nat { if a < b then a else b }

  /** The entries of the log at the indices from lo up to, not including, hi. */
  function EntriesIn(log: Log, lo: nat, hi: nat): seq<IndexedEntry>
    decreases hi
  {
    if lo >= hi then []
    else EntriesIn(log, lo, hi - 1) + if hi - 1 in log then [IndexedEntry(hi - 1, log[hi - 1])] else []
  }

  /** The loop over the requested runs stops at the first one that starts beyond the prefix. */
  function HoleEntries(log: Log, next: nat, runs: seq<IndexRun>): seq<IndexedEntry> {
    if runs == [] || runs[0].start >= next then []
    else EntriesIn(log, runs[0].start, Min(next, runs[0].end) + 1) + HoleEntries(log, next, runs[1..])
  }

  function Response(log: Log, request: SyncRequest): seq<IndexedEntry> {
    var next := FirstHole(log);
    HoleEntries(log, next, request.missing)
    + if next > request.lastIndex then EntriesIn(log, request.lastIndex + 1, next) else []
  }

  method CollectEntries(paxosLog: PaxosLog, lo: nat, hi: nat) returns (entries: seq<IndexedEntry>)
    ensures entries == EntriesIn(paxosLog.log, lo, hi)
  {
    entries := [];
    var i := lo;
    while i < hi
      invariant lo <= i <= if lo <= hi then hi else lo
      invariant entries == EntriesIn(paxosLog.log, lo, i)
    {
      var entry := paxosLog.GetEntry(i);
      if entry.Some? {
        entries := entries + [IndexedEntry(i, entry.value)];
      }
      i := i + 1;
    }
  }

  method CollectHoles(paxosLog: PaxosLog, next: nat, runs: seq<IndexRun>) returns (entries: seq<IndexedEntry>)
    ensures entries == HoleEntries(paxosLog.log, next, runs)
  {
    entries := [];
    var rest := runs;
    while rest != [] && rest[0].start < next
      invariant entries + HoleEntries(paxosLog.log, next, rest) == HoleEntries(paxosLog.log, next, runs)
    {
      var part := CollectEntries(paxosLog, rest[0].start, Min(next, rest[0].end) + 1);
      assert HoleEntries(paxosLog.log, next, rest) == part + HoleEntries(paxosLog.log, next, rest[1..]);
      entries, rest := entries + part, rest[1..];
    }
  }

  method BuildSyncResponse(paxosLog: PaxosLog, request: SyncRequest) returns (entries: seq<IndexedEntry>)
    requires paxosLog.Valid()
    ensures entries == Response(paxosLog.log, request)
  {
    var next := paxosLog.NextAvailableIndex();
    entries := CollectHoles(paxosLog, next, request.missing);
    if next > request.lastIndex {
      var more := CollectEntries(paxosLog, request.lastIndex + 1, next);
      entries := entries + more;
    }
  }

  // ----- Merging -----

  function Merged(log: Log, entries: seq<IndexedEntry>): Log {
    if entries == [] then log
    else
      var last := entries[|entries| - 1];
      Filled(Merged(log, entries[..|entries| - 1]), last.index, last.entry)
  }

  method HandleSyncResponse(paxosLog: PaxosLog, entries: seq<IndexedEntry>)
    requires paxosLog.Valid()
    modifies paxosLog`log, paxosLog`available, paxosLog`calls
    ensures paxosLog.Valid()
    ensures paxosLog.log == Merged(old(paxosLog.log), entries)
    ensures old(paxosLog.InStep()) ==> paxosLog.InStep()
  {
    for i := 0 to |entries|
      invariant paxosLog.Valid()
      invariant paxosLog.log == Merged(old(paxosLog.log), entries[..i])
      invariant old(paxosLog.InStep()) ==> paxosLog.InStep()
    {
      assert entries[..i + 1][..i] == entries[..i];
      paxosLog.SetEntry(entries[i].index, entries[i].entry);
    }
    assert entries[..|entries|] == entries;
  }

  /** The i-th of the entries is the first for index k, and has this value. */
  ghost predicate IsFirstFor(entries: seq<IndexedEntry>, k: nat, entry: Entry, i: nat) {
    && i < |entries| && entries[i] == IndexedEntry(k, entry)
    && forall j :: 0 <= j < i ==> entries[j].index != k
  }

  lemma {:induction false} MergeKeepsAndAdds(log: Log, entries: seq<IndexedEntry>)
    ensures forall k :: k in log ==> k in Merged(log, entries) && Merged(log, entries)[k] == log[k]
    ensures forall i :: 0 <= i < |entries| ==> entries[i].index in Merged(log, entries)
    ensures forall k :: k in Merged(log, entries) && k !in log ==>
      exists i: nat :: IsFirstFor(entries, k, Merged(log, entries)[k], i)
  {
    if entries != [] {
      var rest := entries[..|entries| - 1];
      MergeKeepsAndAdds(log, rest);
      forall k | k in Merged(log, entries) && k !in log
        ensures exists i: nat :: IsFirstFor(entries, k, Merged(log, entries)[k], i)
      {
        if k in Merged(log, rest) {
          var i: nat :| IsFirstFor(rest, k, Merged(log, rest)[k], i);
          assert IsFirstFor(entries, k, Merged(log, entries)[k], i);
        } else {
          assert forall j :: 0 <= j < |rest| ==> rest[j].index in Merged(log, rest);
          assert IsFirstFor(entries, k, Merged(log, entries)[k], |entries| - 1);
        }
      }
    }
  }

  // ----- Catching up -----

  predicate InOrder(entries: seq<IndexedEntry>) {
    forall i, j :: 0 <= i < j < |entries| ==> entries[i].index < entries[j].index
  }

  lemma {:induction false} EntriesInExact(log: Log, lo: nat, hi: nat)
    ensures InOrder(EntriesIn(log, lo, hi))
    ensures forall x :: x in EntriesIn(log, lo, hi)
                        <==> lo <= x.index < hi && x.index in log && log[x.index] == x.entry
    decreases hi
  {
    if lo < hi {
      EntriesInExact(log, lo, hi - 1);
      ConcatInOrder(EntriesIn(log, lo, hi - 1), if hi - 1 in log then [IndexedEntry(hi - 1, log[hi - 1])] else []);
    }
  }

  /** Whatever the request, a response holds entries of the responder's own log. */
  lemma {:induction false} HoleEntriesAreEntries(log: Log, next: nat, runs: seq<IndexRun>)
    ensures forall x :: x in HoleEntries(log, next, runs) ==> x.index in log && log[x.index] == x.entry
  {
    if runs != [] && runs[0].start < next {
      EntriesInExact(log, runs[0].start, Min(next, runs[0].end) + 1);
      HoleEntriesAreEntries(log, next, runs[1..]);
    }
  }

  lemma ResponseIsSound(log: Log, request: SyncRequest)
    ensures forall x :: x in Response(log, request) ==> x.index in log && log[x.index] == x.entry
  {
    var next := FirstHole(log);
    HoleEntriesAreEntries(log, next, request.missing);
    EntriesInExact(log, request.lastIndex + 1, next);
  }

  predicate InRuns(runs: seq<IndexRun>, k: nat) {
    exists i :: 0 <= i < |runs| && runs[i].start <= k <= runs[i].end
  }

  lemma InRunsSplit(runs: seq<IndexRun>, k: nat)
    requires runs != []
    ensures InRuns(runs, k) <==> runs[0].start <= k <= runs[0].end || InRuns(runs[1..], k)
  {
    if i :| 0 < i < |runs| && runs[i].start <= k <= runs[i].end {
      assert runs[1..][i - 1] == runs[i];
    }
  }

  lemma ConcatInOrder(xs: seq<IndexedEntry>, ys: seq<IndexedEntry>)
    requires InOrder(xs) && InOrder(ys)
    requires forall x, y :: x in xs && y in ys ==> x.index < y.index
    ensures InOrder(xs + ys)
  {
    var zs := xs + ys;
    forall i, j | 0 <= i < j < |zs|
      ensures zs[i].index < zs[j].index
    {
      if i < |xs| <= j {
        assert xs[i] in xs && ys[j - |xs|] in ys;
      }
    }
  }

  // The entries at the filled indices below `next` that lie in one of the runs.
  ghost predicate ExactlyRuns(entries: seq<IndexedEntry>, log: Log, next: nat, runs: seq<IndexRun>) {
    && InOrder(entries)
    && forall x ::
         x in entries <==> x.index < next && InRuns(runs, x.index) && x.index in log && log[x.index] == x.entry
  }

  lemma JoinRuns(xs: seq<IndexedEntry>, ys: seq<IndexedEntry>, log: Log, next: nat, runs: seq<IndexRun>)
    requires next == FirstHole(log) && RunsApart(runs) && runs != []
    requires InOrder(xs) && ExactlyRuns(ys, log, next, runs[1..])
    requires forall x ::
      x in xs
      <==> runs[0].start <= x.index < Min(next, runs[0].end) + 1 && x.index in log && log[x.index] == x.entry
    ensures ExactlyRuns(xs + ys, log, next, runs)
  {
    forall x: IndexedEntry
      ensures x in xs + ys
              <==> x.index < next && InRuns(runs, x.index) && x.index in log && log[x.index] == x.entry
    {
      InRunsSplit(runs, x.index);
      assert x in xs + ys <==> x in xs || x in ys;
    }
    forall y | y in ys
      ensures runs[0].end < y.index
    {
      var i :| 0 <= i < |runs[1..]| && runs[1..][i].start <= y.index <= runs[1..][i].end;
      assert runs[1..][i] == runs[i + 1];
    }
    ConcatInOrder(xs, ys);
  }

  lemma {:induction false} HoleEntriesExact(log: Log, next: nat, runs: seq<IndexRun>)
    requires next == FirstHole(log) && RunsApart(runs)
    ensures ExactlyRuns(HoleEntries(log, next, runs), log, next, runs)
  {
    if runs != [] && runs[0].start < next {
      var lo, hi := runs[0].start, Min(next, runs[0].end) + 1;
      EntriesInExact(log, lo, hi);
      HoleEntriesExact(log, next, runs[1..]);
      JoinRuns(EntriesIn(log, lo, hi), HoleEntries(log, next, runs[1..]), log, next, runs);
    } else if runs != [] {
      assert forall k: nat :: InRuns(runs, k) ==> next <= k;
    }
  }

  lemma JoinResponse(xs: seq<IndexedEntry>, ys: seq<IndexedEntry>, log: Log, next: nat, runs: seq<IndexRun>, last: nat)
    requires forall k: nat :: InRuns(runs, k) ==> k <= last
    requires ExactlyRuns(xs, log, next, runs) && InOrder(ys)
    requires forall y :: y in ys <==> last + 1 <= y.index < next && y.index in log && log[y.index] == y.entry
    ensures InOrder(xs + ys)
    ensures forall x :: x in xs + ys
                        <==> x.index < next && x.index in log && log[x.index] == x.entry
                             && (InRuns(runs, x.index) || last < x.index)
  {
    ConcatInOrder(xs, ys);
    assert forall x :: x in xs + ys <==> x in xs || x in ys;
  }

  lemma ResponseParts(log: Log, request: SyncRequest)
    requires RunsApart(request.missing)
    requires forall k: nat :: InRuns(request.missing, k) ==> k <= request.lastIndex
    ensures InOrder(Response(log, request))
    ensures forall x :: x in Response(log, request)
                        <==> x.index < FirstHole(log) && x.index in log && log[x.index] == x.entry
                             && (InRuns(request.missing, x.index) || request.lastIndex < x.index)
  {
    var next, last := FirstHole(log), request.lastIndex;
    HoleEntriesExact(log, next, request.missing);
    EntriesInExact(log, last + 1, next);
    var xs, ys := HoleEntries(log, next, request.missing), EntriesIn(log, last + 1, next);
    JoinResponse(xs, ys, log, next, request.missing, last);
    assert Response(log, request) == xs + ys;
  }

  /**
   The response to a node's request holds each entry that the node lacks below the responder's
   first hole, once, in ascending order, and nothing else.
  */
  lemma ResponseIsExact(mine: Log, holes: seq<nat>, request: SyncRequest, theirs: Log)
    requires IsHoleList(mine, holes)
    requires Expand(request.missing) == holes && Maximal(request.missing)
    requires request.lastIndex == holes[|holes| - 1]
    ensures InOrder(Response(theirs, request))
    ensures forall x :: x in Response(theirs, request)
                        <==> x.index !in mine && x.index < FirstHole(theirs) && theirs[x.index] == x.entry
  {
    RunsAscend(request.missing);
    RequestedRuns(holes, request);
    assert request.lastIndex in holes && forall k :: k in holes ==> k <= request.lastIndex;
    ResponseParts(theirs, request);
    assert forall k: nat :: k !in mine <==> k in holes || request.lastIndex < k;
  }

  lemma RequestedRuns(holes: seq<nat>, request: SyncRequest)
    requires Expand(request.missing) == holes
    ensures forall k: nat :: InRuns(request.missing, k) <==> k in holes
  {
    forall k: nat
      ensures InRuns(request.missing, k) <==> k in holes
    {
      InExpand(request.missing, k);
    }
  }

  /**
   After merging, the requester has delivered at least as much as the responder had, even if its
   log grew while the messages travelled.
  */
  lemma CatchUp(mine: Log, holes: seq<nat>, request: SyncRequest, theirs: Log, now: Log)
    requires IsHoleList(mine, holes)
    requires Expand(request.missing) == holes && Maximal(request.missing)
    requires request.lastIndex == holes[|holes| - 1]
    requires mine.Keys <= now.Keys
    ensures FirstHole(theirs) <= FirstHole(Merged(now, Response(theirs, request)))
  {
    var response := Response(theirs, request);
    ResponseIsExact(mine, holes, request, theirs);
    MergeKeepsAndAdds(now, response);
    forall k | 0 <= k < FirstHole(theirs)
      ensures k in Merged(now, response)
    {
      if k !in now {
        assert IndexedEntry(k, theirs[k]) in response;
        var i :| 0 <= i < |response| && response[i] == IndexedEntry(k, theirs[k]);
      }
    }
  }
}
