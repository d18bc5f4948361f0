/** The configurations of a group over the indices of its log. */
module PaxosConfigs {
  import opened Wrappers
  import opened Entries

  datatype Endpoint = Endpoint(url: string, port: nat)

  datatype IndexAndConfig = IndexAndConfig(index: nat, slaves: seq<Endpoint>)

  type Timeline = t: seq<IndexAndConfig> | t != [] witness [IndexAndConfig(0, [])]

  function Back(t: Timeline): IndexAndConfig {
    t[|t| - 1]
  }

  function Endpoints(urls: seq<string>): seq<Endpoint> {
    seq(|urls|, i requires 0 <= i < |urls| => Endpoint(urls[i], 0))
  }

  /** The log callback, for an entry at the given index; None stands for a failed assertion. */
  function OnReconfig(t: Timeline, index: nat, urls: seq<string>): Option<Timeline> {
    if index > Back(t).index then Some(t + [IndexAndConfig(index + 1, Endpoints(urls))]) else None
  }

  /** The timeline after the first n entries of the log. */
  function TimelineAt(start: IndexAndConfig, entries: seq<Entry>, n: nat): Option<Timeline>
    requires n <= |entries|
  {
    if n == 0 then Some([start])
    else
      var before := TimelineAt(start, entries, n - 1);
      if before.None? || !entries[n - 1].ReconfigStarted? then before
      else OnReconfig(before.value, n - 1, entries[n - 1].slaves)
  }

  ghost predicate Ascending(t: Timeline) {
    forall i, j :: 0 <= i < j < |t| ==> t[i].index < t[j].index
  }

  /** The k-th config is the one in force at an index: the latest that starts there or before. */
  ghost predicate InForce(t: Timeline, index: nat, k: nat) {
    k < |t| && t[k].index <= index && forall j :: 0 <= j < |t| && t[j].index <= index ==> t[j].index <= t[k].index
  }

  /** What the lookup finds: the last in the timeline that starts at the index or before. */
  ghost predicate LastUpTo(t: Timeline, index: nat, k: nat) {
    k < |t| && t[k].index <= index && forall j :: k < j < |t| ==> t[j].index > index
  }

  class PaxosConfigManager {
    var timeline: Timeline

    constructor (index: nat, slaves: seq<Endpoint>)
      ensures timeline == [IndexAndConfig(index, slaves)]
    {
      timeline := [IndexAndConfig(index, slaves)];
    }

    method OnReconfigStarted(index: nat, urls: seq<string>) returns (failed: bool)
      modifies this
      ensures
        var after := OnReconfig(old(timeline), index, urls);
        timeline == (if after.Some? then after.value else old(timeline)) && failed == after.None?
    {
      if index <= timeline[|timeline| - 1].index {
        return true;
      }
      var slaves: seq<Endpoint> := [];
      for i := 0 to |urls|
        invariant slaves == Endpoints(urls[..i])
      {
        slaves := slaves + [Endpoint(urls[i], 0)];
      }
      assert urls[..|urls|] == urls;
      timeline := timeline + [IndexAndConfig(index + 1, slaves)];
      failed := false;
    }

    /** None stands for a failed assertion: the index is before the first config. */
    method Config(index: nat) returns (slaves: Option<seq<Endpoint>>)
      ensures slaves.None? <==> forall k :: 0 <= k < |timeline| ==> timeline[k].index > index
      ensures slaves.Some? ==> exists k: nat :: LastUpTo(timeline, index, k) && slaves.value == timeline[k].slaves
    {
      var i := |timeline| - 1;
      while i >= 0 && timeline[i].index > index
        invariant -1 <= i < |timeline|
        invariant forall j :: i < j < |timeline| ==> timeline[j].index > index
      {
        i := i - 1;
      }
      if i < 0 {
        return None;
      }
      assert LastUpTo(timeline, index, i);
      slaves := Some(timeline[i].slaves);
    }

    method LatestConfig() returns (slaves: seq<Endpoint>)
      ensures slaves == Back(timeline).slaves
    {
      slaves := timeline[|timeline| - 1].slaves;
    }
  }

  /** Replaying n entries leaves an ascending timeline that says nothing of indices above n. */
  lemma {:induction false} TimelineAscends(start: IndexAndConfig, entries: seq<Entry>, n: nat)
    requires n <= |entries| && TimelineAt(start, entries, n).Some?
    ensures
      var t := TimelineAt(start, entries, n).value;
      Ascending(t) && t[0] == start && forall i :: 0 < i < |t| ==> t[i].index <= n
  {
    if n > 0 {
      TimelineAscends(start, entries, n - 1);
    }
  }

  /** In an ascending timeline the lookup finds the config in force, and fails only below the first. */
  lemma LookupIsInForce(t: Timeline, index: nat, k: nat)
    requires Ascending(t)
    ensures LastUpTo(t, index, k) <==> InForce(t, index, k)
    ensures (forall j :: 0 <= j < |t| ==> t[j].index > index) <==> index < t[0].index
  {
    if InForce(t, index, k) {
      forall j | k < j < |t|
        ensures t[j].index > index
      {
        assert t[k].index < t[j].index;
      }
    }
    if LastUpTo(t, index, k) {
      assert forall j :: 0 <= j < k ==> t[j].index < t[k].index;
    }
  }

  lemma {:induction false} TimelineGrows(start: IndexAndConfig, entries: seq<Entry>, n: nat, m: nat)
    requires n <= m <= |entries| && TimelineAt(start, entries, m).Some?
    ensures TimelineAt(start, entries, n).Some?
    ensures TimelineAt(start, entries, n).value <= TimelineAt(start, entries, m).value
    ensures
      var t, t' := TimelineAt(start, entries, n).value, TimelineAt(start, entries, m).value;
      forall i :: |t| <= i < |t'| ==> t'[i].index > n
    decreases m
  {
    if n < m {
      TimelineGrows(start, entries, n, m - 1);
    }
  }

  /** Once every entry below an index has been delivered, the config in force there never changes. */
  lemma ConfigIsStable(start: IndexAndConfig, entries: seq<Entry>, n: nat, m: nat, index: nat, k: nat)
    requires index <= n <= m <= |entries| && TimelineAt(start, entries, m).Some?
    ensures TimelineAt(start, entries, n).Some?
    ensures
      InForce(TimelineAt(start, entries, n).value, index, k) <==> InForce(TimelineAt(start, entries, m).value, index, k)
  {
    TimelineGrows(start, entries, n, m);
    var t, t' := TimelineAt(start, entries, n).value, TimelineAt(start, entries, m).value;
    assert forall i :: 0 <= i < |t| ==> t[i] == t'[i];
  }

  /** A reconfiguration after the first config, and not right after another one. */
  predicate Spaced(start: IndexAndConfig, entries: seq<Entry>, i: nat)
    requires i < |entries|
  {
    entries[i].ReconfigStarted? ==> i > start.index && (i > 0 ==> !entries[i - 1].ReconfigStarted?)
  }

  lemma {:induction false} BackOfTimeline(start: IndexAndConfig, entries: seq<Entry>, n: nat)
    requires n <= |entries| && TimelineAt(start, entries, n).Some?
    ensures
      var back := Back(TimelineAt(start, entries, n).value).index;
      && (n > 0 && entries[n - 1].ReconfigStarted? ==> back == n)
      && (n > 0 && !entries[n - 1].ReconfigStarted? ==> back == start.index || (start.index < back < n))
      && (n == 0 ==> back == start.index)
      && (back != start.index ==> start.index < back)
  {
    if n > 0 {
      BackOfTimeline(start, entries, n - 1);
    }
  }

  /**
   Replaying a log passes the callback's assertion exactly when no reconfiguration is at or below
   the first config's index and none comes right after another.
   */
  lemma {:induction false} ReplayPassesIffSpaced(start: IndexAndConfig, entries: seq<Entry>, n: nat)
    requires n <= |entries|
    ensures TimelineAt(start, entries, n).Some? <==> forall i: nat :: i < n ==> Spaced(start, entries, i)
  {
    if n > 0 {
      ReplayPassesIffSpaced(start, entries, n - 1);
      if TimelineAt(start, entries, n - 1).Some? {
        BackOfTimeline(start, entries, n - 1);
        assert TimelineAt(start, entries, n).Some? <==> Spaced(start, entries, n - 1);
      }
    }
  }

  // ----- Which servers a log puts in force -----

  /** The k-th config is the one that the reconfiguration at index i starts, from the next index on. */
  ghost predicate StartedBy(entries: seq<Entry>, i: nat, config: IndexAndConfig) {
    && i < |entries| && entries[i].ReconfigStarted?
    && config.index == i + 1
    && |config.slaves| == |entries[i].slaves|
    && forall j :: 0 <= j < |config.slaves| ==>
         config.slaves[j].url == entries[i].slaves[j] && config.slaves[j].port == 0
  }

  /** The last reconfiguration below an index. */
  ghost predicate LastReconfigBelow(entries: seq<Entry>, index: nat, i: nat) {
    && i < index && i < |entries| && entries[i].ReconfigStarted?
    && forall j :: i < j < index && j < |entries| ==> !entries[j].ReconfigStarted?
  }

  /** The timeline is the first config and one for each reconfiguration, with the servers that it names. */
  lemma {:induction false} TimelineIsExact(start: IndexAndConfig, entries: seq<Entry>, n: nat)
    requires n <= |entries| && TimelineAt(start, entries, n).Some?
    ensures
      var t := TimelineAt(start, entries, n).value;
      && t[0] == start
      && (forall k :: 0 < k < |t| ==> 0 < t[k].index <= n && StartedBy(entries, t[k].index - 1, t[k]))
      && forall i: nat ::
           i < n && entries[i].ReconfigStarted? ==> exists k :: 0 < k < |t| && StartedBy(entries, i, t[k])
  {
    if n > 0 {
      TimelineIsExact(start, entries, n - 1);
      var t, t' := TimelineAt(start, entries, n - 1).value, TimelineAt(start, entries, n).value;
      assert t <= t';
      forall i: nat | i < n && entries[i].ReconfigStarted?
        ensures exists k :: 0 < k < |t'| && StartedBy(entries, i, t'[k])
      {
        if i < n - 1 {
          var k :| 0 < k < |t| && StartedBy(entries, i, t[k]);
          assert StartedBy(entries, i, t'[k]);
        } else {
          assert StartedBy(entries, i, t'[|t'| - 1]);
        }
      }
    }
  }

  /**
   The config in force at an index is the one that the last reconfiguration below the index names, and
   the first config where there is none.
  */
  lemma ConfigInForceIs(start: IndexAndConfig, entries: seq<Entry>, n: nat, index: nat, k: nat)
    requires n <= |entries| && TimelineAt(start, entries, n).Some? && start.index <= index <= n
    requires InForce(TimelineAt(start, entries, n).value, index, k)
    ensures
      var config := TimelineAt(start, entries, n).value[k];
      && (forall i: nat :: LastReconfigBelow(entries, index, i) ==> StartedBy(entries, i, config))
      && ((forall i: nat :: i < index && i < |entries| ==> !entries[i].ReconfigStarted?) ==> config == start)
  {
    var t := TimelineAt(start, entries, n).value;
    TimelineIsExact(start, entries, n);
    TimelineAscends(start, entries, n);
    forall i: nat | LastReconfigBelow(entries, index, i)
      ensures StartedBy(entries, i, t[k])
    {
      var j :| 0 < j < |t| && StartedBy(entries, i, t[j]);
      assert t[j].index <= t[k].index;
      assert k >= j;
      assert StartedBy(entries, t[k].index - 1, t[k]);
    }
    if k > 0 {
      assert StartedBy(entries, t[k].index - 1, t[k]);
    }
  }
}
