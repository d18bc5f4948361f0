/** Key-space ranges and the values that a Paxos log can hold. */
module KeySpaceRanges {
  import opened Wrappers

  type GroupId = string

  datatype Range = Range(database: string, table: string, start: Option<string>, end: Option<string>)

  // What a client asks for: a key of a table of a database.
  datatype Key = Key(database: string, table: string, key: string)

  /** std::string's `<=`: lexicographic, character by character. */
  predicate StringLeq(a: string, b: string) {
    a == [] || (b != [] && (a[0] < b[0] || (a[0] == b[0] && StringLeq(a[1..], b[1..]))))
  }

  predicate Within(range: Range, key: Key) {
    && range.database == key.database
    && range.table == key.table
    && (range.start.Some? ==> StringLeq(range.start.value, key.key))
    && (range.end.Some? ==> !StringLeq(range.end.value, key.key))
  }

  /** The only kind of range a master ever assigns: a whole table. */
  function WholeTable(key: Key): Range {
    Range(key.database, key.table, None, None)
  }

  predicate IsWholeTable(range: Range) {
    range.start.None? && range.end.None?
  }

  predicate Covers(ranges: seq<Range>, key: Key) {
    exists i :: 0 <= i < |ranges| && Within(ranges[i], key)
  }

  // ----- The order of keys, and what a range holds -----

  /** The first place where two strings differ, or where one of them ends. */
  ghost predicate DifferAt(a: string, b: string, k: nat) {
    && k <= |a| && k <= |b| && a[..k] == b[..k]
    && (k == |a| || k == |b| || a[k] != b[k])
  }

  /** The order is that of the first difference; a string comes before its extensions. */
  lemma {:induction false} StringLeqIff(a: string, b: string, k: nat)
    requires DifferAt(a, b, k)
    ensures StringLeq(a, b) <==> k == |a| || (k < |b| && a[k] < b[k])
    decreases k
  {
    if k > 0 {
      assert a[0] == a[..k][0] == b[..k][0] == b[0];
      assert a[1..][..k - 1] == a[..k][1..] && b[1..][..k - 1] == b[..k][1..];
      StringLeqIff(a[1..], b[1..], k - 1);
    }
  }

  lemma {:induction false} SomewhereDiffer(a: string, b: string) returns (k: nat)
    ensures DifferAt(a, b, k)
  {
    if a == [] || b == [] || a[0] != b[0] {
      k := 0;
    } else {
      var j := SomewhereDiffer(a[1..], b[1..]);
      k := j + 1;
      assert a[..k] == [a[0]] + a[1..][..j] && b[..k] == [b[0]] + b[1..][..j];
    }
  }

  lemma {:induction false} StringLeqIsTotal(a: string, b: string)
    ensures StringLeq(a, b) || StringLeq(b, a)
    ensures StringLeq(a, b) && StringLeq(b, a) ==> a == b
  {
    if a != [] && b != [] && a[0] == b[0] {
      StringLeqIsTotal(a[1..], b[1..]);
      assert a == [a[0]] + a[1..] && b == [b[0]] + b[1..];
    }
  }

  lemma {:induction false} StringLeqIsTransitive(a: string, b: string, c: string)
    requires StringLeq(a, b) && StringLeq(b, c)
    ensures StringLeq(a, c)
  {
    if a != [] && a[0] == b[0] == c[0] {
      StringLeqIsTransitive(a[1..], b[1..], c[1..]);
    }
  }

  /** Cutting a range in two at a key: each of its keys is in exactly one part, the cut itself in the upper one. */
  lemma RangesSplit(range: Range, cut: string, key: Key)
    requires range.start.Some? ==> StringLeq(range.start.value, cut)
    requires range.end.Some? ==> StringLeq(cut, range.end.value)
    ensures
      var lower, upper := range.(end := Some(cut)), range.(start := Some(cut));
      && (Within(range, key) <==> Within(lower, key) || Within(upper, key))
      && !(Within(lower, key) && Within(upper, key))
      && (key.key == cut ==> !Within(lower, key))
  {
    StringLeqIsTotal(cut, key.key);
    if range.start.Some? && StringLeq(cut, key.key) {
      StringLeqIsTransitive(range.start.value, cut, key.key);
    }
    if range.end.Some? && StringLeq(range.end.value, key.key) {
      StringLeqIsTransitive(cut, range.end.value, key.key);
    }
  }
}

module Entries {
  import opened KeySpaceRanges

  // The `oneof` of a Paxos log entry. Unset is the default instance an acceptor starts from.
  datatype Entry =
    | Unset
    | Selected(group: GroupId, newRanges: seq<Range>, generation: nat)
    | Commit(group: GroupId, generation: nat)
    | Changed(newRanges: seq<Range>, generation: nat)
    | Read(requestId: string, key: string, timestamp: nat)
    | Write(requestId: string, key: string, value: string, timestamp: nat)
    | ReconfigStarted(slaves: seq<string>)
    | ReconfigFinished

  datatype Kind =
    UnsetKind | SelectedKind | CommitKind | ChangedKind | ReadKind | WriteKind | StartedKind | FinishedKind

  function KindOf(e: Entry): Kind {
    match e
    case Unset => UnsetKind
    case Selected(_, _, _) => SelectedKind
    case Commit(_, _) => CommitKind
    case Changed(_, _) => ChangedKind
    case Read(_, _, _) => ReadKind
    case Write(_, _, _, _) => WriteKind
    case ReconfigStarted(_) => StartedKind
    case ReconfigFinished => FinishedKind
  }

  /** No two kinds of entry are taken for one another. */
  lemma KindIsExact(e: Entry)
    ensures KindOf(e) == UnsetKind <==> e.Unset?
    ensures KindOf(e) == SelectedKind <==> e.Selected?
    ensures KindOf(e) == CommitKind <==> e.Commit?
    ensures KindOf(e) == ChangedKind <==> e.Changed?
    ensures KindOf(e) == ReadKind <==> e.Read?
    ensures KindOf(e) == WriteKind <==> e.Write?
    ensures KindOf(e) == StartedKind <==> e.ReconfigStarted?
    ensures KindOf(e) == FinishedKind <==> e.ReconfigFinished?
  {
  }
}
