/** The event log the dashboard reads: one entry per stored boot, heartbeat
    and status record, ordered newest first. The ordering is Python's
    `list.sort(key=timestamp, reverse=True)`, which is stable: entries with
    equal timestamps keep the order they were collected in. */
module EventLog {
  import opened JsonValues

  /** One log entry: the table it came from, the station, the message text
      (null when SQL concatenation met a null), and when it was stored. */
  datatype LogEntry = LogEntry(kind: string, cpId: Option<string>, message: Option<string>, timestamp: int)

  /** Each entry is at least as recent as the next one. */
  predicate NewestFirst(s: seq<LogEntry>) {
    forall i :: 0 < i < |s| ==> s[i - 1].timestamp >= s[i].timestamp
  }

  /** Places `x` in front of the first entry that is not more recent than
      it, so that `x` precedes the entries of equal time that follow it. */
  function InsertNewest(x: LogEntry, s: seq<LogEntry>): (r: seq<LogEntry>)
    ensures |r| == |s| + 1
    ensures r[0] == x || (s != [] && r[0] == s[0])
  {
    if s == [] || s[0].timestamp <= x.timestamp then [x] + s
    else [s[0]] + InsertNewest(x, s[1..])
  }

  /** Inserting adds exactly `x`: nothing is lost or duplicated. */
  lemma {:induction false} InsertPermutes(x: LogEntry, s: seq<LogEntry>)
    ensures multiset(InsertNewest(x, s)) == multiset(s) + multiset{x}
  {
    if s != [] && s[0].timestamp > x.timestamp {
      InsertPermutes(x, s[1..]);
      assert s == [s[0]] + s[1..];
    }
  }

  /** Inserting into a log ordered newest first keeps it so. */
  lemma {:induction false} InsertKeepsNewestFirst(x: LogEntry, s: seq<LogEntry>)
    requires NewestFirst(s)
    ensures NewestFirst(InsertNewest(x, s))
  {
    if s != [] && s[0].timestamp > x.timestamp {
      var rest := InsertNewest(x, s[1..]);
      InsertKeepsNewestFirst(x, s[1..]);
      var r := [s[0]] + rest;
      forall i | 0 < i < |r| ensures r[i - 1].timestamp >= r[i].timestamp {
        if i > 1 {
          assert r[i - 1] == rest[i - 2] && r[i] == rest[i - 1];
        }
      }
    }
  }

  /** The log ordered newest first, as a stable sort leaves it. */
  function SortNewest(s: seq<LogEntry>): (r: seq<LogEntry>)
    ensures |r| == |s|
  {
    if s == [] then [] else InsertNewest(s[0], SortNewest(s[1..]))
  }

  /** Sorting keeps every entry exactly as often as it occurs. */
  lemma {:induction false} SortPermutes(s: seq<LogEntry>)
    ensures multiset(SortNewest(s)) == multiset(s)
  {
    if s != [] {
      var sorted := SortNewest(s[1..]);
      assert SortNewest(s) == InsertNewest(s[0], sorted);
      SortPermutes(s[1..]);
      InsertPermutes(s[0], sorted);
      assert s == [s[0]] + s[1..];
      assert multiset(s) == multiset{s[0]} + multiset(s[1..]);
    }
  }

  /** The sorted log is ordered newest first. */
  lemma {:induction false} SortIsNewestFirst(s: seq<LogEntry>)
    ensures NewestFirst(SortNewest(s))
  {
    if s != [] {
      SortIsNewestFirst(s[1..]);
      InsertKeepsNewestFirst(s[0], SortNewest(s[1..]));
    }
  }

  /** NewestFirst orders every pair of entries, not only neighbours. */
  lemma {:induction false} NewestFirstPairwise(s: seq<LogEntry>, i: int, j: int)
    requires NewestFirst(s)
    requires 0 <= i <= j < |s|
    ensures s[i].timestamp >= s[j].timestamp
    decreases j - i
  {
    if i < j {
      NewestFirstPairwise(s, i + 1, j);
    }
  }

  /** The entries stored at time `t`, in their order in `s`. */
  function At(s: seq<LogEntry>, t: int): (r: seq<LogEntry>)
    ensures |r| <= |s|
    ensures forall i :: 0 <= i < |r| ==> r[i].timestamp == t
  {
    if s == [] then []
    else (if s[0].timestamp == t then [s[0]] else []) + At(s[1..], t)
  }

  /** At, one entry at a time. */
  lemma AtCons(e: LogEntry, s: seq<LogEntry>, t: int)
    ensures At([e] + s, t) == (if e.timestamp == t then [e] else []) + At(s, t)
  {
    assert ([e] + s)[1..] == s;
  }

  lemma {:induction false} InsertKeepsOrderAt(x: LogEntry, s: seq<LogEntry>, t: int)
    ensures At(InsertNewest(x, s), t) == (if x.timestamp == t then [x] else []) + At(s, t)
  {
    if s == [] || s[0].timestamp <= x.timestamp {
      assert InsertNewest(x, s) == [x] + s;
      AtCons(x, s, t);
    } else {
      var rest := InsertNewest(x, s[1..]);
      assert InsertNewest(x, s) == [s[0]] + rest;
      AtCons(s[0], rest, t);
      InsertKeepsOrderAt(x, s[1..], t);
      var front := if s[0].timestamp == t then [s[0]] else [];
      var mid := if x.timestamp == t then [x] else [];
      assert front == [] || mid == [];
      assert At(s, t) == front + At(s[1..], t);
    }
  }

  /** The sort is stable: among entries stored at the same time, the order
      in which they were collected is kept. */
  lemma {:induction false} SortIsStable(s: seq<LogEntry>, t: int)
    ensures At(SortNewest(s), t) == At(s, t)
  {
    if s != [] {
      SortIsStable(s[1..], t);
      InsertKeepsOrderAt(s[0], SortNewest(s[1..]), t);
    }
  }
}
