/**
 * The per-container counters of ExconConnection.rb and the bookkeeping that
 * turns cumulative counters into per-poll differences.  Everything here works
 * on the two hashes a `Container` holds, `@stats` (the current sample) and
 * `@prev_stats` (the value seen at the previous report, `nil` when none).
 */
module Stats {
  import opened Wrappers

  /** The symbols used as keys of `@stats` and `@prev_stats`. */
  datatype StatKey =
    | MemoryUsage | MemoryLimit | MemoryPercentageUsage
    | NetworkIn | NetworkOut
    | Cpu | CpuSystemUsage | CpuPercentageUsage
    | DiskIoRead
    | CpuUsage  // written by the stats parser only; absent from a new Container

  /**
   * The order in which `@stats.each` visits the keys: Ruby hashes iterate in
   * insertion order, the constructor inserts the first nine, and `:cpu_usage`
   * is only ever added later, by the stats parser.
   */
  const KeyOrder: seq<StatKey> :=
    [MemoryUsage, MemoryLimit, MemoryPercentageUsage, NetworkIn, NetworkOut,
     Cpu, CpuSystemUsage, CpuPercentageUsage, DiskIoRead, CpuUsage]

  /** `keepKeys`: gauges, reported as sampled and never diffed. */
  const KeepKeys: set<StatKey> :=
    {MemoryLimit, MemoryPercentageUsage, CpuSystemUsage, CpuPercentageUsage}

  /** `@stats` of a new Container (the two "0.0%" strings are read as 0.0). */
  const InitialStats: map<StatKey, real> :=
    map[MemoryUsage := 0.0, MemoryLimit := 0.0, MemoryPercentageUsage := 0.0,
        NetworkIn := 0.0, NetworkOut := 0.0, Cpu := 0.0, CpuSystemUsage := 0.0,
        CpuPercentageUsage := 0.0, DiskIoRead := 0.0]

  /** `@prev_stats` of a new Container: every entry `nil`. */
  const InitialPrevStats: map<StatKey, Option<real>> :=
    map[MemoryUsage := None, MemoryLimit := None, MemoryPercentageUsage := None,
        NetworkIn := None, NetworkOut := None, Cpu := None, CpuSystemUsage := None,
        CpuPercentageUsage := None, DiskIoRead := None]

  /** One `key=value` item of the report line `send_stats` prints. */
  datatype StatLine = StatLine(key: StatKey, value: real)

  /** Ruby `@prev_stats[k]` is `nil` both for a missing key and a stored nil. */
  predicate HasPrevious(prev: map<StatKey, Option<real>>, k: StatKey)
  {
    k in prev && prev[k].Some?
  }

  /**
   * A previous value is only ever a copy of a current one, and current keys
   * are never removed, so every previous value has a current counterpart.
   */
  ghost predicate Consistent(stats: map<StatKey, real>, prev: map<StatKey, Option<real>>)
  {
    forall k :: HasPrevious(prev, k) ==> k in stats
  }

  lemma InitialConsistent()
    ensures Consistent(InitialStats, InitialPrevStats)
    ensures forall k :: !HasPrevious(InitialPrevStats, k)
  {
    forall k ensures !HasPrevious(InitialPrevStats, k) {
      if k in InitialPrevStats {
        assert InitialPrevStats[k] == None by {
          match k
          case MemoryUsage =>
          case MemoryLimit =>
          case MemoryPercentageUsage =>
          case NetworkIn =>
          case NetworkOut =>
          case Cpu =>
          case CpuSystemUsage =>
          case CpuPercentageUsage =>
          case DiskIoRead =>
          case CpuUsage =>
        }
      }
    }
  }

  /** `calc_difference`: 0 on a cold start, otherwise current minus previous. */
  function Difference(stats: map<StatKey, real>, prev: map<StatKey, Option<real>>, k: StatKey): real
    requires Consistent(stats, prev)
  {
    if HasPrevious(prev, k) then stats[k] - prev[k].value else 0.0
  }

  /** `set_prev_stats`: the previous value becomes the current one (`nil` if none). */
  function RollForward(stats: map<StatKey, real>, prev: map<StatKey, Option<real>>, k: StatKey)
    : (p: map<StatKey, Option<real>>)
    requires Consistent(stats, prev)
    ensures Consistent(stats, p)
    ensures p.Keys == prev.Keys + {k}
    ensures k in stats ==> p[k] == Some(stats[k])
    ensures k !in stats ==> p[k] == None
    ensures forall j :: j in prev && j != k ==> p[j] == prev[j]
  {
    prev[k := if k in stats then Some(stats[k]) else None]
  }

  /** What the report shows for a present key: gauges raw, counters diffed. */
  function ReportedValue(stats: map<StatKey, real>, prev: map<StatKey, Option<real>>, k: StatKey): real
    requires Consistent(stats, prev)
    requires k in stats
  {
    if k in KeepKeys then stats[k] else Difference(stats, prev, k)
  }

  /**
   * The items the per-stat loop reports after visiting `keys` (the keys
   * present in `stats`, in that order).  The value of each key only depends
   * on its own history, which the visits of the other keys do not touch.
   */
  function Report(stats: map<StatKey, real>, prev: map<StatKey, Option<real>>, keys: seq<StatKey>)
    : seq<StatLine>
    requires Consistent(stats, prev)
  {
    if keys == [] then []
    else
      var k := keys[|keys| - 1];
      Report(stats, prev, keys[..|keys| - 1])
        + (if k in stats then [StatLine(k, ReportedValue(stats, prev, k))] else [])
  }

  /** `@prev_stats` after the per-stat loop has visited `keys`. */
  function History(stats: map<StatKey, real>, prev: map<StatKey, Option<real>>, keys: seq<StatKey>)
    : (p: map<StatKey, Option<real>>)
    requires Consistent(stats, prev)
    ensures Consistent(stats, p)
  {
    if keys == [] then prev
    else
      var k := keys[|keys| - 1];
      var p := History(stats, prev, keys[..|keys| - 1]);
      if k in stats && k !in KeepKeys then RollForward(stats, p, k) else p
  }

  /** A key was rolled forward exactly when it was visited, present and a counter. */
  predicate Rolled(stats: map<StatKey, real>, keys: seq<StatKey>, k: StatKey)
  {
    k in keys && k in stats && k !in KeepKeys
  }

  /**
   * After the loop, every present counter remembers its current value, and
   * every other entry, gauges included, is exactly what it was.
   */
  lemma {:induction false} HistoryAt(stats: map<StatKey, real>, prev: map<StatKey, Option<real>>,
                                     keys: seq<StatKey>, k: StatKey)
    requires Consistent(stats, prev)
    ensures Rolled(stats, keys, k) ==> k in History(stats, prev, keys)
                                       && History(stats, prev, keys)[k] == Some(stats[k])
    ensures !Rolled(stats, keys, k) ==> (k in History(stats, prev, keys) <==> k in prev)
    ensures !Rolled(stats, keys, k) && k in prev ==> History(stats, prev, keys)[k] == prev[k]
  {
    if keys != [] {
      var init := keys[..|keys| - 1];
      HistoryAt(stats, prev, init, k);
      assert keys == init + [keys[|keys| - 1]];
      assert Rolled(stats, keys, k) <==> Rolled(stats, init, k) || (k == keys[|keys| - 1] && k in stats && k !in KeepKeys);
    }
  }

  /**
   * Every reported item is a visited, present key with its reported value,
   * and every visited present key is reported.
   */
  lemma {:induction false} ReportItems(stats: map<StatKey, real>, prev: map<StatKey, Option<real>>,
                                       keys: seq<StatKey>)
    requires Consistent(stats, prev)
    ensures forall l :: l in Report(stats, prev, keys) ==>
              l.key in keys && l.key in stats && l.value == ReportedValue(stats, prev, l.key)
    ensures forall k :: k in keys && k in stats ==> StatLine(k, ReportedValue(stats, prev, k)) in Report(stats, prev, keys)
  {
    if keys != [] {
      var init := keys[..|keys| - 1];
      ReportItems(stats, prev, init);
      assert keys == init + [keys[|keys| - 1]];
    }
  }

  /** The keys of `keys` that `stats` holds, in the same order. */
  function Present(stats: map<StatKey, real>, keys: seq<StatKey>): (r: seq<StatKey>)
    ensures |r| <= |keys|
    ensures forall k :: k in r <==> k in keys && k in stats
  {
    if keys == [] then []
    else
      var k := keys[|keys| - 1];
      Present(stats, keys[..|keys| - 1]) + (if k in stats then [k] else [])
  }

  /** The report lists each present key once, in the visiting order. */
  lemma {:induction false} ReportKeys(stats: map<StatKey, real>, prev: map<StatKey, Option<real>>,
                                      keys: seq<StatKey>)
    requires Consistent(stats, prev)
    ensures |Report(stats, prev, keys)| == |Present(stats, keys)|
    ensures forall i :: 0 <= i < |Report(stats, prev, keys)| ==>
              Report(stats, prev, keys)[i].key == Present(stats, keys)[i]
  {
    if keys != [] {
      ReportKeys(stats, prev, keys[..|keys| - 1]);
    }
  }

  /** The loop visits every key there is. */
  lemma KeyOrderComplete(k: StatKey)
    ensures k in KeyOrder
  {
  }

  /**
   * Cold start: against an all-nil history every counter is reported as 0,
   * every gauge as sampled, and afterwards every present counter remembers
   * its sample while the gauges' histories stay nil.
   */
  lemma {:induction false} ColdStartReportsZero(stats: map<StatKey, real>)
    requires Consistent(stats, InitialPrevStats)
    ensures forall l :: l in Report(stats, InitialPrevStats, KeyOrder) ==>
              l.key in stats && l.value == (if l.key in KeepKeys then stats[l.key] else 0.0)
    ensures forall k :: k in stats && k !in KeepKeys ==>
              k in History(stats, InitialPrevStats, KeyOrder)
              && History(stats, InitialPrevStats, KeyOrder)[k] == Some(stats[k])
    ensures forall k :: k in KeepKeys ==>
              k in History(stats, InitialPrevStats, KeyOrder)
              && History(stats, InitialPrevStats, KeyOrder)[k] == None
  {
    InitialConsistent();
    ReportItems(stats, InitialPrevStats, KeyOrder);
    forall k
      ensures k in stats && k !in KeepKeys ==>
                k in History(stats, InitialPrevStats, KeyOrder)
                && History(stats, InitialPrevStats, KeyOrder)[k] == Some(stats[k])
    {
      KeyOrderComplete(k);
      HistoryAt(stats, InitialPrevStats, KeyOrder, k);
    }
    forall k | k in KeepKeys
      ensures k in History(stats, InitialPrevStats, KeyOrder)
              && History(stats, InitialPrevStats, KeyOrder)[k] == None
    {
      HistoryAt(stats, InitialPrevStats, KeyOrder, k);
    }
  }

  /**
   * Two consecutive reports: a counter sampled as `a` and then as `b` is
   * reported as `b - a` the second time, whatever its earlier history and
   * whether or not `b < a` (no wrap-around correction).
   */
  lemma {:induction false} SecondReportIsDelta(first: map<StatKey, real>, second: map<StatKey, real>,
                                               prev: map<StatKey, Option<real>>, k: StatKey)
    requires Consistent(first, prev)
    requires first.Keys <= second.Keys
    requires k in first && k !in KeepKeys
    ensures Consistent(second, History(first, prev, KeyOrder))
    ensures ReportedValue(second, History(first, prev, KeyOrder), k) == second[k] - first[k]
  {
    KeyOrderComplete(k);
    HistoryAt(first, prev, KeyOrder, k);
  }

  /** The reported value of a gauge never depends on the history. */
  lemma {:induction false} GaugeIgnoresHistory(stats: map<StatKey, real>, prev: map<StatKey, Option<real>>,
                                               prev': map<StatKey, Option<real>>, k: StatKey)
    requires Consistent(stats, prev) && Consistent(stats, prev')
    requires k in stats && k in KeepKeys
    ensures ReportedValue(stats, prev, k) == ReportedValue(stats, prev', k) == stats[k]
  {
  }
}
