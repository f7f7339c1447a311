/**
 * The `Container` and `ContainerMonitor` classes of ExconConnection.rb: the
 * registry of live containers, kept in step with successive discovery lists,
 * and the per-stat report loop of `send_stats`.
 */
module Containers {
  import opened Wrappers
  import opened Stats

  /** One entry of the discovery list: its "Id", "Names" and "Image" fields. */
  datatype Discovered = Discovered(id: string, names: seq<string>, image: string)

  /** `name.gsub(/\A\//, '')`: drops one leading slash, if there is one. */
  function StripLeadingSlash(name: string): string
  {
    if |name| > 0 && name[0] == '/' then name[1..] else name
  }

  /** At most one character, and only a leading `/`, is removed. */
  lemma StripRemovesAtMostOneSlash(name: string)
    ensures StripLeadingSlash(name) == name <==> !(|name| > 0 && name[0] == '/')
    ensures StripLeadingSlash(name) != name ==> "/" + StripLeadingSlash(name) == name
    ensures StripLeadingSlash("/" + name) == name
  {
  }

  /** `names.map { ... }`: every name stripped, count and order kept. */
  function StripNames(names: seq<string>): (r: seq<string>)
    ensures |r| == |names|
    ensures forall i :: 0 <= i < |names| ==> r[i] == StripLeadingSlash(names[i])
  {
    if names == [] then [] else [StripLeadingSlash(names[0])] + StripNames(names[1..])
  }

  /** A container as the registry holds it. */
  class Container {
    const cid: string
    const names: seq<string>
    const img: string
    var stats: map<StatKey, real>
    var prevStats: map<StatKey, Option<real>>

    ghost predicate Valid()
      reads this
    {
      Consistent(stats, prevStats)
    }

    /** No history yet: the state of a container just built from discovery. */
    ghost predicate IsCold()
      reads this
    {
      stats == InitialStats && prevStats == InitialPrevStats
    }

    constructor (cid: string, names: seq<string>, image: string)
      ensures this.cid == cid && this.names == names && this.img == image
      ensures IsCold() && Valid()
    {
      this.cid := cid;
      this.names := names;
      this.img := image;
      stats := InitialStats;
      prevStats := InitialPrevStats;
      InitialConsistent();
    }

    /** `calc_difference`: 0 while there is no previous value. */
    function CalcDifference(k: StatKey): (d: real)
      reads this
      requires Valid()
      ensures !HasPrevious(prevStats, k) ==> d == 0.0
      ensures HasPrevious(prevStats, k) ==> k in stats && d == stats[k] - prevStats[k].value
    {
      Difference(stats, prevStats, k)
    }

    /** `set_prev_stats`: remembers the current value of `k`, nothing else. */
    method SetPrevStats(k: StatKey)
      requires Valid()
      modifies this`prevStats
      ensures Valid()
      ensures prevStats == RollForward(stats, old(prevStats), k)
      ensures k in stats ==> prevStats[k] == Some(stats[k])
      ensures forall j :: j != k ==> (j in prevStats <==> j in old(prevStats))
      ensures forall j :: j != k && j in prevStats ==> prevStats[j] == old(prevStats)[j]
    {
      prevStats := prevStats[k := if k in stats then Some(stats[k]) else None];
    }

    /**
     * Stands in for the stats parser: a fetched sample overwrites the keys it
     * carries and keeps the others.
     */
    method RecordStats(sample: map<StatKey, real>)
      requires Valid()
      modifies this`stats
      ensures Valid()
      ensures stats == old(stats) + sample
    {
      stats := stats + sample;
    }
  }

  /** Ruby `cs.any? { |c| c.cid == id }`. */
  predicate HasCid(cs: seq<Container>, id: string)
  {
    exists c :: c in cs && c.cid == id
  }

  /** Some entry of the discovery list carries `id`. */
  predicate Discovers(discovery: seq<Discovered>, id: string)
  {
    exists d :: d in discovery && d.id == id
  }

  predicate DistinctObjects(cs: seq<Container>)
  {
    forall i, j :: 0 <= i < j < |cs| ==> cs[i] != cs[j]
  }

  /** `xs` is `ys` with some elements left out, the rest in the same order. */
  predicate IsSubsequence<T(==)>(xs: seq<T>, ys: seq<T>)
    decreases |ys|
  {
    xs == [] ||
    (ys != [] &&
     (IsSubsequence(xs, ys[1..]) || (xs[0] == ys[0] && IsSubsequence(xs[1..], ys[1..]))))
  }

  lemma {:induction false} SubsequenceReflexive<T>(xs: seq<T>)
    ensures IsSubsequence(xs, xs)
    decreases |xs|
  {
    if xs != [] {
      SubsequenceReflexive(xs[1..]);
    }
  }

  lemma {:induction false} SubsequenceTransitive<T>(xs: seq<T>, ys: seq<T>, zs: seq<T>)
    requires IsSubsequence(xs, ys) && IsSubsequence(ys, zs)
    ensures IsSubsequence(xs, zs)
    decreases |zs|
  {
    if xs != [] {
      if IsSubsequence(ys, zs[1..]) {
        SubsequenceTransitive(xs, ys, zs[1..]);
      } else if IsSubsequence(xs, ys[1..]) {
        SubsequenceTransitive(xs, ys[1..], zs[1..]);
      } else {
        SubsequenceTransitive(xs[1..], ys[1..], zs[1..]);
      }
    }
  }

  /** A container built from `d` and not yet reported on. */
  ghost predicate IsColdFrom(c: Container, d: Discovered)
    reads c
  {
    c.cid == d.id && c.names == StripNames(d.names) && c.img == d.image && c.IsCold() && c.Valid()
  }

  /**
   * `check_for_new_containers` as a value: walks the discovery list in order
   * and appends each container whose cid is not held yet (including the ones
   * appended earlier in the same walk).
   */
  function AddNew(held: seq<Container>, incoming: seq<Container>): seq<Container>
    decreases |incoming|
  {
    if incoming == [] then held
    else
      var next := if HasCid(held, incoming[0].cid) then held else held + [incoming[0]];
      AddNew(next, incoming[1..])
  }

  /**
   * What `check_for_new_containers` promises: the held containers stay, in
   * place; every discovered cid is then held; what is appended comes from the
   * discovery list, in its order, and repeats no cid already there.
   */
  lemma {:induction false} AddNewSpec(held: seq<Container>, incoming: seq<Container>)
    ensures var r := AddNew(held, incoming);
      && |held| <= |r| && r[..|held|] == held
      && (forall c :: c in incoming ==> HasCid(r, c.cid))
      && (forall i :: |held| <= i < |r| ==> r[i] in incoming && !HasCid(held, r[i].cid))
      && (forall i, j :: 0 <= j < i && |held| <= i < |r| ==> r[j].cid != r[i].cid)
      && IsSubsequence(r[|held|..], incoming)
    decreases |incoming|
  {
    if incoming != [] {
      var x := incoming[0];
      var next := if HasCid(held, x.cid) then held else held + [x];
      AddNewSpec(next, incoming[1..]);
      var r := AddNew(next, incoming[1..]);
      assert r == AddNew(held, incoming);
      assert r[..|held|] == held by {
        assert r[..|next|][..|held|] == next[..|held|];
      }
      forall c | c in incoming ensures HasCid(r, c.cid) {
        if c == x {
          if HasCid(held, x.cid) {
            var h :| h in held && h.cid == x.cid;
            assert h == r[..|held|][IndexOf(held, h)];
          } else {
            assert r[|held|] == x;
          }
        }
      }
      forall i | |held| <= i < |r| ensures r[i] in incoming && !HasCid(held, r[i].cid) {
        if i < |next| {
          assert r[i] == x;
        } else {
          assert !HasCid(next, r[i].cid);
          forall h | h in held ensures h.cid != r[i].cid {
            assert h in next;
          }
        }
      }
      forall i, j | 0 <= j < i && |held| <= i < |r| ensures r[j].cid != r[i].cid {
        if i >= |next| {
        } else {
          assert i == |held| && r[i] == x && !HasCid(held, x.cid);
          assert r[j] == held[j];
        }
      }
      if next == held {
        assert IsSubsequence(r[|held|..], incoming[1..]);
      } else {
        assert r[|held|..] == [x] + r[|next|..];
        assert ([x] + r[|next|..])[1..] == r[|next|..];
      }
    }
  }

  function IndexOf(cs: seq<Container>, c: Container): (i: nat)
    requires c in cs
    ensures i < |cs| && cs[i] == c
  {
    if cs[0] == c then 0 else 1 + IndexOf(cs[1..], c)
  }

  /** Ruby `Array#delete`: every element identical to `x` is removed. */
  function Delete(cs: seq<Container>, x: Container): (r: seq<Container>)
    ensures forall c :: c in r ==> c in cs && c != x
    ensures forall c :: c in cs && c != x ==> c in r
    ensures |r| <= |cs|
    ensures x in cs ==> |r| < |cs|
    ensures DistinctObjects(cs) ==> DistinctObjects(r)
    ensures IsSubsequence(r, cs)
  {
    if cs == [] then []
    else
      var rest := Delete(cs[1..], x);
      assert DistinctObjects(cs) ==> cs[0] !in cs[1..] && DistinctObjects(cs[1..]) by {
        if DistinctObjects(cs) {
          forall k | 0 <= k < |cs| - 1 ensures cs[1..][k] != cs[0] {
            assert cs[1..][k] == cs[k + 1];
          }
        }
      }
      if cs[0] == x then rest
      else
        assert ([cs[0]] + rest)[1..] == rest;
        [cs[0]] + rest
  }

  /**
   * `check_for_shutdown_containers` as written: `@containers.each` walks an
   * index while the body deletes from the same array, so after a deletion the
   * next container moves into the current slot and the index still advances
   * past it, leaving that container unexamined in this pass.
   */
  function ShutdownFrom(cs: seq<Container>, i: nat, discovered: seq<Container>): seq<Container>
    decreases |cs| - i
  {
    if i >= |cs| then cs
    else if HasCid(discovered, cs[i].cid) then ShutdownFrom(cs, i + 1, discovered)
    else ShutdownFrom(Delete(cs, cs[i]), i + 1, discovered)
  }

  /**
   * What survives the skipping: a container whose cid is discovered is never
   * removed, nothing is added, and distinct containers stay distinct.
   */
  lemma {:induction false} ShutdownKeepsPresent(cs: seq<Container>, i: nat, discovered: seq<Container>)
    ensures forall c :: c in cs && HasCid(discovered, c.cid) ==> c in ShutdownFrom(cs, i, discovered)
    ensures forall c :: c in ShutdownFrom(cs, i, discovered) ==> c in cs
    ensures DistinctObjects(cs) ==> DistinctObjects(ShutdownFrom(cs, i, discovered))
    decreases |cs| - i
  {
    if i < |cs| {
      if HasCid(discovered, cs[i].cid) {
        ShutdownKeepsPresent(cs, i + 1, discovered);
      } else {
        var cs' := Delete(cs, cs[i]);
        ShutdownKeepsPresent(cs', i + 1, discovered);
        forall c | c in cs && HasCid(discovered, c.cid) ensures c in cs' {
          assert c != cs[i];
        }
      }
    }
  }

  /** The containers that survive the pass keep their relative order. */
  lemma {:induction false} ShutdownKeepsOrder(cs: seq<Container>, i: nat, discovered: seq<Container>)
    ensures IsSubsequence(ShutdownFrom(cs, i, discovered), cs)
    decreases |cs| - i
  {
    if i >= |cs| {
      SubsequenceReflexive(cs);
    } else if HasCid(discovered, cs[i].cid) {
      ShutdownKeepsOrder(cs, i + 1, discovered);
    } else {
      var cs' := Delete(cs, cs[i]);
      ShutdownKeepsOrder(cs', i + 1, discovered);
      SubsequenceTransitive(ShutdownFrom(cs', i + 1, discovered), cs', cs);
    }
  }

  /**
   * The skip itself: a vanished container right after one the pass removes
   * is not examined, so it survives; shown for the registry [a, b].
   */
  lemma ShutdownSkipsNeighbour(a: Container, b: Container, discovered: seq<Container>)
    requires a != b
    requires !HasCid(discovered, a.cid) && !HasCid(discovered, b.cid)
    ensures ShutdownFrom([a, b], 0, discovered) == [b]
  {
    var after := Delete([a, b], a);
    assert after == [b] by {
      assert Delete([a, b][1..], a) == [b] by {
        assert [a, b][1..] == [b];
        assert Delete([b][1..], a) == [];
      }
    }
    assert ShutdownFrom([b], 1, discovered) == [b];
  }

  /** The containers built from a discovery list carry exactly its cids. */
  lemma {:induction false} BuiltCids(cs: seq<Container>, discovery: seq<Discovered>)
    requires |cs| == |discovery|
    requires forall i :: 0 <= i < |cs| ==> cs[i].cid == discovery[i].id
    ensures forall id :: HasCid(cs, id) <==> Discovers(discovery, id)
  {
    forall id ensures HasCid(cs, id) <==> Discovers(discovery, id) {
      if HasCid(cs, id) {
        var c :| c in cs && c.cid == id;
        assert discovery[IndexOf(cs, c)] in discovery;
      }
      if Discovers(discovery, id) {
        var d :| d in discovery && d.id == id;
        var k :| 0 <= k < |discovery| && discovery[k] == d;
        assert cs[k] in cs;
      }
    }
  }

  /** `create_new_container`. */
  method CreateNewContainer(d: Discovered) returns (c: Container)
    ensures fresh(c) && IsColdFrom(c, d)
  {
    c := new Container(d.id, StripNames(d.names), d.image);
  }

  /** `build_container_list`: one fresh, cold container per discovery entry. */
  method BuildContainerList(discovery: seq<Discovered>) returns (cs: seq<Container>)
    ensures |cs| == |discovery|
    ensures forall i :: 0 <= i < |cs| ==> fresh(cs[i]) && IsColdFrom(cs[i], discovery[i])
    ensures DistinctObjects(cs)
    ensures forall id :: HasCid(cs, id) <==> Discovers(discovery, id)
  {
    cs := [];
    for i := 0 to |discovery|
      invariant |cs| == i
      invariant forall j :: 0 <= j < i ==> fresh(cs[j]) && IsColdFrom(cs[j], discovery[j])
      invariant DistinctObjects(cs)
    {
      var c := CreateNewContainer(discovery[i]);
      cs := cs + [c];
    }
    BuiltCids(cs, discovery);
  }

  /** The per-stat loop of `send_stats`, run on one container. */
  method ReportContainer(c: Container) returns (lines: seq<StatLine>)
    requires c.Valid()
    modifies c`prevStats
    ensures c.Valid()
    ensures lines == Report(c.stats, old(c.prevStats), KeyOrder)
    ensures c.prevStats == History(c.stats, old(c.prevStats), KeyOrder)
  {
    lines := [];
    var i := 0;
    while i < |KeyOrder|
      invariant 0 <= i <= |KeyOrder|
      invariant c.Valid()
      invariant lines == Report(c.stats, old(c.prevStats), KeyOrder[..i])
      invariant c.prevStats == History(c.stats, old(c.prevStats), KeyOrder[..i])
    {
      var key := KeyOrder[i];
      assert KeyOrder[..i + 1][..i] == KeyOrder[..i];
      if key in c.stats {
        if key in KeepKeys {
          lines := lines + [StatLine(key, c.stats[key])];
        } else {
          assert c.CalcDifference(key) == Difference(c.stats, old(c.prevStats), key) by {
            assert key !in KeyOrder[..i];
            HistoryAt(c.stats, old(c.prevStats), KeyOrder[..i], key);
          }
          var diff := c.CalcDifference(key);
          lines := lines + [StatLine(key, diff)];
          c.SetPrevStats(key);
        }
      }
      i := i + 1;
    }
    assert KeyOrder[..i] == KeyOrder;
  }

  /** A container's stats after this cycle's fetch; no sample means it timed out. */
  function Sampled(stats: map<StatKey, real>, samples: map<string, map<StatKey, real>>, cid: string)
    : (r: map<StatKey, real>)
    ensures forall k :: k in stats ==> k in r
  {
    if cid in samples then stats + samples[cid] else stats
  }

  /** The body of `send_stats`'s container loop, over every container in turn. */
  method ReportEach(cs: seq<Container>, samples: map<string, map<StatKey, real>>)
    returns (report: seq<seq<StatLine>>)
    requires DistinctObjects(cs)
    requires forall c :: c in cs ==> c.Valid()
    modifies set c | c in cs
    ensures forall c :: c in cs ==> c.Valid()
    ensures |report| == |cs|
    ensures forall j :: 0 <= j < |cs| ==>
              && cs[j].stats == Sampled(old(cs[j].stats), samples, cs[j].cid)
              && Consistent(cs[j].stats, old(cs[j].prevStats))
              && report[j] == Report(cs[j].stats, old(cs[j].prevStats), KeyOrder)
              && cs[j].prevStats == History(cs[j].stats, old(cs[j].prevStats), KeyOrder)
  {
    report := [];
    for i := 0 to |cs|
      invariant |report| == i
      invariant forall c :: c in cs ==> c.Valid()
      invariant forall j :: 0 <= j < i ==>
                  && cs[j].stats == Sampled(old(cs[j].stats), samples, cs[j].cid)
                  && Consistent(cs[j].stats, old(cs[j].prevStats))
                  && report[j] == Report(cs[j].stats, old(cs[j].prevStats), KeyOrder)
                  && cs[j].prevStats == History(cs[j].stats, old(cs[j].prevStats), KeyOrder)
      invariant forall j :: i <= j < |cs| ==> cs[j].stats == old(cs[j].stats) && cs[j].prevStats == old(cs[j].prevStats)
    {
      var c := cs[i];
      if c.cid in samples {
        c.RecordStats(samples[c.cid]);
      }
      var lines := ReportContainer(c);
      report := report + [lines];
    }
  }

  /**
   * The registry `refresh_containers` leaves behind when it already held
   * containers: new ones appended, then the shutdown pass.
   */
  lemma MergedRegistry(held: seq<Container>, incoming: seq<Container>, discovery: seq<Discovered>)
    requires DistinctObjects(held)
    requires forall id :: HasCid(incoming, id) <==> Discovers(discovery, id)
    ensures var merged := ShutdownFrom(AddNew(held, incoming), 0, incoming);
      && DistinctObjects(merged)
      && (forall d :: d in discovery ==> HasCid(merged, d.id))
      && (forall c :: c in held && Discovers(discovery, c.cid) ==> c in merged)
      && (forall c :: c in merged ==> c in held || c in incoming)
  {
    var added := AddNew(held, incoming);
    var merged := ShutdownFrom(added, 0, incoming);
    AddNewSpec(held, incoming);
    ShutdownKeepsPresent(added, 0, incoming);
    forall d | d in discovery ensures HasCid(merged, d.id) {
      assert HasCid(incoming, d.id);
      var x :| x in incoming && x.cid == d.id;
      var c :| c in added && c.cid == d.id;
      assert c in merged;
    }
    forall c | c in held && Discovers(discovery, c.cid) ensures c in merged {
      assert c == added[..|held|][IndexOf(held, c)];
    }
    assert DistinctObjects(added) by {
      forall i, j | 0 <= i < j < |added| ensures added[i] != added[j] {
        if j >= |held| {
          assert added[i].cid != added[j].cid;
        } else {
          assert added[i] == held[i] && added[j] == held[j];
        }
      }
    }
    forall c | c in merged ensures c in held || c in incoming {
      var k := IndexOf(added, c);
      if k < |held| {
        assert c == held[k];
      }
    }
  }

  class ContainerMonitor {
    var containers: seq<Container>

    ghost predicate Valid()
      reads this, containers
    {
      DistinctObjects(containers) && forall c :: c in containers ==> c.Valid()
    }

    /** `ContainerMonitor.new`: starts empty and refreshes once. */
    constructor (discovery: seq<Discovered>)
      ensures Valid()
      ensures |containers| == |discovery|
      ensures forall i :: 0 <= i < |containers| ==> fresh(containers[i]) && IsColdFrom(containers[i], discovery[i])
    {
      var cs := BuildContainerList(discovery);
      containers := cs;
    }

    /** `check_for_new_containers`. */
    method CheckForNewContainers(incoming: seq<Container>)
      modifies this
      ensures containers == AddNew(old(containers), incoming)
    {
      var i := 0;
      while i < |incoming|
        invariant 0 <= i <= |incoming|
        invariant AddNew(containers, incoming[i..]) == AddNew(old(containers), incoming)
      {
        var candidate := incoming[i];
        assert incoming[i..][1..] == incoming[i + 1..];
        if !HasCid(containers, candidate.cid) {
          containers := containers + [candidate];
        }
        i := i + 1;
      }
    }

    /** `check_for_shutdown_containers`, deleting while iterating as written. */
    method CheckForShutdownContainers(discovered: seq<Container>)
      modifies this
      ensures containers == ShutdownFrom(old(containers), 0, discovered)
    {
      var i := 0;
      while i < |containers|
        invariant ShutdownFrom(containers, i, discovered) == ShutdownFrom(old(containers), 0, discovered)
        decreases |containers| - i
      {
        if !HasCid(discovered, containers[i].cid) {
          containers := Delete(containers, containers[i]);
        }
        i := i + 1;
      }
    }

    /**
     * `refresh_containers`: an empty registry is replaced by the discovery
     * list; otherwise new containers are appended first and absent ones
     * removed after, so none of the new ones is removed again.
     */
    method RefreshContainers(discovery: seq<Discovered>)
      requires Valid()
      modifies this
      ensures Valid()
      ensures old(containers) == [] ==>
                |containers| == |discovery|
                && forall i :: 0 <= i < |containers| ==> fresh(containers[i]) && IsColdFrom(containers[i], discovery[i])
      ensures forall d :: d in discovery ==> HasCid(containers, d.id)
      ensures forall c :: c in old(containers) && Discovers(discovery, c.cid) ==> c in containers
      ensures forall c :: c in containers ==>
                c in old(containers) || (fresh(c) && c.IsCold() && Discovers(discovery, c.cid))
    {
      if containers == [] {
        containers := BuildContainerList(discovery);
      } else {
        var incoming := BuildContainerList(discovery);
        ghost var held := containers;
        CheckForNewContainers(incoming);
        CheckForShutdownContainers(incoming);
        MergedRegistry(held, incoming, discovery);
        forall c | c in containers
          ensures c in held || (fresh(c) && c.IsCold() && Discovers(discovery, c.cid))
        {
          if c !in held {
            var m := IndexOf(incoming, c);
            assert IsColdFrom(incoming[m], discovery[m]);
            assert discovery[m] in discovery;
          }
        }
      }
    }

    /**
     * `send_stats`: refresh the registry, then, for every held container in
     * order, take this cycle's sample and run the per-stat loop.  A container
     * already held starts from its own stats and history, a new one from a
     * cold start.
     */
    method SendStats(discovery: seq<Discovered>, samples: map<string, map<StatKey, real>>)
      returns (report: seq<seq<StatLine>>)
      requires Valid()
      modifies this, containers
      ensures Valid()
      ensures forall c :: c in old(containers) && Discovers(discovery, c.cid) ==> c in containers
      ensures forall d :: d in discovery ==> HasCid(containers, d.id)
      ensures forall c :: c in containers && c !in old(containers) ==> Discovers(discovery, c.cid)
      ensures |report| == |containers|
      ensures forall i :: 0 <= i < |containers| ==>
                var c := containers[i];
                var stats0 := if c in old(containers) then old(c.stats) else InitialStats;
                var prev0 := if c in old(containers) then old(c.prevStats) else InitialPrevStats;
                && Consistent(stats0, prev0)
                && c.stats == Sampled(stats0, samples, c.cid)
                && report[i] == Report(c.stats, prev0, KeyOrder)
                && c.prevStats == History(c.stats, prev0, KeyOrder)
    {
      RefreshContainers(discovery);
      forall c | c in containers ensures c in old(containers) || fresh(c) {
      }
      var cs := containers;
      forall j | 0 <= j < |cs|
        ensures cs[j].stats == (if cs[j] in old(containers) then old(cs[j].stats) else InitialStats)
        ensures cs[j].prevStats == (if cs[j] in old(containers) then old(cs[j].prevStats) else InitialPrevStats)
      {
        assert cs[j] in cs;
      }
      label Refreshed:
      report := ReportEach(cs, samples);
      forall j | 0 <= j < |cs|
        ensures var c := cs[j];
                var stats0 := if c in old(containers) then old(c.stats) else InitialStats;
                var prev0 := if c in old(containers) then old(c.prevStats) else InitialPrevStats;
                && stats0 == old@Refreshed(c.stats) && prev0 == old@Refreshed(c.prevStats)
      {
      }
    }
  }
}
