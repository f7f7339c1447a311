/**
 * Driver/Nagios.rb: classifies each container's usage figures against the
 * configured limits, remembers the outcome per container and resource, and
 * builds the passive-check line that reports the worst outcome of a cycle.
 */
module NagiosDriver {
  import opened Limits

  /** The constants OK = 0, WARNING = 1, CRITICAL = 2 and UNKNOWN = 3. */
  datatype Status = Ok | Warning | Critical | Unknown {

    /**
     * The integer value the constant stands for: OK, WARNING and CRITICAL are
     * numbered by severity, and UNKNOWN alone is 3.
     */
    function Code(): (c: int)
      ensures 0 <= c <= 3
      ensures c == 3 <==> this == Unknown
      ensures this != Unknown ==> c == Severity()
    {
      match this
      case Ok => 0
      case Warning => 1
      case Critical => 2
      case Unknown => 3
    }

    /** `%d` of the code: a single decimal digit. */
    function CodeText(): (t: string)
      ensures |t| == 1 && t[0] as int == '0' as int + Code()
    {
      match this
      case Ok => "0"
      case Warning => "1"
      case Critical => "2"
      case Unknown => "3"
    }

    /** The word a message starts with. */
    function Label(): string
    {
      match this
      case Ok => "OK"
      case Warning => "WARNING"
      case Critical => "CRITICAL"
      case Unknown => "UNKNOWN"
    }

    /** Severity for the worst-case rule: OK < WARNING < CRITICAL; UNKNOWN counts as OK. */
    function Severity(): nat
    {
      match this
      case Ok => 0
      case Warning => 1
      case Critical => 2
      case Unknown => 0
    }
  }

  /** The resources `monitorContainerStats` checks, each with its own limit. */
  datatype Resource = CPU | RAM | NETIN | NETOUT | DISK {

    function Name(): string
    {
      match this
      case CPU => "CPU"
      case RAM => "RAM"
      case NETIN => "NETIN"
      case NETOUT => "NETOUT"
      case DISK => "DISK"
    }

    /** The key of the stats hash the usage figure is read from. */
    function StatName(): string
    {
      match this
      case CPU => "cpu_percentage_usage"
      case RAM => "memory_percentage_usage"
      case NETIN => "network_in"
      case NETOUT => "network_out"
      case DISK => "disk_io_service_bytes"
    }

    /** Position in the order of the checks. */
    function Rank(): nat
    {
      match this
      case CPU => 0
      case RAM => 1
      case NETIN => 2
      case NETOUT => 3
      case DISK => 4
    }
  }

  /** The order of the checks in `monitorContainerStats`. */
  const MonitorOrder: seq<Resource> := [CPU, RAM, NETIN, NETOUT, DISK]

  /** `stats[key].to_f`: a missing key reads as `nil.to_f`, that is 0.0. */
  function Usage(stats: map<string, real>, key: string): (u: real)
    ensures key !in stats ==> u == 0.0
    ensures key in stats ==> u == stats[key]
  {
    if key in stats then stats[key] else 0.0
  }

  /**
   * The decision of `validateLimit`, as written.  NOTE the swap: at or above
   * the CRITICAL limit the answer is WARNING, and between the WARNING and the
   * CRITICAL limit it is CRITICAL.  UNKNOWN is never produced.
   */
  function Classify(usage: real, limit: Limits): (s: Status)
    ensures s == Warning <==> usage >= limit.criticalLimit
    ensures s == Critical <==> limit.warningLimit <= usage < limit.criticalLimit
    ensures s == Ok <==> usage < limit.warningLimit && usage < limit.criticalLimit
    ensures s != Unknown
  {
    if usage >= limit.criticalLimit then Warning
    else if usage >= limit.warningLimit then Critical
    else Ok
  }

  /**
   * With the limits in their intended order, a usage at the critical limit
   * is reported as less severe than one at the warning limit.
   */
  lemma SwappedSeverity(limit: Limits)
    requires limit.warningLimit < limit.criticalLimit
    ensures Classify(limit.criticalLimit, limit).Severity() < Classify(limit.warningLimit, limit).Severity()
  {
  }

  /** One message pushed by `validateLimit`. */
  datatype Alert = Alert(level: Status, resource: Resource, cid: string, usage: real)

  /** Alerts whose resources strictly increase in check order. */
  predicate InRankOrder(alerts: seq<Alert>)
  {
    forall i, j :: 0 <= i < j < |alerts| ==> alerts[i].resource.Rank() < alerts[j].resource.Rank()
  }

  /** An alert for `r` placed before alerts for later resources keeps the order. */
  lemma PrependInRankOrder(head: seq<Alert>, r: Resource, rest: seq<Alert>)
    requires |head| <= 1 && forall a :: a in head ==> a.resource == r
    requires forall a :: a in rest ==> r.Rank() < a.resource.Rank()
    requires InRankOrder(rest)
    ensures InRankOrder(head + rest)
  {
    var alerts := head + rest;
    forall i, j | 0 <= i < j < |alerts|
      ensures alerts[i].resource.Rank() < alerts[j].resource.Rank()
    {
      assert alerts[j] == rest[j - |head|];
      if i < |head| {
        assert alerts[i] in head && alerts[j] in rest;
      } else {
        assert alerts[i] == rest[i - |head|];
      }
    }
  }

  /** The message, if any, `validateLimit` pushes. */
  function Check(cid: string, usage: real, resource: Resource, limit: Limits): seq<Alert>
  {
    var level := Classify(usage, limit);
    if level == Ok then [] else [Alert(level, resource, cid, usage)]
  }

  /** Writing all five resources leaves nothing of the earlier entry. */
  lemma OverwriteAll(before: map<Resource, Status>, cpu: Status, ram: Status, netIn: Status, netOut: Status, disk: Status)
    ensures before[CPU := cpu][RAM := ram][NETIN := netIn][NETOUT := netOut][DISK := disk]
            == map[CPU := cpu, RAM := ram, NETIN := netIn, NETOUT := netOut, DISK := disk]
  {
    var after := before[CPU := cpu][RAM := ram][NETIN := netIn][NETOUT := netOut][DISK := disk];
    forall r | r in after ensures r in {CPU, RAM, NETIN, NETOUT, DISK} {
      match r
      case CPU =>
      case RAM =>
      case NETIN =>
      case NETOUT =>
      case DISK =>
    }
  }

  lemma ConcatAssociates<T>(o: seq<T>, a: seq<T>, b: seq<T>, c: seq<T>, d: seq<T>, e: seq<T>)
    ensures o + a + b + c + d + e == o + (a + (b + (c + (d + e))))
  {
  }

  /** "<LEVEL> <RES>: The Container <cid> has % level of <RES>: <usage>". */
  function AlertText(level: Status, resource: Resource, cid: string, usageText: string): string
  {
    (level.Label() + " ")
      + (resource.Name() + ": The Container " + cid + " has % level of " + resource.Name() + ": " + usageText)
  }

  /** A pushed message starts with the level it reports. */
  predicate StartsWithLevel(m: string)
  {
    "WARNING " <= m || "CRITICAL " <= m
  }

  lemma AlertTextStartsWithLevel(level: Status, resource: Resource, cid: string, usageText: string)
    requires level == Warning || level == Critical
    ensures StartsWithLevel(AlertText(level, resource, cid, usageText))
  {
    var head := level.Label() + " ";
    var body := resource.Name() + ": The Container " + cid + " has % level of " + resource.Name() + ": " + usageText;
    assert (head + body)[..|head|] == head;
  }

  /** `msg.join('::')`. */
  function Join(parts: seq<string>, sep: string): string
  {
    if |parts| == 0 then ""
    else if |parts| == 1 then parts[0]
    else parts[0] + sep + Join(parts[1..], sep)
  }

  /** Joining keeps insertion order: a later message goes after the earlier ones. */
  lemma {:induction false} JoinAppend(parts: seq<string>, x: string, sep: string)
    requires parts != []
    ensures Join(parts + [x], sep) == Join(parts, sep) + sep + x
  {
    if |parts| == 1 {
      assert parts + [x] == [parts[0], x];
    } else {
      assert (parts + [x])[1..] == parts[1..] + [x];
      JoinAppend(parts[1..], x, sep);
    }
  }

  lemma {:induction false} JoinStartsWithFirst(parts: seq<string>, sep: string)
    requires parts != []
    ensures parts[0] <= Join(parts, sep)
  {
  }

  const OkMessage: string := "OK: Everything is OK"

  /** The message of `responseExitCode`. */
  function ReportMessage(msg: seq<string>): string
  {
    if msg == [] then OkMessage else Join(msg, "::")
  }

  /**
   * The "everything is OK" text is sent exactly when no message was pushed:
   * every pushed message starts with WARNING or CRITICAL, so no join of them
   * can be mistaken for it.
   */
  lemma ReportMessageIsOkIffEmpty(msg: seq<string>)
    requires forall m :: m in msg ==> StartsWithLevel(m)
    ensures ReportMessage(msg) == OkMessage <==> msg == []
  {
    if msg != [] {
      JoinStartsWithFirst(msg, "::");
      var j := Join(msg, "::");
      assert StartsWithLevel(msg[0]);
      assert j[0] == msg[0][0];
      assert j[0] == 'W' || j[0] == 'C';
      assert OkMessage[0] == 'O';
    }
  }

  /** The passive-check line: host, service, code and message, tab-separated. */
  function Payload(hostname: string, exit: Status, message: string): string
  {
    hostname + "\t" + "Docker Stats" + "\t" + exit.CodeText() + "\t" + message + "\n"
  }

  predicate NoTab(s: string)
  {
    '\t' !in s
  }

  /** The fields of `s` between tab characters. */
  function Fields(s: string): (r: seq<string>)
    ensures |r| >= 1
  {
    if s == [] then [""]
    else
      var rest := Fields(s[1..]);
      if s[0] == '\t' then [""] + rest else [[s[0]] + rest[0]] + rest[1..]
  }

  lemma {:induction false} FieldsOfTabFree(a: string)
    requires NoTab(a)
    ensures Fields(a) == [a]
  {
    if a != [] {
      FieldsOfTabFree(a[1..]);
      assert [a[0]] + a[1..] == a;
    }
  }

  lemma {:induction false} FieldsAfterTab(a: string, b: string)
    requires NoTab(a)
    ensures Fields(a + "\t" + b) == [a] + Fields(b)
  {
    if a == [] {
      assert a + "\t" + b == "\t" + b;
      assert ("\t" + b)[1..] == b;
    } else {
      FieldsAfterTab(a[1..], b);
      assert (a + "\t" + b)[1..] == a[1..] + "\t" + b;
      assert [a[0]] + a[1..] == a;
    }
  }

  /**
   * The payload reads back as its four fields when neither the host name nor
   * the message contains a tab.
   */
  lemma PayloadFields(hostname: string, exit: Status, message: string)
    requires NoTab(hostname) && NoTab(message)
    ensures Fields(Payload(hostname, exit, message))
            == [hostname, "Docker Stats", exit.CodeText(), message + "\n"]
  {
    var c := exit.CodeText();
    var tail := message + "\n";
    assert NoTab(tail);
    assert NoTab(c);
    assert Payload(hostname, exit, message) == hostname + "\t" + ("Docker Stats" + "\t" + (c + "\t" + tail));
    FieldsAfterTab(hostname, "Docker Stats" + "\t" + (c + "\t" + tail));
    FieldsAfterTab("Docker Stats", c + "\t" + tail);
    FieldsAfterTab(c, tail);
    FieldsOfTabFree(tail);
  }

  lemma AllResourcesMonitored()
    ensures forall r: Resource :: r in MonitorOrder
  {
    forall r: Resource ensures r in MonitorOrder {
      assert MonitorOrder[r.Rank()] == r;
    }
  }

  /**
   * The exit field of the payload is the digit of the worst recorded outcome:
   * 0, 1 or 2, never 3.
   */
  lemma ExitFieldIsWorstCode(hostname: string, status: map<string, map<Resource, Status>>, message: string)
    requires NoTab(hostname) && NoTab(message)
    ensures |Fields(Payload(hostname, StatusExit(status), message))| == 4
    ensures var f := Fields(Payload(hostname, StatusExit(status), message))[2];
      && f == StatusExit(status).CodeText()
      && f in {"0", "1", "2"}
      && forall cid, r :: cid in status && r in status[cid] ==>
           status[cid][r].Severity() <= f[0] as int - '0' as int
  {
    PayloadFields(hostname, StatusExit(status), message);
    StatusExitIsWorst(status);
  }

  /** Some container has `s` among its per-resource outcomes (`has_value?`). */
  predicate AnyHas(status: map<string, map<Resource, Status>>, s: Status)
  {
    exists cid :: cid in status && s in status[cid].Values
  }

  /** The worst-case rule `getStatusExit` implements. */
  function StatusExit(status: map<string, map<Resource, Status>>): Status
  {
    if AnyHas(status, Critical) then Critical
    else if AnyHas(status, Warning) then Warning
    else Ok
  }

  /**
   * The exit status is the most severe recorded outcome (UNKNOWN counting as
   * OK), never UNKNOWN itself, and OK when nothing was recorded.
   */
  lemma StatusExitIsWorst(status: map<string, map<Resource, Status>>)
    ensures StatusExit(status) in {Ok, Warning, Critical}
    ensures forall cid, r :: cid in status && r in status[cid] ==>
              status[cid][r].Severity() <= StatusExit(status).Severity()
    ensures StatusExit(status) == Ok ||
            exists cid, r :: cid in status && r in status[cid] && status[cid][r] == StatusExit(status)
    ensures status == map[] ==> StatusExit(status) == Ok
  {
    forall cid, r | cid in status && r in status[cid]
      ensures status[cid][r].Severity() <= StatusExit(status).Severity()
    {
      assert status[cid][r] in status[cid].Values;
    }
    if StatusExit(status) != Ok {
      var s := StatusExit(status);
      var cid :| cid in status && s in status[cid].Values;
      var r :| r in status[cid] && status[cid][r] == s;
    }
  }

  class Nagios {
    const nagiosServer: string
    const cpuLimit: Limits
    const ramLimit: Limits
    const netInLimit: Limits
    const netOutLimit: Limits
    const diskLimit: Limits
    const hostname: string
    /** How a usage figure is written into a message. */
    const renderUsage: real -> string
    var status: map<string, map<Resource, Status>>
    /** `@msg`, each message kept as the alert it spells out (see `Text`). */
    var msg: seq<Alert>

    /** Every pushed message reports WARNING or CRITICAL. */
    ghost predicate Valid()
      reads this
    {
      forall a :: a in msg ==> a.level == Warning || a.level == Critical
    }

    constructor (server: string, cpuLimits: Limits, ramLimits: Limits, diskLimits: Limits,
                 netInLimits: Limits, netOutLimits: Limits, hostname: string, renderUsage: real -> string)
      ensures nagiosServer == server && this.hostname == hostname && this.renderUsage == renderUsage
      ensures cpuLimit == cpuLimits && ramLimit == ramLimits && diskLimit == diskLimits
      ensures netInLimit == netInLimits && netOutLimit == netOutLimits
      ensures status == map[] && msg == [] && Valid()
    {
      nagiosServer := server;
      cpuLimit := cpuLimits;
      ramLimit := ramLimits;
      netInLimit := netInLimits;
      netOutLimit := netOutLimits;
      diskLimit := diskLimits;
      this.hostname := hostname;
      this.renderUsage := renderUsage;
      status := map[];
      msg := [];
    }

    function LimitFor(r: Resource): Limits
    {
      match r
      case CPU => cpuLimit
      case RAM => ramLimit
      case NETIN => netInLimit
      case NETOUT => netOutLimit
      case DISK => diskLimit
    }

    function Text(a: Alert): string
    {
      AlertText(a.level, a.resource, a.cid, renderUsage(a.usage))
    }

    function Texts(alerts: seq<Alert>): (r: seq<string>)
      ensures |r| == |alerts|
      ensures forall i :: 0 <= i < |alerts| ==> r[i] == Text(alerts[i])
    {
      if alerts == [] then [] else [Text(alerts[0])] + Texts(alerts[1..])
    }

    /** The alert, if any, that checking resource `r` of `cid` raises. */
    function AlertOf(cid: string, stats: map<string, real>, r: Resource): seq<Alert>
    {
      Check(cid, Usage(stats, r.StatName()), r, LimitFor(r))
    }

    /** The alerts `monitorContainerStats` raises for `cid`, checking `rs` in order. */
    function AlertsFor(cid: string, stats: map<string, real>, rs: seq<Resource>): seq<Alert>
    {
      if rs == [] then [] else AlertOf(cid, stats, rs[0]) + AlertsFor(cid, stats, rs[1..])
    }

    lemma AlertsForCons(cid: string, stats: map<string, real>, r: Resource, rs: seq<Resource>)
      ensures AlertsFor(cid, stats, [r] + rs) == AlertOf(cid, stats, r) + AlertsFor(cid, stats, rs)
    {
      assert ([r] + rs)[1..] == rs;
    }

    lemma AlertsForMonitorOrder(cid: string, stats: map<string, real>)
      ensures AlertsFor(cid, stats, MonitorOrder)
              == AlertOf(cid, stats, CPU) + (AlertOf(cid, stats, RAM) + (AlertOf(cid, stats, NETIN)
                 + (AlertOf(cid, stats, NETOUT) + AlertOf(cid, stats, DISK))))
    {
      assert MonitorOrder == [CPU] + ([RAM] + ([NETIN] + ([NETOUT] + ([DISK] + []))));
      AlertsForCons(cid, stats, DISK, []);
      AlertsForCons(cid, stats, NETOUT, [DISK] + []);
      AlertsForCons(cid, stats, NETIN, [NETOUT] + ([DISK] + []));
      AlertsForCons(cid, stats, RAM, [NETIN] + ([NETOUT] + ([DISK] + [])));
      AlertsForCons(cid, stats, CPU, [RAM] + ([NETIN] + ([NETOUT] + ([DISK] + []))));
    }


    /**
     * Every alert of one container carries that container, one of the checked
     * resources, its usage and its classification, which is never OK.
     */
    lemma {:induction false} AlertsForSound(cid: string, stats: map<string, real>, rs: seq<Resource>)
      ensures forall a :: a in AlertsFor(cid, stats, rs) ==>
                a.cid == cid && a.resource in rs
                && a.usage == Usage(stats, a.resource.StatName())
                && a.level == Classify(a.usage, LimitFor(a.resource)) && a.level != Ok
    {
      if rs != [] {
        AlertsForSound(cid, stats, rs[1..]);
      }
    }

    /** Every checked resource whose classification is not OK raises an alert. */
    lemma {:induction false} AlertsForComplete(cid: string, stats: map<string, real>, rs: seq<Resource>)
      ensures forall r :: r in rs && Classify(Usage(stats, r.StatName()), LimitFor(r)) != Ok ==>
                exists a :: a in AlertsFor(cid, stats, rs) && a.resource == r
    {
      if rs != [] {
        AlertsForComplete(cid, stats, rs[1..]);
        var alerts := AlertsFor(cid, stats, rs);
        forall r | r in rs && Classify(Usage(stats, r.StatName()), LimitFor(r)) != Ok
          ensures exists a :: a in alerts && a.resource == r
        {
          if r == rs[0] {
            var a := AlertOf(cid, stats, r)[0];
            assert alerts[0] == a;
          } else {
            assert r in rs[1..];
            var a :| a in AlertsFor(cid, stats, rs[1..]) && a.resource == r;
            assert a in alerts;
          }
        }
      }
    }

    /**
     * Alerts come in the order the resources are checked: at most one per
     * resource when the resources are distinct.
     */
    lemma {:induction false} AlertsForOrdered(cid: string, stats: map<string, real>, rs: seq<Resource>)
      requires forall i, j :: 0 <= i < j < |rs| ==> rs[i].Rank() < rs[j].Rank()
      ensures InRankOrder(AlertsFor(cid, stats, rs))
    {
      if rs != [] {
        var tail := rs[1..];
        AlertsForOrdered(cid, stats, tail);
        AlertsForSound(cid, stats, tail);
        var rest := AlertsFor(cid, stats, tail);
        forall a | a in rest ensures rs[0].Rank() < a.resource.Rank() {
          var k :| 0 <= k < |tail| && tail[k] == a.resource;
          assert tail[k] == rs[k + 1];
        }
        PrependInRankOrder(AlertOf(cid, stats, rs[0]), rs[0], rest);
      }
    }

    /** The outcome of checking resource `r`. */
    function Outcome(stats: map<string, real>, r: Resource): Status
    {
      Classify(Usage(stats, r.StatName()), LimitFor(r))
    }

    /** The outcomes `monitorContainerStats` records for one container. */
    function Outcomes(stats: map<string, real>): map<Resource, Status>
    {
      map[CPU := Outcome(stats, CPU), RAM := Outcome(stats, RAM), NETIN := Outcome(stats, NETIN),
          NETOUT := Outcome(stats, NETOUT), DISK := Outcome(stats, DISK)]
    }

    /**
     * Every resource gets an outcome: its usage (0 when the stats lack the
     * key) classified against its own limit, never UNKNOWN.
     */
    lemma OutcomesCoverEveryResource(stats: map<string, real>)
      ensures forall r :: r in Outcomes(stats)
      ensures forall r :: Outcomes(stats)[r] == Classify(Usage(stats, r.StatName()), LimitFor(r))
      ensures Unknown !in Outcomes(stats).Values
    {
      forall r ensures r in Outcomes(stats) && Outcomes(stats)[r] == Outcome(stats, r) {
        match r
        case CPU =>
        case RAM =>
        case NETIN =>
        case NETOUT =>
        case DISK =>
      }
    }

    /** `reset`: a new cycle starts with no messages and no outcomes. */
    method Reset()
      modifies this
      ensures msg == [] && status == map[] && Valid()
    {
      msg := [];
      status := map[];
    }

    /** `validateLimit`: classifies and pushes a message unless the outcome is OK. */
    method ValidateLimit(cid: string, usage: real, resource: Resource, limit: Limits) returns (s: Status)
      requires Valid()
      modifies this`msg
      ensures Valid()
      ensures s == Classify(usage, limit)
      ensures msg == old(msg) + Check(cid, usage, resource, limit)
    {
      s := Unknown;
      if usage >= limit.criticalLimit {
        // labelled and returned as WARNING although the critical limit is reached
        msg := msg + [Alert(Warning, resource, cid, usage)];
        s := Warning;
      } else if usage >= limit.warningLimit {
        // labelled and returned as CRITICAL although only the warning limit is reached
        msg := msg + [Alert(Critical, resource, cid, usage)];
        s := Critical;
      } else {
        s := Ok;
      }
    }

    /** The per-resource outcomes recorded for `cid` so far (the intended empty default). */
    function Recorded(cid: string): map<Resource, Status>
      reads this
    {
      if cid in status then status[cid] else map[]
    }

    /**
     * `monitorContainerStats`: checks CPU, RAM, NETIN, NETOUT and DISK in that
     * order, each against its own limit, and records all five outcomes under
     * `cid`.
     */
    method MonitorContainerStats(cid: string, stats: map<string, real>)
      requires Valid()
      modifies this
      ensures Valid()
      ensures status == old(status)[cid := Outcomes(stats)]
      ensures msg == old(msg) + AlertsFor(cid, stats, MonitorOrder)
    {
      var cpu := ValidateLimit(cid, Usage(stats, CPU.StatName()), CPU, LimitFor(CPU));
      var ram := ValidateLimit(cid, Usage(stats, RAM.StatName()), RAM, LimitFor(RAM));
      var netIn := ValidateLimit(cid, Usage(stats, NETIN.StatName()), NETIN, LimitFor(NETIN));
      var netOut := ValidateLimit(cid, Usage(stats, NETOUT.StatName()), NETOUT, LimitFor(NETOUT));
      var disk := ValidateLimit(cid, Usage(stats, DISK.StatName()), DISK, LimitFor(DISK));
      status := status[cid := Recorded(cid)[CPU := cpu][RAM := ram][NETIN := netIn][NETOUT := netOut][DISK := disk]];
      OverwriteAll(old(Recorded(cid)), cpu, ram, netIn, netOut, disk);
      AlertsForMonitorOrder(cid, stats);
      ConcatAssociates(old(msg), AlertOf(cid, stats, CPU), AlertOf(cid, stats, RAM), AlertOf(cid, stats, NETIN),
                       AlertOf(cid, stats, NETOUT), AlertOf(cid, stats, DISK));
    }

    /** `getStatusExit`: the worst outcome, stopping at the first CRITICAL. */
    method GetStatusExit() returns (r: Status)
      ensures r == StatusExit(status)
    {
      r := Ok;
      var todo := status.Keys;
      while todo != {}
        invariant todo <= status.Keys
        invariant r == Ok || r == Warning
        invariant forall cid :: cid in status && cid !in todo ==> Critical !in status[cid].Values
        invariant r == Warning <==> exists cid :: cid in status && cid !in todo && Warning in status[cid].Values
        decreases todo
      {
        var cid :| cid in todo;
        if Critical in status[cid].Values {
          r := Critical;
          break;
        } else if Warning in status[cid].Values {
          r := Warning;
        }
        todo := todo - {cid};
      }
    }

    /**
     * The report reads "OK: Everything is OK" exactly when no message was
     * pushed during the cycle.
     */
    lemma OkMessageIffNoAlerts()
      requires Valid()
      ensures ReportMessage(Texts(msg)) == OkMessage <==> msg == []
    {
      var texts := Texts(msg);
      forall m | m in texts ensures StartsWithLevel(m) {
        var i :| 0 <= i < |texts| && texts[i] == m;
        AlertTextStartsWithLevel(msg[i].level, msg[i].resource, msg[i].cid, renderUsage(msg[i].usage));
      }
      ReportMessageIsOkIffEmpty(texts);
    }

    /** The line `responseExitCode` hands to the passive-check submitter. */
    method ResponseExitCode() returns (payload: string)
      ensures payload == Payload(hostname, StatusExit(status), ReportMessage(Texts(msg)))
    {
      var message := "";
      if msg == [] {
        message := OkMessage;
      } else {
        message := Join(Texts(msg), "::");
      }
      var statusExit := GetStatusExit();
      payload := hostname + "\t" + "Docker Stats" + "\t" + statusExit.CodeText() + "\t" + message + "\n";
    }
  }
}
