/** The collector's per-minute budgets, and what they bound over whole runs. */
module RateLimits {
  import opened Sums
  import Runs

  type Network = (nat, nat)  // address family and prefix
  type Installation = string

  const MAX_REQUESTS := 600
  const REQUESTS_PER_NETWORK := 60
  const MAX_REPORTS := 120
  const REPORTS_PER_INSTALLATION := 20
  const REPORTS_PER_NETWORK := 20

  datatype Limits = Limits(minute: int, requests: nat, accepted: map<Installation, nat>,
                           networkRequests: map<Network, nat>, networkAccepted: map<Network, nat>)

  const FRESH := Limits(-1, 0, map[], map[], map[])

  /** `reset_limits`, at that minute. */
  function Reset(l: Limits, minute: int): Limits {
    if minute != l.minute then Limits(minute, 0, map[], map[], map[]) else l
  }

  predicate RequestAllowed(l: Limits, network: Network) {
    At(l.networkRequests, network) < REQUESTS_PER_NETWORK && l.requests < MAX_REQUESTS
  }

  function CountRequest(l: Limits, network: Network): Limits {
    l.(requests := l.requests + 1,
       networkRequests := l.networkRequests[network := At(l.networkRequests, network) + 1])
  }

  ghost predicate ReportAllowed(l: Limits, installation: Installation, network: Network) {
    && Sum(l.accepted) < MAX_REPORTS
    && At(l.accepted, installation) < REPORTS_PER_INSTALLATION
    && At(l.networkAccepted, network) < REPORTS_PER_NETWORK
  }

  function CountReport(l: Limits, installation: Installation, network: Network): Limits {
    l.(accepted := l.accepted[installation := At(l.accepted, installation) + 1],
       networkAccepted := l.networkAccepted[network := At(l.networkAccepted, network) + 1])
  }

  // ----- Runs -----

  /** Something the collector let through, in the minute it was counted in. */
  datatype Admission =
    | Request(minute: int, network: Network)
    | Report(minute: int, network: Network, installation: Installation)

  /** What is being counted. */
  datatype Budget =
    | AllRequests(minute: int)
    | NetworkRequests(minute: int, network: Network)
    | AllReports(minute: int)
    | InstallationReports(minute: int, installation: Installation)
    | NetworkReports(minute: int, network: Network)

  predicate Charged(a: Admission, b: Budget) {
    a.minute == b.minute
    && match b
       case AllRequests(_) => a.Request?
       case NetworkRequests(_, n) => a.Request? && a.network == n
       case AllReports(_) => a.Report?
       case InstallationReports(_, i) => a.Report? && a.installation == i
       case NetworkReports(_, n) => a.Report? && a.network == n
  }

  function Spent(log: seq<Admission>, b: Budget): nat {
    if log == [] then 0
    else Spent(log[..|log| - 1], b) + if Charged(log[|log| - 1], b) then 1 else 0
  }

  function Cap(b: Budget): nat {
    match b
    case AllRequests(_) => MAX_REQUESTS
    case NetworkRequests(_, _) => REQUESTS_PER_NETWORK
    case AllReports(_) => MAX_REPORTS
    case InstallationReports(_, _) => REPORTS_PER_INSTALLATION
    case NetworkReports(_, _) => REPORTS_PER_NETWORK
  }

  ghost function Counter(l: Limits, b: Budget): nat {
    match b
    case AllRequests(_) => l.requests
    case NetworkRequests(_, n) => At(l.networkRequests, n)
    case AllReports(_) => Sum(l.accepted)
    case InstallationReports(_, i) => At(l.accepted, i)
    case NetworkReports(_, n) => At(l.networkAccepted, n)
  }

  /** The counters together with everything admitted so far. */
  datatype Meter = Meter(limits: Limits, log: seq<Admission>)

  datatype Call =
    | Tick(minute: int)  // `reset_limits`, from any of the methods
    | AdmitRequest(network: Network)
    | AdmitReport(installation: Installation, network: Network)

  ghost predicate Step(m: Meter, c: Call, n: Meter) {
    match c
    case Tick(minute) => minute >= m.limits.minute && n == m.(limits := Reset(m.limits, minute))
    case AdmitRequest(network) =>
      RequestAllowed(m.limits, network)
      && n == Meter(CountRequest(m.limits, network), m.log + [Request(m.limits.minute, network)])
    case AdmitReport(installation, network) =>
      ReportAllowed(m.limits, installation, network)
      && n == Meter(CountReport(m.limits, installation, network),
                    m.log + [Report(m.limits.minute, network, installation)])
  }

  ghost predicate Start(m: Meter) {
    m == Meter(FRESH, [])
  }

  /** Time does not run backwards between calls. */
  ghost predicate Next(m: Meter, n: Meter) {
    exists c :: Step(m, c, n)
  }

  ghost predicate Inv(m: Meter) {
    && (forall b: Budget | b.minute == m.limits.minute :: Spent(m.log, b) == Counter(m.limits, b))
    && (forall b: Budget | b.minute > m.limits.minute :: Spent(m.log, b) == 0)
    && (forall b: Budget :: Spent(m.log, b) <= Cap(b))
    && m.limits.requests == Sum(m.limits.networkRequests)
    && Sum(m.limits.accepted) == Sum(m.limits.networkAccepted)
  }

  lemma SpentSnoc(log: seq<Admission>, a: Admission, b: Budget)
    ensures Spent(log + [a], b) == Spent(log, b) + if Charged(a, b) then 1 else 0
  {
    assert (log + [a])[..|log|] == log;
  }

  lemma RequestKeeps(m: Meter, network: Network)
    requires Inv(m) && RequestAllowed(m.limits, network)
    ensures Inv(Meter(CountRequest(m.limits, network), m.log + [Request(m.limits.minute, network)]))
  {
    var a := Request(m.limits.minute, network);
    forall b: Budget ensures Spent(m.log + [a], b) == Spent(m.log, b) + if Charged(a, b) then 1 else 0 {
      SpentSnoc(m.log, a, b);
    }
    SumUpdate(m.limits.networkRequests, network, At(m.limits.networkRequests, network) + 1);
    var n := Meter(CountRequest(m.limits, network), m.log + [a]);
    forall b: Budget ensures b.minute == m.limits.minute ==> Spent(n.log, b) == Counter(n.limits, b)
                     ensures Spent(n.log, b) <= Cap(b)
    {
      assert b.minute == m.limits.minute ==> Spent(m.log, b) == Counter(m.limits, b);
    }
  }

  /** Counting a report moves exactly the counters it is charged to. */
  lemma ReportCounter(l: Limits, installation: Installation, network: Network, b: Budget)
    requires b.minute == l.minute
    ensures Counter(CountReport(l, installation, network), b)
            == Counter(l, b) + if Charged(Report(l.minute, network, installation), b) then 1 else 0
  {
    SumUpdate(l.accepted, installation, At(l.accepted, installation) + 1);
  }

  lemma ReportKeeps(m: Meter, installation: Installation, network: Network)
    requires Inv(m) && ReportAllowed(m.limits, installation, network)
    ensures Inv(Meter(CountReport(m.limits, installation, network),
                      m.log + [Report(m.limits.minute, network, installation)]))
  {
    var a := Report(m.limits.minute, network, installation);
    var n := Meter(CountReport(m.limits, installation, network), m.log + [a]);
    SumUpdate(m.limits.accepted, installation, At(m.limits.accepted, installation) + 1);
    SumUpdate(m.limits.networkAccepted, network, At(m.limits.networkAccepted, network) + 1);
    forall b: Budget
      ensures Spent(n.log, b) == Spent(m.log, b) + if Charged(a, b) then 1 else 0
      ensures b.minute == m.limits.minute ==> Spent(n.log, b) == Counter(n.limits, b)
      ensures Spent(n.log, b) <= Cap(b)
    {
      SpentSnoc(m.log, a, b);
      if b.minute == m.limits.minute {
        ReportCounter(m.limits, installation, network, b);
        assert Spent(m.log, b) == Counter(m.limits, b);
      }
    }
  }

  lemma StepKeeps(m: Meter, n: Meter)
    requires Inv(m) && Next(m, n)
    ensures Inv(n)
  {
    var c :| Step(m, c, n);
    match c
    case Tick(_) =>
    case AdmitRequest(network) => RequestKeeps(m, network);
    case AdmitReport(installation, network) => ReportKeeps(m, installation, network);
  }

  /** On every run, in every minute: at most 600 requests, 60 per network, 120 new reports, 20
      per installation and 20 per network; and the totals equal the sums of the maps. */
  lemma BudgetsHold(run: seq<Meter>, i: nat, b: Budget)
    requires Runs.IsRun(Start, Next, run) && i < |run|
    ensures Spent(run[i].log, b)
            <= match b
               case AllRequests(_) => 600
               case NetworkRequests(_, _) => 60
               case AllReports(_) => 120
               case InstallationReports(_, _) => 20
               case NetworkReports(_, _) => 20
    ensures run[i].limits.requests == Sum(run[i].limits.networkRequests)
    ensures Sum(run[i].limits.accepted) == Sum(run[i].limits.networkAccepted)
  {
    RunKeeps(run, i);
    assert Spent(run[i].log, b) <= Cap(b);
  }

  /** A request is admitted exactly while its minute has seen fewer than 600, and fewer than 60
      of its network. */
  lemma RequestsAdmitted(run: seq<Meter>, i: nat, network: Network)
    requires Runs.IsRun(Start, Next, run) && i < |run|
    ensures RequestAllowed(run[i].limits, network) <==>
              && Spent(run[i].log, AllRequests(run[i].limits.minute)) < 600
              && Spent(run[i].log, NetworkRequests(run[i].limits.minute, network)) < 60
  {
    RunKeeps(run, i);
    var m := run[i];
    assert Spent(m.log, AllRequests(m.limits.minute)) == Counter(m.limits, AllRequests(m.limits.minute));
    assert Spent(m.log, NetworkRequests(m.limits.minute, network))
        == Counter(m.limits, NetworkRequests(m.limits.minute, network));
  }

  /** A new report is admitted exactly while its minute has seen fewer than 120, and fewer than
      20 of its installation and of its network. */
  lemma ReportsAdmitted(run: seq<Meter>, i: nat, installation: Installation, network: Network)
    requires Runs.IsRun(Start, Next, run) && i < |run|
    ensures ReportAllowed(run[i].limits, installation, network) <==>
              && Spent(run[i].log, AllReports(run[i].limits.minute)) < 120
              && Spent(run[i].log, InstallationReports(run[i].limits.minute, installation)) < 20
              && Spent(run[i].log, NetworkReports(run[i].limits.minute, network)) < 20
  {
    RunKeeps(run, i);
    var m := run[i];
    assert Spent(m.log, AllReports(m.limits.minute)) == Counter(m.limits, AllReports(m.limits.minute));
    assert Spent(m.log, InstallationReports(m.limits.minute, installation))
        == Counter(m.limits, InstallationReports(m.limits.minute, installation));
    assert Spent(m.log, NetworkReports(m.limits.minute, network))
        == Counter(m.limits, NetworkReports(m.limits.minute, network));
  }

  /** In a minute that has only begun everything is admitted. */
  lemma NewMinuteAdmits(run: seq<Meter>, i: nat, minute: int, installation: Installation, network: Network)
    requires Runs.IsRun(Start, Next, run) && i < |run| && minute > run[i].limits.minute
    ensures RequestAllowed(Reset(run[i].limits, minute), network)
    ensures ReportAllowed(Reset(run[i].limits, minute), installation, network)
    ensures forall b: Budget | b.minute == minute :: Spent(run[i].log, b) == 0
  {
    RunKeeps(run, i);
  }

  lemma RunKeeps(run: seq<Meter>, i: nat)
    requires Runs.IsRun(Start, Next, run) && i < |run|
    ensures Inv(run[i])
  {
    forall m, n | Inv(m) && Next(m, n) ensures Inv(n) {
      StepKeeps(m, n);
    }
    Runs.Always(Start, Next, Inv, run, i);
  }
}
