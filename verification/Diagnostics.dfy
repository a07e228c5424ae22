/** The diagnostics collector's store: rate limits and the report table behind one lock. */
module Diagnostics {
  import opened Prelude
  import opened Sums
  import opened RateLimits
  import Reports
  import Runs

  /** A report that passed the schema; `row` is what would be stored of it. */
  datatype Submission = Submission(createdAt: int, row: Reports.Row)

  datatype Status = NoContent204 | BadRequest400 | TooMany429 | Unavailable503

  /** The window `valid` puts around the creation time. */
  predicate Timely(createdAt: int, now: int) {
    now - 7 * 86400 <= createdAt <= now + 300
  }

  method Total<K>(m: map<K, nat>) returns (n: nat)
    ensures n == Sum(m)
  {
    n := 0;
    var left := m;
    while left != map[]
      invariant n + Sum(left) == Sum(m)
      decreases left.Keys
    {
      var k :| k in left;
      SumRemove(left, k);
      n := n + left[k];
      left := left - {k};
    }
  }

  class Store {
    const maxRows: nat
    var minute: int
    var requests: nat
    var accepted: map<Installation, nat>
    var networkRequests: map<Network, nat>
    var networkAccepted: map<Network, nat>
    var rows: seq<Reports.Row>
    var next: nat

    // Everything admitted, and whether the clock has kept going forwards.
    ghost var run: seq<Meter>
    ghost var steady: bool

    ghost function Counters(): Limits
      reads this
    {
      Limits(minute, requests, accepted, networkRequests, networkAccepted)
    }

    ghost function Table(): Reports.Table
      reads this
    {
      Reports.Table(rows, next)
    }

    ghost function Admitted(): seq<Admission>
      requires run != []
      reads this
    {
      run[|run| - 1].log
    }

    ghost predicate Valid()
      reads this
    {
      && Reports.Valid(Table())
      && run != [] && run[|run| - 1].limits == Counters()
      && (steady ==> Runs.IsRun(Start, Next, run))
    }

    /** While the clock goes forwards, no budget is ever exceeded. */
    lemma WithinBudgets(b: Budget)
      requires Valid() && steady
      ensures Spent(Admitted(), b) <= Cap(b)
    {
      BudgetsHold(run, |run| - 1, b);
    }

    /** Opens a table left by an earlier process and prunes it. */
    constructor (table: Reports.Table, maxRows: nat, now: int)
      requires Reports.Valid(table)
      ensures Valid() && Table() == Reports.Prune(table, now, maxRows) && this.maxRows == maxRows
      ensures Counters() == Reset(FRESH, now / 60) && Admitted() == []
      ensures steady <==> now / 60 >= -1
    {
      this.maxRows := maxRows;
      minute, requests, accepted, networkRequests, networkAccepted := -1, 0, map[], map[], map[];
      rows, next := table.rows, table.next;
      run, steady := [Meter(FRESH, [])], true;
      new;
      PruneTable(now, now);
    }

    ghost method Record(m: Meter)
      requires run != []
      modifies this`run
      ensures run == old(run) + [m]
      ensures Runs.IsRun(Start, Next, old(run)) && Next(old(run)[|old(run)| - 1], m) ==> Runs.IsRun(Start, Next, run)
    {
      run := run + [m];
    }

    /** `reset_limits`, with the clock reading it takes. */
    method ResetLimits(now: int)
      requires Valid()
      modifies this
      ensures Valid() && Table() == old(Table()) && Admitted() == old(Admitted())
      ensures Counters() == Reset(old(Counters()), now / 60)
      ensures steady <==> old(steady) && now / 60 >= old(minute)
    {
      ghost var before := run[|run| - 1];
      var m := now / 60;
      steady := steady && m >= minute;
      if m != minute {
        minute, requests, accepted := m, 0, map[];
        networkRequests, networkAccepted := map[], map[];
      }
      ghost var after := Meter(Counters(), before.log);
      assert steady ==> Step(before, Tick(m), after);
      Record(after);
    }

    /** `allow_request`: a rejected request changes nothing beyond the reset. */
    method AllowRequest(network: Network, now: int) returns (allowed: bool)
      requires Valid()
      modifies this
      ensures Valid() && Table() == old(Table())
      ensures steady <==> old(steady) && now / 60 >= old(minute)
      ensures var l := Reset(old(Counters()), now / 60);
              && allowed == RequestAllowed(l, network)
              && Counters() == (if allowed then CountRequest(l, network) else l)
              && Admitted() == old(Admitted()) + (if allowed then [Request(l.minute, network)] else [])
    {
      ResetLimits(now);
      if At(networkRequests, network) >= REQUESTS_PER_NETWORK || requests >= MAX_REQUESTS {
        return false;
      }
      ghost var before := run[|run| - 1];
      requests := requests + 1;
      networkRequests := networkRequests[network := At(networkRequests, network) + 1];
      ghost var after := Meter(Counters(), before.log + [Request(minute, network)]);
      assert steady ==> Step(before, AdmitRequest(network), after);
      Record(after);
      return true;
    }

    /** `prune`, with the two clock readings it takes. */
    method PruneTable(reset: int, now: int)
      requires Valid()
      modifies this
      ensures Valid() && Table() == Reports.Prune(old(Table()), now, maxRows) && Admitted() == old(Admitted())
      ensures Counters() == Reset(old(Counters()), reset / 60)
      ensures steady <==> old(steady) && reset / 60 >= old(minute)
    {
      ResetLimits(reset);
      Reports.PruneValid(Table(), now, maxRows);
      var live := Reports.Unexpired(rows, now - Reports.RETENTION);
      rows := Reports.Newest(live, maxRows);
    }

    /** Checks the budgets for a new report and, if they allow it, charges them. */
    method Charge(installation: Installation, network: Network) returns (ok: bool)
      requires Valid()
      modifies this
      ensures Valid() && Table() == old(Table()) && steady == old(steady)
      ensures var l := old(Counters());
              && ok == ReportAllowed(l, installation, network)
              && Counters() == (if ok then CountReport(l, installation, network) else l)
              && Admitted() == old(Admitted()) + (if ok then [Report(l.minute, network, installation)] else [])
    {
      var total := Total(accepted);
      if total >= MAX_REPORTS || At(accepted, installation) >= REPORTS_PER_INSTALLATION
         || At(networkAccepted, network) >= REPORTS_PER_NETWORK {
        return false;
      }
      ghost var before := run[|run| - 1];
      accepted := accepted[installation := At(accepted, installation) + 1];
      networkAccepted := networkAccepted[network := At(networkAccepted, network) + 1];
      ghost var after := Meter(Counters(), before.log + [Report(minute, network, installation)]);
      assert steady ==> Step(before, AdmitReport(installation, network), after);
      Record(after);
      return true;
    }

    /** `ingest`. `submission` is None where the schema rejects the document; the clock is read
        at `now`, `reset`, `later` and `cutoff`; `stored` says whether the database takes the
        row (it has a size limit). */
    method Ingest(submission: Option<Submission>, network: Network,
                  now: int, reset: int, later: int, cutoff: int, stored: bool) returns (status: Status)
      requires Valid()
      modifies this
      ensures Valid()
      ensures status == BadRequest400 <==>
                submission.None? || submission.value.createdAt < now - 604800 || submission.value.createdAt > now + 300
      ensures status == BadRequest400 ==> Table() == old(Table()) && Counters() == old(Counters())
      ensures status != BadRequest400 ==>
                var row := submission.value.row.(received := now);
                var l := Reset(old(Counters()), reset / 60);
                var known := Reports.Known(old(Table()), row.installation, row.id);
                && (known ==> status == NoContent204 && Table() == old(Table()) && Counters() == l
                              && Admitted() == old(Admitted()))
                && (!known && !ReportAllowed(l, row.installation, network) ==>
                      && status == TooMany429 && Table() == old(Table()) && Counters() == l
                      && Admitted() == old(Admitted()))
                && (!known && ReportAllowed(l, row.installation, network) ==>
                      && status == (if stored then NoContent204 else Unavailable503)
                      && Admitted() == old(Admitted()) + [Report(l.minute, network, row.installation)]
                      && (stored ==> Table() == Reports.Prune(Reports.Insert(old(Table()), row), cutoff, maxRows)
                                     && Counters() == Reset(CountReport(l, row.installation, network), later / 60))
                      && (!stored ==> Table() == old(Table())
                                      && Counters() == CountReport(l, row.installation, network)))
    {
      if submission.None? || !Timely(submission.value.createdAt, now) {
        return BadRequest400;
      }
      var row := submission.value.row.(received := now);
      ResetLimits(reset);
      if exists r | r in rows :: r.installation == row.installation && r.id == row.id {
        return NoContent204;
      }
      var ok := Charge(row.installation, network);
      if !ok {
        return TooMany429;
      }
      if !stored {
        return Unavailable503;
      }
      Reports.InsertValid(Table(), row);
      rows, next := rows + [row.(sequence := next)], next + 1;
      PruneTable(later, cutoff);
      return NoContent204;
    }

    /** `query`: reads only. */
    method Query(f: Reports.Filter, before: Option<nat>, now: int) returns (page: Reports.Page)
      requires Valid()
      ensures page == Reports.Query(rows, f, before, now)
    {
      var hits := Reports.Select(rows, f, before, now);
      page := if |hits| > Reports.PAGE then Reports.Page(hits[..Reports.PAGE], Some(hits[Reports.PAGE - 1].sequence))
              else Reports.Page(hits, None);
    }
  }
}
