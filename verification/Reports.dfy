/** The collector's table of reports: retention, deduplication and paging. */
module Reports {
  import opened Prelude

  const RETENTION := 14 * 86400
  const PAGE := 50

  datatype Row = Row(sequence: nat, received: int, installation: string, id: string,
                     platform: string, version: string, build: string, code: string, body: string)

  /** The table in order of sequence number, and the next number to be given. */
  datatype Table = Table(rows: seq<Row>, next: nat)

  predicate Precedes(a: Row, b: Row) {
    a.sequence < b.sequence && (a.installation, a.id) != (b.installation, b.id)
  }

  /** Sequence numbers ascend below `next`, and no installation reports an id twice. */
  ghost predicate Valid(t: Table) {
    && (forall i, j | 0 <= i < j < |t.rows| :: Precedes(t.rows[i], t.rows[j]))
    && (forall r | r in t.rows :: r.sequence < t.next)
  }

  predicate Known(t: Table, installation: string, id: string) {
    exists r | r in t.rows :: r.installation == installation && r.id == id
  }

  function Insert(t: Table, r: Row): Table {
    Table(t.rows + [r.(sequence := t.next)], t.next + 1)
  }

  // ----- Retention -----

  /** `DELETE ... WHERE received <= cutoff`. */
  function Unexpired(rows: seq<Row>, cutoff: int): seq<Row> {
    if rows == [] then []
    else Unexpired(rows[..|rows| - 1], cutoff)
         + if rows[|rows| - 1].received > cutoff then [rows[|rows| - 1]] else []
  }

  /** All but the newest `n` rows deleted. */
  function Newest(rows: seq<Row>, n: nat): seq<Row> {
    rows[if |rows| > n then |rows| - n else 0..]
  }

  function Prune(t: Table, now: int, maxRows: nat): Table {
    t.(rows := Newest(Unexpired(t.rows, now - RETENTION), maxRows))
  }

  lemma {:induction false} UnexpiredMembers(rows: seq<Row>, cutoff: int, r: Row)
    ensures r in Unexpired(rows, cutoff) <==> r in rows && r.received > cutoff
  {
    if rows != [] {
      var n := |rows| - 1;
      UnexpiredMembers(rows[..n], cutoff, r);
      assert rows == rows[..n] + [rows[n]];
    }
  }

  /** Expiry keeps a subsequence: order and uniqueness survive. */
  lemma {:induction false} UnexpiredValid(t: Table, cutoff: int)
    requires Valid(t)
    ensures Valid(t.(rows := Unexpired(t.rows, cutoff)))
    decreases |t.rows|
  {
    if t.rows != [] {
      var n := |t.rows| - 1;
      var init := t.(rows := t.rows[..n]);
      UnexpiredValid(init, cutoff);
      var rest := Unexpired(init.rows, cutoff);
      forall i | 0 <= i < |rest| ensures Precedes(rest[i], t.rows[n]) {
        UnexpiredMembers(init.rows, cutoff, rest[i]);
      }
    }
  }

  lemma PruneValid(t: Table, now: int, maxRows: nat)
    requires Valid(t)
    ensures Valid(Prune(t, now, maxRows)) && |Prune(t, now, maxRows).rows| <= maxRows
  {
    UnexpiredValid(t, now - RETENTION);
  }

  /** The unexpired rows with a greater sequence number. */
  ghost function Newer(t: Table, cutoff: int, r: Row): set<Row> {
    set q | q in t.rows && q.received > cutoff && q.sequence > r.sequence
  }

  lemma {:induction false} SetOfSlice(rows: seq<Row>, k: nat)
    requires k <= |rows| && forall i, j | 0 <= i < j < |rows| :: Precedes(rows[i], rows[j])
    ensures |set i | k <= i < |rows| :: rows[i]| == |rows| - k
    decreases |rows| - k
  {
    var s := set i | k <= i < |rows| :: rows[i];
    if k < |rows| {
      SetOfSlice(rows, k + 1);
      assert s == {rows[k]} + set i | k + 1 <= i < |rows| :: rows[i];
    }
  }

  lemma NewerIsTail(t: Table, cutoff: int, k: nat)
    requires Valid(t) && k < |Unexpired(t.rows, cutoff)|
    ensures var live := Unexpired(t.rows, cutoff); |Newer(t, cutoff, live[k])| == |live| - k - 1
  {
    var live := Unexpired(t.rows, cutoff);
    UnexpiredValid(t, cutoff);
    var tail := set i | k + 1 <= i < |live| :: live[i];
    forall q ensures q in Newer(t, cutoff, live[k]) <==> q in tail {
      UnexpiredMembers(t.rows, cutoff, q);
      if q in live {
        var i :| 0 <= i < |live| && live[i] == q;
      }
    }
    assert Newer(t, cutoff, live[k]) == tail;
    SetOfSlice(live, k + 1);
  }

  /** A row survives pruning exactly when it is unexpired and fewer than `maxRows` unexpired
      rows are newer. */
  lemma PruneKeepsExactly(t: Table, now: int, maxRows: nat, r: Row)
    requires Valid(t)
    ensures r in Prune(t, now, maxRows).rows
            <==> r in t.rows && r.received > now - 1209600 && |Newer(t, now - 1209600, r)| < maxRows
  {
    var cutoff := now - RETENTION;
    var live := Unexpired(t.rows, cutoff);
    var kept := Newest(live, maxRows);
    var d := |live| - |kept|;
    assert forall i | 0 <= i < |kept| :: kept[i] == live[d + i];
    UnexpiredMembers(t.rows, cutoff, r);
    if r in live {
      UnexpiredValid(t, cutoff);
      var k :| 0 <= k < |live| && live[k] == r;
      NewerIsTail(t, cutoff, k);
      if k >= d {
        assert kept[k - d] == r;
      }
    }
  }

  /** A report that was just inserted survives the pruning that follows it, unless a whole
      retention period passes in between. */
  lemma NewReportIsStored(t: Table, r: Row, now: int, maxRows: nat)
    requires Valid(t) && !Known(t, r.installation, r.id)
    requires maxRows >= 1 && now - r.received < 1209600
    ensures r.(sequence := t.next) in Prune(Insert(t, r), now, maxRows).rows
  {
    var stored := r.(sequence := t.next);
    var u := Insert(t, r);
    InsertValid(t, r);
    assert u.rows[|t.rows|] == stored;
    PruneKeepsExactly(u, now, maxRows, stored);
    assert Newer(u, now - RETENTION, stored) == {};
  }

  // ----- Paging -----

  datatype Filter = Filter(platform: Option<string>, version: Option<string>, build: Option<string>,
                           code: Option<string>, installation: Option<string>)

  predicate Wants(wanted: Option<string>, actual: string) {
    wanted.Some? ==> wanted.value == actual
  }

  predicate Selects(f: Filter, r: Row) {
    Wants(f.platform, r.platform) && Wants(f.version, r.version) && Wants(f.build, r.build)
    && Wants(f.code, r.code) && Wants(f.installation, r.installation)
  }

  predicate Hit(r: Row, f: Filter, before: Option<nat>, now: int) {
    r.received > now - RETENTION && Selects(f, r) && (before.Some? ==> r.sequence < before.value)
  }

  /** What a query selects: rows received within the last fourteen days, with every given filter
      equal to the row's own field, below the cursor. */
  lemma HitMeans(r: Row, f: Filter, before: Option<nat>, now: int)
    ensures Hit(r, f, before, now) <==>
              && r.received > now - 1209600
              && (f.platform == None || f.platform == Some(r.platform))
              && (f.version == None || f.version == Some(r.version))
              && (f.build == None || f.build == Some(r.build))
              && (f.code == None || f.code == Some(r.code))
              && (f.installation == None || f.installation == Some(r.installation))
              && (before == None || r.sequence < before.value)
  {
  }

  /** The selected rows, newest first. */
  function Hits(rows: seq<Row>, f: Filter, before: Option<nat>, now: int): seq<Row> {
    if rows == [] then []
    else
      var n := |rows| - 1;
      (if Hit(rows[n], f, before, now) then [rows[n]] else []) + Hits(rows[..n], f, before, now)
  }

  datatype Page = Page(reports: seq<Row>, next: Option<nat>)

  /** `query`: the statement is limited to 51 rows, of which 50 are shown. */
  function Query(rows: seq<Row>, f: Filter, before: Option<nat>, now: int): Page {
    var all := Hits(rows, f, before, now);
    var hits := if |all| > PAGE + 1 then all[..PAGE + 1] else all;
    if |hits| > PAGE then Page(hits[..PAGE], Some(hits[PAGE - 1].sequence)) else Page(hits, None)
  }

  /** The hits among the first `k` rows are the last of them, if it is one, before the others. */
  lemma SelectStep(rows: seq<Row>, f: Filter, before: Option<nat>, now: int, k: nat, hits: seq<Row>, all: seq<Row>)
    requires 0 < k <= |rows| && hits + Hits(rows[..k], f, before, now) == all
    ensures (if Hit(rows[k - 1], f, before, now) then hits + [rows[k - 1]] else hits)
            + Hits(rows[..k - 1], f, before, now) == all
  {
    var rest := Hits(rows[..k - 1], f, before, now);
    assert rows[..k][..k - 1] == rows[..k - 1];
    assert hits + ([rows[k - 1]] + rest) == hits + [rows[k - 1]] + rest;
    assert [] + rest == rest;
  }

  /** The statement itself: newest rows first, until one more than a page has matched. */
  method Select(rows: seq<Row>, f: Filter, before: Option<nat>, now: int) returns (hits: seq<Row>)
    ensures var all := Hits(rows, f, before, now); hits == if |all| > PAGE + 1 then all[..PAGE + 1] else all
  {
    ghost var all := Hits(rows, f, before, now);
    hits := [];
    var k := |rows|;
    assert rows[..k] == rows && [] + all == all;
    while k > 0 && |hits| <= PAGE
      invariant 0 <= k <= |rows| && |hits| <= PAGE + 1
      invariant hits + Hits(rows[..k], f, before, now) == all
    {
      SelectStep(rows, f, before, now, k, hits, all);
      k := k - 1;
      if Hit(rows[k], f, before, now) {
        hits := hits + [rows[k]];
      }
    }
    assert all[..|hits|] == hits;
    assert k == 0 ==> all == hits;
  }

  lemma {:induction false} HitsMembers(rows: seq<Row>, f: Filter, before: Option<nat>, now: int, r: Row)
    ensures r in Hits(rows, f, before, now) <==> r in rows && Hit(r, f, before, now)
  {
    if rows != [] {
      var n := |rows| - 1;
      HitsMembers(rows[..n], f, before, now, r);
      assert rows == rows[..n] + [rows[n]];
    }
  }

  ghost predicate Descending(rows: seq<Row>) {
    forall i, j | 0 <= i < j < |rows| :: rows[i].sequence > rows[j].sequence
  }

  lemma {:induction false} HitsDescend(rows: seq<Row>, f: Filter, before: Option<nat>, now: int)
    requires forall i, j | 0 <= i < j < |rows| :: Precedes(rows[i], rows[j])
    ensures Descending(Hits(rows, f, before, now))
  {
    if rows != [] {
      var n := |rows| - 1;
      var rest := Hits(rows[..n], f, before, now);
      HitsDescend(rows[..n], f, before, now);
      forall r | r in rest ensures r.sequence < rows[n].sequence {
        HitsMembers(rows[..n], f, before, now, r);
        var i :| 0 <= i < n && rows[i] == r;
      }
      DescendingCons(rows[n], rest);
      assert [] + rest == rest;
    }
  }

  lemma DescendingCons(r: Row, rest: seq<Row>)
    requires Descending(rest) && forall q | q in rest :: q.sequence < r.sequence
    ensures Descending([r] + rest)
  {
    var all := [r] + rest;
    forall i, j | 0 <= i < j < |all| ensures all[i].sequence > all[j].sequence {
      assert all[j] == rest[j - 1] && (i > 0 ==> all[i] == rest[i - 1]);
    }
  }

  lemma {:induction false} Spread(rows: seq<Row>, k: nat)
    requires k < |rows| && Descending(rows)
    ensures rows[k].sequence >= rows[|rows| - 1].sequence + (|rows| - 1 - k)
    decreases |rows| - k
  {
    if k < |rows| - 1 {
      Spread(rows, k + 1);
      assert rows[k].sequence > rows[k + 1].sequence;
    }
  }

  lemma PageIsPrefix(rows: seq<Row>, f: Filter, before: Option<nat>, now: int)
    ensures var all, p := Hits(rows, f, before, now), Query(rows, f, before, now);
            && p.reports <= all && |p.reports| == (if |all| > PAGE then PAGE else |all|)
            && p.next == (if |all| > PAGE then Some(all[PAGE - 1].sequence) else None)
  {
  }

  /** A page descends, holds only hits, and splits them: every hit is shown or lies strictly
      below the cursor, which is at least a page below the previous one. */
  lemma PageSplits(t: Table, f: Filter, before: Option<nat>, now: int)
    requires Valid(t)
    ensures var p := Query(t.rows, f, before, now);
            && Descending(p.reports)
            && (forall r | r in p.reports :: r in t.rows && Hit(r, f, before, now))
            && (forall r | r in t.rows && Hit(r, f, before, now) ::
                  r in p.reports || (p.next.Some? && r.sequence < p.next.value))
            && |p.reports| <= 50
            && (p.next.Some? ==> |p.reports| == 50 && (forall r | r in p.reports :: p.next.value <= r.sequence)
                                 && (before.Some? ==> p.next.value + 50 <= before.value))
  {
    var all, p := Hits(t.rows, f, before, now), Query(t.rows, f, before, now);
    HitsDescend(t.rows, f, before, now);
    PageIsPrefix(t.rows, f, before, now);
    PrefixSplits(all, p);
    forall r ensures r in all <==> r in t.rows && Hit(r, f, before, now) {
      HitsMembers(t.rows, f, before, now, r);
    }
    if p.next.Some? {
      Spread(p.reports, 0);
      assert p.reports[0] in all;
    }
  }

  lemma PrefixSplits(all: seq<Row>, p: Page)
    requires Descending(all) && p.reports <= all && |p.reports| == (if |all| > PAGE then PAGE else |all|)
    requires p.next == if |all| > PAGE then Some(all[PAGE - 1].sequence) else None
    ensures Descending(p.reports)
    ensures forall r | r in p.reports :: r in all && (p.next.Some? ==> p.next.value <= r.sequence)
    ensures forall r | r in all :: r in p.reports || (p.next.Some? && r.sequence < p.next.value)
  {
    forall i | 0 <= i < |p.reports| ensures p.reports[i] == all[i] {
    }
    forall r | r in p.reports ensures r in all && (p.next.Some? ==> p.next.value <= r.sequence) {
      var i :| 0 <= i < |p.reports| && p.reports[i] == r;
    }
    forall r | r in all ensures r in p.reports || (p.next.Some? && r.sequence < p.next.value) {
      var i :| 0 <= i < |all| && all[i] == r;
      if i < |p.reports| {
        assert p.reports[i] == r;
      }
    }
  }

  // ----- Paging while the table changes -----

  lemma InsertValid(t: Table, r: Row)
    requires Valid(t) && !Known(t, r.installation, r.id)
    ensures Valid(Insert(t, r))
  {
    var u := Insert(t, r);
    forall i | 0 <= i < |t.rows| ensures Precedes(u.rows[i], u.rows[|t.rows|]) {
      assert t.rows[i] in t.rows;
    }
  }

  /** A reader follows `next` from page to page; rows may come and go and time may pass in between. */
  ghost predicate Reading(tables: seq<Table>, clocks: seq<int>, pages: seq<Page>, f: Filter) {
    && |tables| == |clocks| == |pages| && |pages| > 0
    && (forall i | 0 <= i < |tables| :: Valid(tables[i]))
    && (forall i, j | 0 <= i < j < |tables| :: clocks[i] <= clocks[j])
    && pages[0] == Query(tables[0].rows, f, None, clocks[0])
    && forall i, j | 0 <= i && j == i + 1 < |pages| ::
         pages[i].next.Some? && pages[j] == Query(tables[j].rows, f, pages[i].next, clocks[j])
  }

  /** Everything on a later page lies strictly below everything on an earlier one, so no row is
      ever returned twice. */
  lemma {:induction false} PagesDescend(tables: seq<Table>, clocks: seq<int>, pages: seq<Page>, f: Filter,
                                        i: nat, j: nat, r: Row, q: Row)
    requires Reading(tables, clocks, pages, f) && i < j < |pages| && r in pages[i].reports && q in pages[j].reports
    ensures q.sequence < r.sequence
  {
    CursorsDescend(tables, clocks, pages, f, i, j - 1);
    assert pages[j] == Query(tables[j].rows, f, pages[j - 1].next, clocks[j]);
    PageSplits(tables[j], f, pages[j - 1].next, clocks[j]);
    PageSplitsAt(tables, clocks, pages, f, i);
  }

  lemma PageSplitsAt(tables: seq<Table>, clocks: seq<int>, pages: seq<Page>, f: Filter, i: nat)
    requires Reading(tables, clocks, pages, f) && i < |pages| && pages[i].next.Some?
    ensures forall r | r in pages[i].reports :: pages[i].next.value <= r.sequence
  {
    if i == 0 {
      PageSplits(tables[0], f, None, clocks[0]);
    } else {
      assert pages[i] == Query(tables[i].rows, f, pages[i - 1].next, clocks[i]);
      PageSplits(tables[i], f, pages[i - 1].next, clocks[i]);
    }
  }

  /** Cursors fall by at least a page each time, so following them ends: after the first page
      there are at most as many more as fifty goes into its cursor. */
  lemma {:induction false} CursorsDescend(tables: seq<Table>, clocks: seq<int>, pages: seq<Page>, f: Filter,
                                          i: nat, j: nat)
    requires Reading(tables, clocks, pages, f) && i <= j < |pages| && pages[j].next.Some?
    ensures pages[i].next.Some? && pages[j].next.value + 50 * (j - i) <= pages[i].next.value
    decreases j - i
  {
    if i < j {
      assert pages[j] == Query(tables[j].rows, f, pages[j - 1].next, clocks[j]);
      PageSplits(tables[j], f, pages[j - 1].next, clocks[j]);
      CursorsDescend(tables, clocks, pages, f, i, j - 1);
    }
  }

  ghost predicate Shown(pages: seq<Page>, r: Row, k: nat)
    requires k < |pages|
  {
    exists i | 0 <= i <= k :: r in pages[i].reports
  }

  /** A selected row that is there from first page to last is on one of the pages read so far,
      or lies below the present cursor. */
  lemma {:induction false} NotYetPassed(tables: seq<Table>, clocks: seq<int>, pages: seq<Page>, f: Filter,
                                        r: Row, k: nat)
    requires Reading(tables, clocks, pages, f) && k < |pages|
    requires forall i | 0 <= i < |tables| :: r in tables[i].rows
    requires Selects(f, r) && r.received > clocks[|clocks| - 1] - RETENTION
    ensures Shown(pages, r, k) || (pages[k].next.Some? && r.sequence < pages[k].next.value)
  {
    var before := if k == 0 then None else pages[k - 1].next;
    assert pages[k] == Query(tables[k].rows, f, before, clocks[k]);
    assert clocks[k] <= clocks[|clocks| - 1];
    if k > 0 {
      NotYetPassed(tables, clocks, pages, f, r, k - 1);
    }
    if k == 0 || !Shown(pages, r, k - 1) {
      PageSplits(tables[k], f, before, clocks[k]);
      assert r in tables[k].rows && Hit(r, f, before, clocks[k]);
    }
  }

  /** Following `next` until it is null shows every selected row that is there from first page
      to last on exactly one page, whatever is inserted or pruned in between. */
  lemma PagingIsComplete(tables: seq<Table>, clocks: seq<int>, pages: seq<Page>, f: Filter, r: Row)
    requires Reading(tables, clocks, pages, f) && pages[|pages| - 1].next.None?
    requires forall i | 0 <= i < |tables| :: r in tables[i].rows
    requires Selects(f, r) && r.received > clocks[|clocks| - 1] - RETENTION
    ensures Shown(pages, r, |pages| - 1)
    ensures forall i, j | 0 <= i < j < |pages| :: !(r in pages[i].reports && r in pages[j].reports)
  {
    NotYetPassed(tables, clocks, pages, f, r, |pages| - 1);
    forall i, j | 0 <= i < j < |pages| && r in pages[i].reports && r in pages[j].reports ensures false {
      PagesDescend(tables, clocks, pages, f, i, j, r, r);
    }
  }
}
