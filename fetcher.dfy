/**
 * The paginated fetch of MoESchools.py (`fetch_all_projected_records`).
 * The HTTP round trip is an oracle from the requested offset to the reply;
 * the page size, the timeout and the pause between calls are fixed for a
 * run and are not part of the model.
 */
module Fetcher {
  import opened Wrappers
  import opened Records

  /** The `result`/`success` part of a datastore response. */
  datatype Page = Page(
    success: bool,
    total: Option<int>,          // `result.total`
    recordsTotal: Option<int>,   // `result.records_total`
    records: seq<RawRecord>)     // `result.records` (missing or null reads as [])

  /** What one request yields: a transport failure (HTTP status, timeout) or a decoded page. */
  datatype Reply = TransportFailure | Delivered(page: Page)

  /** The reply the source gives for a request at each offset. */
  type Source = nat -> Reply

  datatype FetchError =
    | TransportAt(offset: nat)   // `raise_for_status` or the network failed
    | InitialFailure             // `success` falsy on the first page
    | SourceFailureAt(offset: nat) // `success` falsy on a later page

  /** Python's truthiness of an optional integer. */
  predicate Truthy(n: Option<int>) {
    n.Some? && n.value != 0
  }

  /**
   * The reported total (MoESchools.py:151, 155-156): `total or records_total`,
   * and the first-page count when that comes out as `None`.
   */
  function ReportedTotal(p: Page): (t: int)
    ensures Truthy(p.total) ==> t == p.total.value
    ensures !Truthy(p.total) && p.recordsTotal.Some? ==> t == p.recordsTotal.value
    ensures !Truthy(p.total) && p.recordsTotal.None? ==> t == |p.records|
  {
    var t := if Truthy(p.total) then p.total else p.recordsTotal;
    if t.None? then |p.records| else t.value
  }

  /** Because `or` tests truthiness, a reported total of 0 counts as no total at all. */
  lemma ZeroTotalFallsThrough(p: Page)
    requires p.total == Some(0)
    ensures ReportedTotal(p) == ReportedTotal(p.(total := None))
  {
  }

  /** `projected` for one batch: each raw record projected, in order. */
  function ProjectAll(rs: seq<RawRecord>): (ps: seq<Record>)
    ensures |ps| == |rs| && forall k :: 0 <= k < |rs| ==> ps[k] == ProjectRecord(rs[k])
  {
    seq(|rs|, k requires 0 <= k < |rs| => ProjectRecord(rs[k]))
  }

  lemma ProjectAllAppend(a: seq<RawRecord>, b: seq<RawRecord>)
    ensures ProjectAll(a + b) == ProjectAll(a) + ProjectAll(b)
  {
  }

  function Flatten(bs: seq<seq<RawRecord>>): (rs: seq<RawRecord>) {
    if bs == [] then [] else bs[0] + Flatten(bs[1..])
  }

  lemma {:induction false} FlattenAppend(a: seq<seq<RawRecord>>, b: seq<seq<RawRecord>>)
    ensures Flatten(a + b) == Flatten(a) + Flatten(b)
  {
    if a == [] {
      assert a + b == b;
    } else {
      assert (a + b)[1..] == a[1..] + b;
      FlattenAppend(a[1..], b);
    }
  }

  /**
   * The batches of later pages the loop reads, starting at `offset` with the
   * reported `total` (MoESchools.py:162-177): it stops once `offset` reaches
   * `total` or a page comes back empty, and any failure aborts the whole run.
   */
  function Drain(source: Source, total: int, offset: nat): (r: Result<seq<seq<RawRecord>>, FetchError>)
    ensures r.Success? ==> forall k :: 0 <= k < |r.value| ==> r.value[k] != []
    ensures r.Failure? ==> r.error.TransportAt? || r.error.SourceFailureAt?
    decreases if offset < total then total - offset else 0
  {
    if offset >= total then Success([])
    else match source(offset)
      case TransportFailure => Failure(TransportAt(offset))
      case Delivered(p) =>
        if !p.success then Failure(SourceFailureAt(offset))
        else if p.records == [] then Success([])
        else match Drain(source, total, offset + |p.records|)
          case Failure(e) => Failure(e)
          case Success(rest) => Success([p.records] + rest)
  }

  /** The whole fetch (MoESchools.py:142-180), as a function of the source. */
  function Fetch(source: Source): Result<seq<Record>, FetchError> {
    match source(0)
    case TransportFailure => Failure(TransportAt(0))
    case Delivered(first) =>
      if !first.success then Failure(InitialFailure)
      else match Drain(source, ReportedTotal(first), |first.records|)
        case Failure(e) => Failure(e)
        case Success(rest) => Success(ProjectAll(first.records + Flatten(rest)))
  }

  /** The first page's reply made the fetch go on. */
  predicate FirstPageOk(source: Source) {
    source(0).Delivered? && source(0).page.success
  }

  /** The page at `offset` came back successful but empty. */
  predicate EmptyPageAt(source: Source, offset: nat) {
    source(offset).Delivered? && source(offset).page.success && source(offset).page.records == []
  }

  /** The batch `b` is what a successful, non-empty page requested at `o` below `total` held. */
  predicate BatchAt(source: Source, total: int, o: nat, b: seq<RawRecord>) {
    o < total && source(o).Delivered? && source(o).page.success
    && source(o).page.records == b && b != []
  }

  /** Each batch of `bs` was requested at the offset its predecessors add up to. */
  predicate Follows(source: Source, total: int, offset: nat, bs: seq<seq<RawRecord>>)
    decreases |bs|
  {
    bs == [] || (BatchAt(source, total, offset, bs[0]) && Follows(source, total, offset + |bs[0]|, bs[1..]))
  }

  /**
   * The batches Drain collects follow the offsets, and the loop ended because
   * the count reached the total or the next page was empty.
   */
  lemma {:induction false} DrainFollows(source: Source, total: int, offset: nat)
    requires Drain(source, total, offset).Success?
    ensures var bs := Drain(source, total, offset).value;
      Follows(source, total, offset, bs)
      && (offset + |Flatten(bs)| >= total || EmptyPageAt(source, offset + |Flatten(bs)|))
    decreases if offset < total then total - offset else 0
  {
    var bs := Drain(source, total, offset).value;
    if offset < total && bs != [] {
      var p := source(offset).page;
      var next := offset + |p.records|;
      DrainFollows(source, total, next);
      var rest := Drain(source, total, next).value;
      assert bs == [p.records] + rest;
      assert bs[1..] == rest;
    }
  }

  /** `Follows`, read batch by batch: batch `i` was requested at the offset of the records before it. */
  lemma {:induction false} FollowsAt(source: Source, total: int, offset: nat, bs: seq<seq<RawRecord>>, i: nat)
    requires Follows(source, total, offset, bs) && i < |bs|
    ensures BatchAt(source, total, offset + |Flatten(bs[..i])|, bs[i])
    decreases i
  {
    if i == 0 {
      assert bs[..0] == [];
    } else {
      FollowsAt(source, total, offset + |bs[0]|, bs[1..], i - 1);
      assert bs[..i] == [bs[0]] + bs[1..][..i - 1];
    }
  }

  /**
   * Every batch Drain collects was requested at the offset equal to the number
   * of records collected before it, came back successful and non-empty, and was
   * requested while the count was still below the total: no record is skipped
   * or read twice.
   */
  lemma DrainFollowsOffsets(source: Source, total: int, offset: nat, i: nat)
    requires Drain(source, total, offset).Success? && i < |Drain(source, total, offset).value|
    ensures var bs := Drain(source, total, offset).value;
      BatchAt(source, total, offset + |Flatten(bs[..i])|, bs[i])
  {
    DrainFollows(source, total, offset);
    FollowsAt(source, total, offset, Drain(source, total, offset).value, i);
  }

  /**
   * `o` is an offset the loop requests when it starts at `offset`: the
   * requests before it each returned a successful, non-empty batch below the
   * total, and those batches add up to `o - offset` records.
   */
  ghost predicate Requested(source: Source, total: int, offset: nat, o: nat) {
    exists bs :: Follows(source, total, offset, bs) && o == offset + |Flatten(bs)|
  }

  /** A request after one more successful batch is a request of the longer run. */
  lemma RequestedStep(source: Source, total: int, offset: nat, b: seq<RawRecord>, o: nat)
    requires BatchAt(source, total, offset, b) && Requested(source, total, offset + |b|, o)
    ensures Requested(source, total, offset, o)
  {
    var bs :| Follows(source, total, offset + |b|, bs) && o == offset + |b| + |Flatten(bs)|;
    var cs := [b] + bs;
    assert cs[0] == b && cs[1..] == bs;
    assert Flatten(cs) == b + Flatten(bs);
    assert Follows(source, total, offset, cs);
  }

  /**
   * A failed Drain names an offset the loop actually requested, below the
   * total, and the failure it met there: every request before it succeeded.
   */
  lemma {:induction false} DrainFailureAt(source: Source, total: int, offset: nat)
    requires Drain(source, total, offset).Failure?
    ensures match Drain(source, total, offset).error
      case TransportAt(o) => offset <= o < total && Requested(source, total, offset, o) && source(o).TransportFailure?
      case SourceFailureAt(o) => offset <= o < total && Requested(source, total, offset, o)
        && source(o).Delivered? && !source(o).page.success
      case InitialFailure => false
    decreases if offset < total then total - offset else 0
  {
    if source(offset).Delivered? && source(offset).page.success {
      var b := source(offset).page.records;
      DrainFailureAt(source, total, offset + |b|);
      var e := Drain(source, total, offset + |b|).error;
      assert Drain(source, total, offset).error == e;
      RequestedStep(source, total, offset, b, e.offset);
    } else {
      assert Follows(source, total, offset, []) && Flatten([]) == [];
    }
  }

  /**
   * A successful fetch returns at least the reported total, unless an empty
   * page at exactly the offset reached ended the loop early.
   */
  lemma FetchReachesTotal(source: Source)
    requires Fetch(source).Success?
    ensures FirstPageOk(source)
    ensures var n := |Fetch(source).value|;
      n >= ReportedTotal(source(0).page) || EmptyPageAt(source, n)
  {
    var first := source(0).page;
    DrainFollows(source, ReportedTotal(first), |first.records|);
  }

  /** `o` is an offset the loop after a successful first page requests. */
  ghost predicate RequestedLater(source: Source, o: nat) {
    FirstPageOk(source)
    && var first := source(0).page;
      |first.records| <= o < ReportedTotal(first) && Requested(source, ReportedTotal(first), |first.records|, o)
  }

  /**
   * A failed fetch returns no records, and its error names the first failure
   * met: a transport failure or a falsy `success` on the first page, or one
   * of them at an offset the loop requested after it.
   */
  lemma FetchFailure(source: Source)
    requires Fetch(source).Failure?
    ensures match Fetch(source).error
      case InitialFailure => source(0).Delivered? && !source(0).page.success
      case TransportAt(o) => source(o).TransportFailure? && (o == 0 || RequestedLater(source, o))
      case SourceFailureAt(o) => RequestedLater(source, o) && source(o).Delivered? && !source(o).page.success
  {
    if FirstPageOk(source) {
      var first := source(0).page;
      DrainFailureAt(source, ReportedTotal(first), |first.records|);
    }
  }

  /**
   * A successful fetch is the first page's records followed by the batches of
   * the later pages, each requested at the offset its predecessors add up to,
   * all projected in that order.
   */
  lemma FetchInRequestOrder(source: Source)
    requires Fetch(source).Success?
    ensures FirstPageOk(source)
    ensures var first := source(0).page;
      var d := Drain(source, ReportedTotal(first), |first.records|);
      d.Success? && Follows(source, ReportedTotal(first), |first.records|, d.value)
      && Fetch(source).value == ProjectAll(first.records + Flatten(d.value))
  {
    var first := source(0).page;
    DrainFollows(source, ReportedTotal(first), |first.records|);
  }

  /** The batches already taken, followed by whatever is still to come. */
  function Resume(taken: seq<seq<RawRecord>>, d: Result<seq<seq<RawRecord>>, FetchError>): Result<seq<seq<RawRecord>>, FetchError> {
    match d
    case Failure(e) => Failure(e)
    case Success(rest) => Success(taken + rest)
  }

  /** One more successful, non-empty page moves a batch from what is to come to what is taken. */
  lemma DrainStep(source: Source, total: int, offset: nat, taken: seq<seq<RawRecord>>)
    requires offset < total && source(offset).Delivered? && source(offset).page.success
    requires source(offset).page.records != []
    ensures var b := source(offset).page.records;
      Resume(taken, Drain(source, total, offset)) == Resume(taken + [b], Drain(source, total, offset + |b|))
  {
    var b := source(offset).page.records;
    var d := Drain(source, total, offset + |b|);
    if d.Success? {
      assert taken + ([b] + d.value) == (taken + [b]) + d.value;
    }
  }

  /** On a successful first page the fetch projects the first batch and every later batch. */
  lemma FetchUnfold(source: Source)
    requires FirstPageOk(source)
    ensures var first := source(0).page;
      Fetch(source) == match Drain(source, ReportedTotal(first), |first.records|)
        case Failure(e) => Failure(e)
        case Success(rest) => Success(ProjectAll(first.records + Flatten(rest)))
  {
  }

  /**
   * `fetch_all_projected_records` (MoESchools.py:124-180). The loop keeps
   * `fetched == offset == |projected|`, and what is left of the run is
   * exactly what Drain still has to collect from `offset` on.
   */
  method FetchAllProjectedRecords(source: Source) returns (res: Result<seq<Record>, FetchError>)
    ensures res == Fetch(source)
  {
    var reply := source(0);
    if reply.TransportFailure? {
      return Failure(TransportAt(0));
    }
    var first := reply.page;
    if !first.success {
      return Failure(InitialFailure);
    }
    FetchUnfold(source);
    var total := ReportedTotal(first);
    var records := first.records;
    var projected := ProjectAll(records);
    var fetched := |records|;
    var offset := fetched;
    ghost var taken: seq<seq<RawRecord>> := [];
    assert Flatten(taken) == [] && records + Flatten(taken) == records;
    assert Drain(source, total, offset) == Resume(taken, Drain(source, total, offset)) by {
      var d := Drain(source, total, offset);
      if d.Success? { assert taken + d.value == d.value; }
    }
    while fetched < total
      invariant fetched == offset == |projected|
      invariant projected == ProjectAll(records + Flatten(taken))
      invariant Drain(source, total, |records|) == Resume(taken, Drain(source, total, offset))
      decreases total - fetched
    {
      var r := source(offset);
      if r.TransportFailure? {
        return Failure(TransportAt(offset));
      }
      var page := r.page;
      if !page.success {
        return Failure(SourceFailureAt(offset));
      }
      var pageRecords := page.records;
      if pageRecords == [] {
        break;
      }
      DrainStep(source, total, offset, taken);
      FlattenAppend(taken, [pageRecords]);
      assert Flatten([pageRecords]) == pageRecords;
      assert (records + Flatten(taken)) + pageRecords == records + Flatten(taken + [pageRecords]);
      ProjectAllAppend(records + Flatten(taken), pageRecords);
      projected := projected + ProjectAll(pageRecords);
      fetched := fetched + |pageRecords|;
      offset := offset + |pageRecords|;
      taken := taken + [pageRecords];
    }
    assert Drain(source, total, offset) == Success([]);
    assert taken + [] == taken;
    return Success(projected);
  }
}
