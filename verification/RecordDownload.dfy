/**
 Downloading a record series: predicted pages are fetched in parallel and consumed in order; the first short page
 switches to a serial finish from the real progress.

 The server is any function from a request to a response. A request is made at most once per phase and position, so
 quantifying over such functions is quantifying over every behaviour the client can meet. How many predicted requests
 are in flight does not show: their results are consumed in plan order and the rest is dropped.
 */
module RecordDownload {
  import opened Basics

  const U64: nat := 0x1_0000_0000_0000_0000

  /** A run of chunks of `size` covering start..end, in a build that checks its 64-bit arithmetic or in one, like the
      release build, in which it wraps. */
  datatype Plan = Plan(start: nat, end: nat, size: nat, checked: bool)

  predicate ValidPlan(plan: Plan) {
    plan.start < U64 && plan.end < U64 && 0 < plan.size < U64
  }

  datatype Response<R> = Page(records: seq<R>) | Fault

  /** A request: in the serial phase or not, first index, how many. */
  datatype Request = Ask(serial: bool, start: nat, count: nat)

  type Server<!R> = Request -> Response<R>

  datatype Status = Done | Failed | Overflowed

  datatype Outcome<R> = Outcome(pages: seq<seq<R>>, status: Status)

  function Prepend<R>(page: seq<R>, o: Outcome<R>): Outcome<R> {
    Outcome([page] + o.pages, o.status)
  }

  /** The end of the chunk at `cursor`: the advance saturates. */
  function ChunkEnd(plan: Plan, cursor: nat): (stop: nat)
    requires ValidPlan(plan) && cursor < plan.end
    ensures cursor < stop <= plan.end
  {
    var next := if cursor + plan.size < U64 then cursor + plan.size else U64 - 1;
    if next < plan.end then next else plan.end
  }

  /** 64-bit addition and subtraction that wrap round. */
  function WrapAdd(a: nat, b: nat): nat {
    if a + b < U64 then a + b else a + b - U64
  }

  function WrapSub(a: nat, b: nat): int {
    if b <= a then a - b else a + U64 - b
  }

  /** The length of the serial request at `cursor`, both operations wrapping: where the addition wraps round, so does
      the subtraction, and a whole chunk is asked for whatever the end of the range. */
  function SerialCount(plan: Plan, cursor: nat): (count: nat)
    requires ValidPlan(plan) && cursor < plan.end
    ensures cursor + plan.size < U64 ==> count == Min(plan.size, plan.end - cursor)
    ensures cursor + plan.size >= U64 ==> count == plan.size
    ensures count > 0
  {
    WrapSub(Min(WrapAdd(cursor, plan.size), plan.end), cursor)
  }

  /** The serial finish. Its advance is a plain 64-bit addition, which does not saturate: a checked build panics. */
  function Serial<R>(server: Server<R>, plan: Plan, cursor: nat): Outcome<R>
    requires ValidPlan(plan)
    decreases plan.end - cursor
  {
    if cursor >= plan.end then Outcome([], Done)
    else if plan.checked && cursor + plan.size >= U64 then Outcome([], Overflowed)
    else
      match server(Ask(true, cursor, SerialCount(plan, cursor)))
      case Fault => Outcome([], Failed)
      case Page(page) => if page == [] then Outcome([], Done) else Prepend(page, Serial(server, plan, cursor + |page|))
  }

  /** What a download does from a given position on. */
  type Finish<!R> = nat -> Outcome<R>

  function SerialFrom<R>(server: Server<R>, plan: Plan): Finish<R>
    requires ValidPlan(plan)
  {
    (cursor: nat) => Serial(server, plan, cursor)
  }

  /** The parallel phase from the chunk at `cursor`, after `progress` records; a short page leaves the rest to
      `finish`. */
  function Parallel<R>(server: Server<R>, plan: Plan, finish: Finish<R>, cursor: nat, progress: nat): Outcome<R>
    requires ValidPlan(plan)
    decreases plan.end - cursor
  {
    if cursor >= plan.end then Outcome([], Done)
    else
      var stop := ChunkEnd(plan, cursor);
      match server(Ask(false, cursor, stop - cursor))
      case Fault => Outcome([], Failed)
      case Page(page) =>
        if page == [] then Outcome([], Done)
        else if |page| < stop - cursor then Prepend(page, finish(plan.start + progress + |page|))
        else Prepend(page, Parallel(server, plan, finish, stop, progress + |page|))
  }

  function Download<R>(server: Server<R>, plan: Plan): Outcome<R>
    requires ValidPlan(plan)
  {
    Parallel(server, plan, SerialFrom(server, plan), plan.start, 0)
  }

  function Joined<R>(pages: seq<seq<R>>, rest: Outcome<R>): Outcome<R> {
    Outcome(pages + rest.pages, rest.status)
  }

  lemma JoinPage<R>(pages: seq<seq<R>>, page: seq<R>, rest: Outcome<R>)
    ensures Joined(pages, Prepend(page, rest)) == Joined(pages + [page], rest)
  {
    assert pages + ([page] + rest.pages) == pages + [page] + rest.pages;
  }

  /** The recovery loop: from the real progress, one page at a time. */
  method FinishSerially<R>(server: Server<R>, plan: Plan, from: nat) returns (pages: seq<seq<R>>, status: Status)
    requires ValidPlan(plan)
    ensures Outcome(pages, status) == Serial(server, plan, from)
  {
    var cursor: nat := from;
    pages := [];
    while cursor < plan.end
      invariant Serial(server, plan, from) == Joined(pages, Serial(server, plan, cursor))
      decreases plan.end - cursor
    {
      if plan.checked && cursor + plan.size >= U64 {
        return pages, Overflowed;
      }
      var response := server(Ask(true, cursor, SerialCount(plan, cursor)));
      if response.Fault? {
        return pages, Failed;
      }
      var page := response.records;
      if page == [] {
        return pages, Done;
      }
      JoinPage(pages, page, Serial(server, plan, cursor + |page|));
      pages, cursor := pages + [page], cursor + |page|;
    }
    status := Done;
  }

  /** What the result of one predicted request means: the end, a page that came short, or a full page. */
  datatype Verdict = Ends(status: Status) | Short | Full

  /** The next predicted page, its meaning, and what is still to come behind it. */
  method Consume<R>(server: Server<R>, plan: Plan, ghost finish: Finish<R>, cursor: nat, ghost progress: nat,
                    ghost now: Outcome<R>)
    returns (page: seq<R>, verdict: Verdict, ghost rest: Outcome<R>)
    requires ValidPlan(plan) && cursor < plan.end && now == Parallel(server, plan, finish, cursor, progress)
    ensures verdict.Ends? ==> now == Outcome([], verdict.status)
    ensures !verdict.Ends? ==> now == Prepend(page, rest)
    ensures verdict.Short? ==> rest == finish(plan.start + progress + |page|)
    ensures verdict.Full? ==> rest == Parallel(server, plan, finish, ChunkEnd(plan, cursor), progress + |page|)
  {
    var stop := ChunkEnd(plan, cursor);
    var response := server(Ask(false, cursor, stop - cursor));
    rest := now;
    if response.Fault? {
      return [], Ends(Failed), now;
    }
    page := response.records;
    if page == [] {
      verdict := Ends(Done);
    } else if |page| < stop - cursor {
      verdict, rest := Short, finish(plan.start + progress + |page|);
    } else {
      verdict, rest := Full, Parallel(server, plan, finish, stop, progress + |page|);
    }
  }

  lemma TakePage<R>(goal: Outcome<R>, pages: seq<seq<R>>, page: seq<R>, now: Outcome<R>, rest: Outcome<R>)
    requires goal == Joined(pages, now) && now == Prepend(page, rest)
    ensures goal == Joined(pages + [page], rest)
  {
    JoinPage(pages, page, rest);
  }

  lemma EndHere<R>(goal: Outcome<R>, pages: seq<seq<R>>, status: Status)
    requires goal == Joined(pages, Outcome([], status))
    ensures goal == Outcome(pages, status)
  {
    assert pages + [] == pages;
  }

  lemma NothingPlanned<R>(server: Server<R>, plan: Plan, finish: Finish<R>, cursor: nat, progress: nat)
    requires ValidPlan(plan) && cursor >= plan.end
    ensures Parallel(server, plan, finish, cursor, progress) == Outcome([], Done)
  {
  }

  /** One turn of the parallel loop: a page taken, or the end. */
  method TakeNext<R>(server: Server<R>, plan: Plan, ghost finish: Finish<R>, cursor: nat, progress: nat,
                     pages: seq<seq<R>>, ghost goal: Outcome<R>, ghost now: Outcome<R>)
    returns (pages': seq<seq<R>>, progress': nat, verdict: Verdict, ghost rest: Outcome<R>)
    requires ValidPlan(plan) && cursor < plan.end && now == Parallel(server, plan, finish, cursor, progress)
    requires goal == Joined(pages, now)
    ensures goal == Joined(pages', rest)
    ensures verdict.Ends? ==> rest == Outcome([], verdict.status)
    ensures verdict.Short? ==> rest == finish(plan.start + progress')
    ensures verdict.Full? ==> rest == Parallel(server, plan, finish, ChunkEnd(plan, cursor), progress')
  {
    var page;
    page, verdict, rest := Consume(server, plan, finish, cursor, progress, now);
    if verdict.Ends? {
      return pages, progress, verdict, now;
    }
    TakePage(goal, pages, page, now, rest);
    pages', progress' := pages + [page], progress + |page|;
  }

  /** The parallel loop, up to its end or to a page that came short; `goal` is what the download has to yield. */
  method ConsumeAll<R>(server: Server<R>, plan: Plan, ghost finish: Finish<R>, ghost goal: Outcome<R>)
    returns (pages: seq<seq<R>>, progress: nat, verdict: Verdict, ghost rest: Outcome<R>)
    requires ValidPlan(plan) && goal == Parallel(server, plan, finish, plan.start, 0)
    ensures goal == Joined(pages, rest) && !verdict.Full?
    ensures verdict.Ends? ==> rest == Outcome([], verdict.status)
    ensures verdict.Short? ==> rest == finish(plan.start + progress)
  {
    var cursor: nat := plan.start;
    pages, progress, rest := [], 0, goal;
    assert [] + goal.pages == goal.pages;
    while cursor < plan.end
      invariant rest == Parallel(server, plan, finish, cursor, progress) && goal == Joined(pages, rest)
      decreases plan.end - cursor
    {
      pages, progress, verdict, rest := TakeNext(server, plan, finish, cursor, progress, pages, goal, rest);
      if !verdict.Full? {
        return;
      }
      cursor := ChunkEnd(plan, cursor);
    }
    NothingPlanned(server, plan, finish, cursor, progress);
    verdict := Ends(Done);
  }

  /** `RecordsRequest::stream`: the predicted pages in plan order, then the serial finish if one came short. */
  method Stream<R>(server: Server<R>, plan: Plan) returns (pages: seq<seq<R>>, status: Status)
    requires ValidPlan(plan)
    ensures Outcome(pages, status) == Download(server, plan)
  {
    ghost var goal := Download(server, plan);
    var progress, verdict;
    ghost var rest;
    pages, progress, verdict, rest := ConsumeAll(server, plan, SerialFrom(server, plan), goal);
    if verdict.Ends? {
      EndHere(goal, pages, verdict.status);
      return pages, verdict.status;
    }
    var more;
    more, status := FinishSerially(server, plan, plan.start + progress);
    pages := pages + more;
  }

  // --- servers ---------------------------------------------------------------------------------------------

  /** A response is within bounds: a run of the series from the requested index, no longer than asked. */
  predicate InOrder<R(==)>(series: seq<R>, r: Request, response: Response<R>) {
    response.Fault? || response.records == []
    || (|response.records| <= r.count && r.start + |response.records| <= |series|
        && response.records == series[r.start..r.start + |response.records|])
  }

  /** A server of a dense series that clamps pages as it likes and may fail, but never skips or invents records. */
  ghost predicate Truthful<R(!new)>(server: Server<R>, series: seq<R>) {
    |series| < U64 && forall r: Request :: InOrder(series, r, server(r))
  }

  /** It also answers with something as long as records remain. */
  ghost predicate Forthcoming<R(!new)>(server: Server<R>, series: seq<R>) {
    forall r: Request :: r.start < |series| && r.count > 0 && server(r).Page? ==> server(r).records != []
  }

  ghost predicate Faultless<R(!new)>(server: Server<R>) {
    forall r: Request :: server(r).Page?
  }

  /** What a download from `from` on has yielded: consecutive records from there, not beyond `high`, and at least up to
      `low` if it ended in due course. */
  predicate Yielded<R(==)>(o: Outcome<R>, series: seq<R>, low: nat, high: nat, from: nat, forthcoming: bool)
    requires high <= |series|
  {
    var all := Concat(o.pages);
    && (all == [] || (from + |all| <= high && all == series[from..from + |all|]))
    && (forthcoming && o.status == Done ==> from + |all| >= low)
  }

  /** Where the requested records of a series end. */
  function Limit<R>(plan: Plan, series: seq<R>): nat {
    if plan.end < |series| then plan.end else |series|
  }

  lemma YieldedPage<R>(page: seq<R>, o: Outcome<R>, series: seq<R>, low: nat, high: nat, from: nat, forthcoming: bool)
    requires page != [] && from + |page| <= high <= |series| && page == series[from..from + |page|]
    requires Yielded(o, series, low, high, from + |page|, forthcoming)
    ensures Yielded(Prepend(page, o), series, low, high, from, forthcoming)
  {
    assert ([page] + o.pages)[1..] == o.pages;
    assert Concat([page] + o.pages) == page + Concat(o.pages);
  }

  ghost predicate Friendly<R(!new)>(server: Server<R>, plan: Plan, series: seq<R>, forthcoming: bool) {
    ValidPlan(plan) && Truthful(server, series) && (forthcoming ==> Forthcoming(server, series))
  }

  /** The serial finish never asks beyond the end: its addition is checked, or cannot reach 64 bits. */
  predicate KeepsToEnd(plan: Plan) {
    plan.checked || plan.end + plan.size <= U64
  }

  /** How far a download may go: to the end of the range, or, if the serial finish can ask beyond it, of the series. */
  predicate Reaches<R>(plan: Plan, series: seq<R>, high: nat) {
    high == |series| || (high == Limit(plan, series) && KeepsToEnd(plan))
  }

  lemma SerialPage<R(!new)>(server: Server<R>, plan: Plan, cursor: nat, series: seq<R>, high: nat)
    requires ValidPlan(plan) && Truthful(server, series) && Reaches(plan, series, high)
    requires cursor < plan.end && (plan.checked ==> cursor + plan.size < U64)
    ensures var response := server(Ask(true, cursor, SerialCount(plan, cursor)));
            response.Page? && response.records != [] ==>
              && cursor + |response.records| <= high
              && response.records == series[cursor..cursor + |response.records|]
  {
    var r := Ask(true, cursor, SerialCount(plan, cursor));
    assert InOrder(series, r, server(r));
  }

  lemma {:induction false} SerialYields<R(!new)>(server: Server<R>, plan: Plan, cursor: nat, series: seq<R>, high: nat,
                                                 forthcoming: bool)
    requires Friendly(server, plan, series, forthcoming) && Reaches(plan, series, high)
    ensures Yielded(Serial(server, plan, cursor), series, Limit(plan, series), high, cursor, forthcoming)
    decreases plan.end - cursor
  {
    if cursor < plan.end && (plan.checked ==> cursor + plan.size < U64) {
      SerialPage(server, plan, cursor, series, high);
      var response := server(Ask(true, cursor, SerialCount(plan, cursor)));
      if response.Page? && response.records != [] {
        var next := cursor + |response.records|;
        SerialYields(server, plan, next, series, high, forthcoming);
        YieldedPage(response.records, Serial(server, plan, next), series, Limit(plan, series), high, cursor,
                    forthcoming);
      }
    }
  }

  lemma {:induction false} SerialEnds<R(!new)>(server: Server<R>, plan: Plan, cursor: nat)
    requires ValidPlan(plan)
    ensures !plan.checked || plan.end + plan.size <= U64 ==> Serial(server, plan, cursor).status != Overflowed
    ensures Faultless(server) ==> Serial(server, plan, cursor).status != Failed
    decreases plan.end - cursor
  {
    if cursor < plan.end && (plan.checked ==> cursor + plan.size < U64) {
      var response := server(Ask(true, cursor, SerialCount(plan, cursor)));
      if response.Page? && response.records != [] {
        SerialEnds(server, plan, cursor + |response.records|);
      }
    }
  }

  /** What follows a page that was neither empty nor a failure. */
  function AfterPage<R>(server: Server<R>, plan: Plan, finish: Finish<R>, next: nat, stop: nat): Outcome<R>
    requires ValidPlan(plan) && plan.start <= stop
  {
    if next < stop then finish(next) else Parallel(server, plan, finish, stop, stop - plan.start)
  }

  predicate NextPage<R>(server: Server<R>, plan: Plan, cursor: nat)
    requires ValidPlan(plan)
  {
    && cursor < plan.end
    && var r := server(Ask(false, cursor, ChunkEnd(plan, cursor) - cursor));
       r.Page? && r.records != []
  }

  lemma ParallelStops<R(!new)>(server: Server<R>, plan: Plan, finish: Finish<R>, cursor: nat, series: seq<R>,
                               high: nat, forthcoming: bool)
    requires Friendly(server, plan, series, forthcoming) && plan.start <= cursor <= plan.end
    requires !NextPage(server, plan, cursor) && high <= |series|
    ensures Yielded(Parallel(server, plan, finish, cursor, cursor - plan.start), series, Limit(plan, series), high,
                    cursor, forthcoming)
  {
  }

  function PageAt<R>(server: Server<R>, plan: Plan, cursor: nat): seq<R>
    requires ValidPlan(plan) && NextPage(server, plan, cursor)
  {
    server(Ask(false, cursor, ChunkEnd(plan, cursor) - cursor)).records
  }

  /** A page of a truthful server. */
  lemma PageIsTruthful<R(!new)>(server: Server<R>, plan: Plan, cursor: nat, series: seq<R>)
    requires ValidPlan(plan) && Truthful(server, series) && NextPage(server, plan, cursor)
    ensures var page := PageAt(server, plan, cursor);
            && page != [] && cursor + |page| <= ChunkEnd(plan, cursor) && cursor + |page| <= |series|
            && page == series[cursor..cursor + |page|]
  {
    var r := Ask(false, cursor, ChunkEnd(plan, cursor) - cursor);
    assert InOrder(series, r, server(r));
  }

  lemma PageUnfolds<R>(server: Server<R>, plan: Plan, finish: Finish<R>, cursor: nat)
    requires ValidPlan(plan) && plan.start <= cursor && NextPage(server, plan, cursor)
    requires cursor + |PageAt(server, plan, cursor)| <= ChunkEnd(plan, cursor)
    ensures var page, stop := PageAt(server, plan, cursor), ChunkEnd(plan, cursor);
            Parallel(server, plan, finish, cursor, cursor - plan.start) ==
            Prepend(page, AfterPage(server, plan, finish, cursor + |page|, stop))
  {
  }

  /** Such a page, and what follows it. */
  lemma OpenPage<R(!new)>(server: Server<R>, plan: Plan, finish: Finish<R>, cursor: nat, series: seq<R>)
    returns (page: seq<R>, stop: nat, after: Outcome<R>)
    requires ValidPlan(plan) && Truthful(server, series) && plan.start <= cursor && NextPage(server, plan, cursor)
    ensures cursor < stop <= plan.end && page != [] && cursor + |page| <= stop && cursor + |page| <= |series|
    ensures page == series[cursor..cursor + |page|]
    ensures after == AfterPage(server, plan, finish, cursor + |page|, stop)
    ensures Parallel(server, plan, finish, cursor, cursor - plan.start) == Prepend(page, after)
  {
    PageIsTruthful(server, plan, cursor, series);
    PageUnfolds(server, plan, finish, cursor);
    page, stop := PageAt(server, plan, cursor), ChunkEnd(plan, cursor);
    after := AfterPage(server, plan, finish, cursor + |page|, stop);
  }

  /** The plans whose serial finish never comes to the end of 64 bits: at most one record, so that no page can come
      short, or an end that leaves room for one more chunk. */
  predicate SafePlan(plan: Plan) {
    plan.end <= plan.start + 1 || plan.end + plan.size <= U64
  }

  /** The positions a short page can leave to the serial finish. */
  predicate CanFinishFrom(plan: Plan, next: nat) {
    plan.start < next < plan.end
  }

  lemma {:induction false} ParallelYields<R(!new)>(server: Server<R>, plan: Plan, finish: Finish<R>, cursor: nat,
                                                   series: seq<R>, high: nat, forthcoming: bool)
    requires Friendly(server, plan, series, forthcoming) && plan.start <= cursor <= plan.end
    requires Limit(plan, series) <= high <= |series|
    requires forall n: nat :: CanFinishFrom(plan, n) ==>
                                Yielded(finish(n), series, Limit(plan, series), high, n, forthcoming)
    ensures Yielded(Parallel(server, plan, finish, cursor, cursor - plan.start), series, Limit(plan, series), high,
                    cursor, forthcoming)
    decreases plan.end - cursor
  {
    if !NextPage(server, plan, cursor) {
      ParallelStops(server, plan, finish, cursor, series, high, forthcoming);
    } else {
      var page, stop, after := OpenPage(server, plan, finish, cursor, series);
      var next := cursor + |page|;
      if next < stop {
        assert CanFinishFrom(plan, next);
      } else {
        ParallelYields(server, plan, finish, stop, series, high, forthcoming);
      }
      YieldedPage(page, after, series, Limit(plan, series), high, cursor, forthcoming);
    }
  }

  lemma {:induction false} ParallelEnds<R(!new)>(server: Server<R>, plan: Plan, finish: Finish<R>, cursor: nat,
                                                 series: seq<R>, bad: Status)
    requires ValidPlan(plan) && Truthful(server, series) && plan.start <= cursor <= plan.end
    requires bad == Overflowed || (bad == Failed && Faultless(server))
    requires forall n: nat :: CanFinishFrom(plan, n) ==> finish(n).status != bad
    ensures Parallel(server, plan, finish, cursor, cursor - plan.start).status != bad
    decreases plan.end - cursor
  {
    if NextPage(server, plan, cursor) {
      var page, stop, after := OpenPage(server, plan, finish, cursor, series);
      if cursor + |page| < stop {
        assert CanFinishFrom(plan, cursor + |page|);
      } else {
        ParallelEnds(server, plan, finish, stop, series, bad);
      }
    }
  }

  // --- the whole download ------------------------------------------------------------------------------------------

  /** How far a download may go: to the end of the range, or, if its serial finish can ask beyond it, of the series. */
  predicate PlanReaches<R>(plan: Plan, series: seq<R>, high: nat) {
    high == |series| || (high == Limit(plan, series) && (plan.checked || SafePlan(plan)))
  }

  lemma DownloadYields<R(!new)>(server: Server<R>, plan: Plan, series: seq<R>, high: nat, forthcoming: bool)
    requires Friendly(server, plan, series, forthcoming) && plan.start <= plan.end && PlanReaches(plan, series, high)
    ensures Yielded(Download(server, plan), series, Limit(plan, series), high, plan.start, forthcoming)
  {
    var finish := SerialFrom(server, plan);
    forall n: nat | CanFinishFrom(plan, n)
      ensures Yielded(finish(n), series, Limit(plan, series), high, n, forthcoming)
    {
      SerialYields(server, plan, n, series, high, forthcoming);
    }
    ParallelYields(server, plan, finish, plan.start, series, high, forthcoming);
  }

  ghost predicate EndsWell<R(!new)>(server: Server<R>, plan: Plan, status: Status) {
    (!plan.checked || SafePlan(plan) ==> status != Overflowed) && (Faultless(server) ==> status != Failed)
  }

  lemma DownloadEnds<R(!new)>(server: Server<R>, plan: Plan, series: seq<R>)
    requires ValidPlan(plan) && Truthful(server, series) && plan.start <= plan.end
    ensures EndsWell(server, plan, Download(server, plan).status)
  {
    var finish := SerialFrom(server, plan);
    forall n: nat | CanFinishFrom(plan, n) ensures EndsWell(server, plan, finish(n).status) {
      SerialEnds(server, plan, n);
    }
    if !plan.checked || SafePlan(plan) {
      ParallelEnds(server, plan, finish, plan.start, series, Overflowed);
    }
    if Faultless(server) {
      ParallelEnds(server, plan, finish, plan.start, series, Failed);
    }
  }

  // --- the promises ------------------------------------------------------------------------------------------------

  /** The records are consecutive from the start of the range. */
  predicate Contiguous<R(==)>(plan: Plan, series: seq<R>, all: seq<R>) {
    all == [] || (plan.start + |all| <= |series| && all == series[plan.start..plan.start + |all|])
  }

  predicate WithinRange<R>(plan: Plan, all: seq<R>) {
    all == [] || plan.start + |all| <= plan.end
  }

  /** For every truthful server, every plan and either build, and however the download ends, the pages are consecutive
      records from the start of the range, without gaps or repeats; never beyond its end if the plan is safe or the
      arithmetic checked. */
  lemma DownloadIsContiguous<R(!new)>(server: Server<R>, plan: Plan, series: seq<R>)
    requires ValidPlan(plan) && Truthful(server, series)
    ensures var all := Concat(Download(server, plan).pages);
            Contiguous(plan, series, all) && (plan.checked || SafePlan(plan) ==> WithinRange(plan, all))
  {
    if plan.start <= plan.end {
      DownloadYields(server, plan, series, |series|, false);
      if plan.checked || SafePlan(plan) {
        DownloadYields(server, plan, series, Limit(plan, series), false);
      }
    }
  }

  /** The requested records a series has. */
  function Wanted<R>(plan: Plan, series: seq<R>): seq<R> {
    if plan.start < Limit(plan, series) then series[plan.start..Limit(plan, series)] else []
  }

  lemma YieldedMeans<R>(o: Outcome<R>, plan: Plan, series: seq<R>, high: nat)
    requires high == |series| || high == Limit(plan, series)
    requires Yielded(o, series, Limit(plan, series), high, plan.start, true) && o.status == Done
    ensures Wanted(plan, series) <= Concat(o.pages)
    ensures high == Limit(plan, series) ==> Concat(o.pages) == Wanted(plan, series)
  {
  }

  /** For every dense series, every plan and every way the server clamps its pages: a download that ends without an
      error has yielded all the requested records the server has, first and in order, and nothing more if the plan is
      safe; it always ends without one if no request fails and nothing panics. */
  lemma DownloadIsComplete<R(!new)>(server: Server<R>, plan: Plan, series: seq<R>)
    requires ValidPlan(plan) && Truthful(server, series) && Forthcoming(server, series)
    ensures EndsWell(server, plan, Download(server, plan).status)
    ensures Download(server, plan).status == Done ==>
              && Wanted(plan, series) <= Concat(Download(server, plan).pages)
              && (SafePlan(plan) ==> Concat(Download(server, plan).pages) == Wanted(plan, series))
  {
    var o := Download(server, plan);
    if plan.start <= plan.end {
      DownloadEnds(server, plan, series);
      var high := if SafePlan(plan) then Limit(plan, series) else |series|;
      DownloadYields(server, plan, series, high, true);
      if o.status == Done {
        YieldedMeans(o, plan, series, high);
      }
    }
  }

  // --- and exactly when --------------------------------------------------------------------------------------------

  /** An honest server of the first `total` numbers that hands out one at a time, except that a serial request at
      `eager` for more gets two. */
  function Numbers(total: nat, eager: nat): Server<nat> {
    (r: Request) =>
      if r.start >= total || r.count == 0 then Page([])
      else if r.serial && r.start == eager && r.count >= 2 && eager + 1 < total then Page([eager, eager + 1])
      else Page([r.start])
  }

  function Naturals(total: nat): (s: seq<nat>)
    ensures |s| == total && forall i :: 0 <= i < total ==> s[i] == i
  {
    seq(total, i => i)
  }

  lemma NumbersAreTruthful(total: nat, eager: nat)
    requires total < U64
    ensures Truthful(Numbers(total, eager), Naturals(total)) && Forthcoming(Numbers(total, eager), Naturals(total))
    ensures Faultless(Numbers(total, eager))
  {
    var server, series := Numbers(total, eager), Naturals(total);
    forall r: Request ensures InOrder(series, r, server(r)) {
      if r.start < total && r.count > 0 {
        assert series[r.start..r.start + 1] == [r.start];
        if eager + 1 < total {
          assert series[eager..eager + 2] == [eager, eager + 1];
        }
      }
    }
  }

  /** Where no page may come short, the first one does and the serial finish takes over. */
  lemma FirstPageIsShort(plan: Plan, total: nat, eager: nat)
    requires ValidPlan(plan) && !SafePlan(plan) && plan.end <= total
    ensures Download(Numbers(total, eager), plan) ==
            Prepend([plan.start], Serial(Numbers(total, eager), plan, plan.start + 1))
  {
    assert plan.size >= 2;
  }

  lemma {:induction false} OneByOneOverflows(plan: Plan, cursor: nat)
    requires ValidPlan(plan) && plan.checked && cursor < plan.end && plan.end + plan.size > U64
    ensures Serial(Numbers(plan.end, plan.end), plan, cursor).status == Overflowed
    decreases plan.end - cursor
  {
    if cursor + plan.size < U64 {
      OneByOneOverflows(plan, cursor + 1);
    }
  }

  lemma LastOverruns(plan: Plan)
    requires ValidPlan(plan) && !plan.checked && 0 < plan.end && plan.end + plan.size > U64
    ensures Serial(Numbers(plan.end + 1, plan.end - 1), plan, plan.end - 1).pages == [[plan.end - 1, plan.end]]
  {
    assert SerialCount(plan, plan.end - 1) == plan.size >= 2;
  }

  lemma {:induction false} SerialOverruns(plan: Plan, cursor: nat)
    requires ValidPlan(plan) && !plan.checked && cursor < plan.end && plan.end + plan.size > U64
    ensures |Concat(Serial(Numbers(plan.end + 1, plan.end - 1), plan, cursor).pages)| == plan.end + 1 - cursor
    decreases plan.end - cursor
  {
    if cursor == plan.end - 1 {
      LastOverruns(plan);
      ConcatCons([plan.end - 1, plan.end], []);
      assert [[plan.end - 1, plan.end]] + [] == [[plan.end - 1, plan.end]];
    } else {
      SerialOverruns(plan, cursor + 1);
      OneMore(plan, cursor);
    }
  }

  lemma OneMore(plan: Plan, cursor: nat)
    requires ValidPlan(plan) && !plan.checked && cursor + 1 < plan.end
    ensures var server := Numbers(plan.end + 1, plan.end - 1);
            |Concat(Serial(server, plan, cursor).pages)| == 1 + |Concat(Serial(server, plan, cursor + 1).pages)|
  {
    var server := Numbers(plan.end + 1, plan.end - 1);
    var rest := Serial(server, plan, cursor + 1);
    assert Serial(server, plan, cursor) == Prepend([cursor], rest);
    ConcatCons([cursor], rest.pages);
  }

  /** With checked arithmetic, no truthful server can make a download panic exactly when the plan is safe. */
  lemma NeverPanicsIff(plan: Plan)
    requires ValidPlan(plan) && plan.checked
    ensures (forall server: Server<nat>, series :: Truthful(server, series) ==>
               Download(server, plan).status != Overflowed) <==> SafePlan(plan)
  {
    if SafePlan(plan) {
      forall server: Server<nat>, series | Truthful(server, series)
        ensures Download(server, plan).status != Overflowed
      {
        if plan.start <= plan.end {
          DownloadEnds(server, plan, series);
        }
      }
    } else {
      NumbersAreTruthful(plan.end, plan.end);
      FirstPageIsShort(plan, plan.end, plan.end);
      OneByOneOverflows(plan, plan.start + 1);
    }
  }

  ghost predicate Stays(server: Server<nat>, plan: Plan)
    requires ValidPlan(plan)
  {
    WithinRange(plan, Concat(Download(server, plan).pages))
  }

  lemma UnsafePlanOverruns(plan: Plan)
    requires ValidPlan(plan) && !plan.checked && !SafePlan(plan)
    ensures !Stays(Numbers(plan.end + 1, plan.end - 1), plan)
  {
    var server := Numbers(plan.end + 1, plan.end - 1);
    FirstPageIsShort(plan, plan.end + 1, plan.end - 1);
    SerialOverruns(plan, plan.start + 1);
    BehindTheEnd(plan, Serial(server, plan, plan.start + 1));
  }

  lemma BehindTheEnd(plan: Plan, rest: Outcome<nat>)
    requires |Concat(rest.pages)| == plan.end - plan.start
    ensures !WithinRange(plan, Concat(Prepend([plan.start], rest).pages))
  {
    ConcatCons([plan.start], rest.pages);
  }

  /** With wrapping arithmetic, every truthful server's download stays within the range exactly when the plan is safe or
      its end is the last possible: for every other plan an honest server makes the serial finish ask for, and yield, a
      record beyond its end. */
  lemma StaysWithinRangeIff(plan: Plan)
    requires ValidPlan(plan) && !plan.checked
    ensures (forall server: Server<nat>, series :: Truthful(server, series) ==> Stays(server, plan))
            <==> SafePlan(plan) || plan.end == U64 - 1
  {
    if SafePlan(plan) || plan.end == U64 - 1 {
      forall server: Server<nat>, series | Truthful(server, series) ensures Stays(server, plan) {
        DownloadIsContiguous(server, plan, series);
      }
    } else {
      NumbersAreTruthful(plan.end + 1, plan.end - 1);
      UnsafePlanOverruns(plan);
    }
  }
}
