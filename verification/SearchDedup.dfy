/** Deduplicated search: the correlated NOT EXISTS query against a scan that keeps the first row of each command. */
module SearchDedup {
  import opened Basics
  import opened Sorting

  datatype Row = Row(id: string, timestamp: int, command: string)

  // --- text order ---------------------------------------------------------------------------------------------

  /** Strings as SQLite compares them, code unit by code unit. */
  predicate Less(a: string, b: string) {
    b != [] && (a == [] || a[0] < b[0] || (a[0] == b[0] && Less(a[1..], b[1..])))
  }

  lemma {:induction false} LessTotal(a: string, b: string)
    ensures Less(a, b) || a == b || Less(b, a)
    ensures !(Less(a, b) && Less(b, a)) && !Less(a, a)
  {
    if a != [] {
      LessTotal(a[1..], a[1..]);
    }
    if a != [] && b != [] {
      LessTotal(a[1..], b[1..]);
      if a[0] == b[0] && a[1..] == b[1..] {
        assert a == [a[0]] + a[1..] && b == [b[0]] + b[1..];
      }
    }
  }

  lemma {:induction false} LessTransitive(a: string, b: string, c: string)
    requires Less(a, b) && Less(b, c)
    ensures Less(a, c)
  {
    if a != [] && a[0] == b[0] && b[0] == c[0] {
      LessTransitive(a[1..], b[1..], c[1..]);
    }
  }

  /** A string is less than another exactly when it is a proper prefix of it, or has the smaller character where the two
      first differ. */
  lemma {:induction false} LessIff(a: string, b: string)
    ensures Less(a, b) <==>
            exists n :: 0 <= n <= |a| && n < |b| && a[..n] == b[..n] && (n == |a| || a[n] < b[n])
  {
    if a != [] && b != [] && a[0] == b[0] {
      LessIff(a[1..], b[1..]);
      if Less(a, b) {
        var n :| 0 <= n <= |a[1..]| && n < |b[1..]| && a[1..][..n] == b[1..][..n]
                 && (n == |a[1..]| || a[1..][n] < b[1..][n]);
        assert a[..n + 1] == [a[0]] + a[1..][..n] && b[..n + 1] == [b[0]] + b[1..][..n];
      }
      if n :| 0 <= n <= |a| && n < |b| && a[..n] == b[..n] && (n == |a| || a[n] < b[n]) {
        assert n > 0;
        assert a[1..][..n - 1] == a[..n][1..] && b[1..][..n - 1] == b[..n][1..];
      }
    } else if a != [] && b != [] {
      FirstDiffers(a, b);
    } else if b != [] {
      assert a[..0] == b[..0];
    }
  }

  lemma FirstDiffers(a: string, b: string)
    requires a != [] && b != [] && a[0] != b[0]
    ensures (exists n :: 0 <= n <= |a| && n < |b| && a[..n] == b[..n] && (n == |a| || a[n] < b[n])) <==> a[0] < b[0]
  {
    forall n | 0 < n <= |a| && n < |b| ensures a[..n] != b[..n] {
      assert a[..n][0] != b[..n][0];
    }
    assert a[..0] == b[..0];
  }

  /** The row-value comparison `(x.timestamp, x.id) > (y.timestamp, y.id)`. */
  predicate Beats(x: Row, y: Row) {
    x.timestamp > y.timestamp || (x.timestamp == y.timestamp && Less(y.id, x.id))
  }

  lemma BeatsTotal(x: Row, y: Row)
    requires x.id != y.id
    ensures Beats(x, y) != Beats(y, x)
  {
    LessTotal(x.id, y.id);
  }

  lemma BeatsTransitive(x: Row, y: Row, z: Row)
    requires Beats(x, y) && Beats(y, z)
    ensures Beats(x, z)
  {
    if x.timestamp == z.timestamp {
      LessTransitive(z.id, y.id, x.id);
    }
  }

  // --- the query ------------------------------------------------------------------------------------------------

  predicate UniqueIds(rows: seq<Row>) {
    forall i, j :: 0 <= i < j < |rows| ==> rows[i].id != rows[j].id
  }

  /** No row of the same command is greater. */
  predicate Survives(rows: seq<Row>, r: Row) {
    !exists i :: 0 <= i < |rows| && rows[i].command == r.command && Beats(rows[i], r)
  }

  /** The row itself if it survives. */
  function Kept(rows: seq<Row>, r: Row): seq<Row> {
    if Survives(rows, r) then [r] else []
  }

  /** The rows among `some` that survive among `rows`. */
  function Survivors(rows: seq<Row>, some: seq<Row>): seq<Row> {
    if some == [] then [] else Kept(rows, some[0]) + Survivors(rows, some[1..])
  }

  lemma {:induction false} SurvivorsAre(rows: seq<Row>, some: seq<Row>, r: Row)
    ensures r in Survivors(rows, some) <==> r in some && Survives(rows, r)
  {
    if some != [] {
      SurvivorsAre(rows, some[1..], r);
      assert r in some <==> r == some[0] || r in some[1..];
    }
  }

  /** The greatest row of a command. */
  lemma {:induction false} SomeRowIsGreatest(rows: seq<Row>, command: string) returns (best: Row)
    requires UniqueIds(rows) && exists i :: 0 <= i < |rows| && rows[i].command == command
    ensures best in rows && best.command == command
    ensures forall i :: 0 <= i < |rows| && rows[i].command == command ==> rows[i] == best || Beats(best, rows[i])
  {
    var init, last := rows[..|rows| - 1], rows[|rows| - 1];
    if exists i :: 0 <= i < |init| && init[i].command == command {
      best := SomeRowIsGreatest(init, command);
      var k :| 0 <= k < |init| && init[k] == best;
      BeatsTotal(best, last);
      if last.command == command && Beats(last, best) {
        forall i | 0 <= i < |init| && init[i].command == command ensures Beats(last, init[i]) {
          if init[i] != best {
            BeatsTransitive(last, best, init[i]);
          }
        }
        best := last;
      }
    } else {
      best := last;
      assert forall i :: 0 <= i < |rows| - 1 ==> rows[i] == init[i];
    }
  }

  /** Exactly one row per command survives, and it is the greatest of them. */
  lemma OneSurvivorPerCommand(rows: seq<Row>, command: string) returns (best: Row)
    requires UniqueIds(rows) && exists i :: 0 <= i < |rows| && rows[i].command == command
    ensures best in rows && best.command == command
    ensures forall r :: r in rows && r.command == command ==> (r in Survivors(rows, rows) <==> r == best)
    ensures forall r :: r in rows && r.command == command ==> r == best || Beats(best, r)
    ensures forall r :: r in rows && r.command == command ==>
              r.timestamp <= best.timestamp && (r.timestamp == best.timestamp ==> r == best || Less(r.id, best.id))
  {
    best := SomeRowIsGreatest(rows, command);
    forall r | r in rows && r.command == command
      ensures r in Survivors(rows, rows) <==> r == best
      ensures r == best || Beats(best, r)
    {
      SurvivorsAre(rows, rows, r);
      var i :| 0 <= i < |rows| && rows[i] == r;
      var k :| 0 <= k < |rows| && rows[k] == best;
      if r == best {
        BestSurvives(rows, best);
      } else {
        assert Beats(rows[k], r);
      }
    }
  }

  lemma BestSurvives(rows: seq<Row>, best: Row)
    requires forall i :: 0 <= i < |rows| && rows[i].command == best.command ==> rows[i] == best || Beats(best, rows[i])
    ensures Survives(rows, best)
  {
    forall i | 0 <= i < |rows| && rows[i].command == best.command ensures !Beats(rows[i], best) {
      LessTotal(rows[i].id, best.id);
    }
  }

  // --- the scan ---------------------------------------------------------------------------------------------------

  /** Keeps the first row of each command not seen before, until `limit` rows are out. */
  function Scan(rows: seq<Row>, seen: set<string>, limit: nat): (r: seq<Row>)
    ensures |r| <= limit
  {
    if rows == [] || limit == 0 then []
    else if rows[0].command in seen then Scan(rows[1..], seen, limit)
    else [rows[0]] + Scan(rows[1..], seen + {rows[0].command}, limit - 1)
  }

  predicate Descending(rows: seq<Row>) {
    forall i, j :: 0 <= i < j < |rows| ==> Beats(rows[i], rows[j])
  }

  function Limited(rows: seq<Row>, limit: nat): seq<Row> {
    if limit < |rows| then rows[..limit] else rows
  }

  /** In descending order a row survives exactly when its command did not come up before it. */
  lemma SurvivesIffFirst(rows: seq<Row>, at: nat)
    requires Descending(rows) && at < |rows|
    ensures Survives(rows, rows[at]) <==> forall i :: 0 <= i < at ==> rows[i].command != rows[at].command
  {
    forall i | 0 <= i < |rows| ensures Beats(rows[i], rows[at]) <==> i < at {
      LessTotal(rows[i].id, rows[at].id);
      if i < at {
        assert Beats(rows[i], rows[at]);
      } else if at < i {
        assert Beats(rows[at], rows[i]);
      }
    }
  }

  /** The commands of the first `at` rows. */
  function Commands(rows: seq<Row>, at: nat): set<string>
    requires at <= |rows|
  {
    if at == 0 then {} else Commands(rows, at - 1) + {rows[at - 1].command}
  }

  lemma {:induction false} CommandsAre(rows: seq<Row>, at: nat, c: string)
    requires at <= |rows|
    ensures c in Commands(rows, at) <==> exists i :: 0 <= i < at && rows[i].command == c
  {
    if at > 0 {
      CommandsAre(rows, at - 1, c);
      if rows[at - 1].command == c {
        assert exists i :: 0 <= i < at && rows[i].command == c;
      }
    }
  }

  /** Survival means that the command is new. */
  predicate NewSurvive(rows: seq<Row>) {
    forall k {:trigger Commands(rows, k)} :: 0 <= k < |rows|
        ==> (Survives(rows, rows[k]) <==> rows[k].command !in Commands(rows, k))
  }

  lemma DescendingNewSurvive(rows: seq<Row>)
    requires Descending(rows)
    ensures NewSurvive(rows)
  {
    forall k | 0 <= k < |rows| ensures Survives(rows, rows[k]) <==> rows[k].command !in Commands(rows, k) {
      SurvivesIffFirst(rows, k);
      CommandsAre(rows, k, rows[k].command);
    }
  }

  predicate ScanAgrees(rows: seq<Row>, rest: seq<Row>, seen: set<string>, limit: nat) {
    Limited(Survivors(rows, rest), limit) == Scan(rest, seen, limit)
  }

  lemma ScanStep(rows: seq<Row>, r: Row, rest: seq<Row>, seen: set<string>, limit: nat)
    requires limit > 0 && (Survives(rows, r) <==> r.command !in seen)
    requires if r.command in seen then ScanAgrees(rows, rest, seen, limit)
             else ScanAgrees(rows, rest, seen + {r.command}, limit - 1)
    ensures ScanAgrees(rows, [r] + rest, seen, limit)
  {
    var all := [r] + rest;
    assert all[0] == r && all[1..] == rest;
    if r.command in seen {
      assert Survivors(rows, all) == Survivors(rows, rest);
    } else {
      LimitedCons(r, Survivors(rows, rest), limit);
    }
  }

  lemma {:induction false} ScanFrom(rows: seq<Row>, at: nat, limit: nat)
    requires NewSurvive(rows) && at <= |rows|
    ensures ScanAgrees(rows, rows[at..], Commands(rows, at), limit)
    decreases |rows| - at
  {
    if at < |rows| && limit > 0 {
      var r, seen := rows[at], Commands(rows, at);
      if r.command in seen {
        assert seen + {r.command} == seen;
        ScanFrom(rows, at + 1, limit);
      } else {
        ScanFrom(rows, at + 1, limit - 1);
      }
      ScanStep(rows, r, rows[at + 1..], seen, limit);
      assert rows[at..] == [r] + rows[at + 1..];
    }
  }

  lemma LimitedCons(r: Row, rest: seq<Row>, limit: nat)
    requires limit > 0
    ensures Limited([r] + rest, limit) == [r] + Limited(rest, limit - 1)
  {
  }

  /** Over rows already in descending (timestamp, id) order. */
  lemma SortedQueryIsScan(rows: seq<Row>, limit: nat)
    requires Descending(rows)
    ensures Limited(Survivors(rows, rows), limit) == Scan(rows, {}, limit)
  {
    DescendingNewSurvive(rows);
    ScanFrom(rows, 0, limit);
    assert rows[0..] == rows;
  }

  // --- any order the query may answer in -----------------------------------------------------------------------------

  /** ORDER BY timestamp DESC: rows of equal timestamps may come in any order. */
  predicate ByTimestamp(rows: seq<Row>) {
    forall i, j :: 0 <= i < j < |rows| ==> rows[i].timestamp >= rows[j].timestamp
  }

  function Times(rows: seq<Row>): (t: seq<int>)
    ensures |t| == |rows| && forall i :: 0 <= i < |t| ==> t[i] == rows[i].timestamp
  {
    seq(|rows|, i requires 0 <= i < |rows| => rows[i].timestamp)
  }

  function Without<T>(s: seq<T>, at: nat): seq<T>
    requires at < |s|
  {
    s[..at] + s[at + 1..]
  }

  lemma WithoutMultiset<T>(s: seq<T>, at: nat)
    requires at < |s|
    ensures multiset(s) == multiset{s[at]} + multiset(Without(s, at))
  {
    assert s == s[..at] + [s[at]] + s[at + 1..];
  }

  /** Taking the same element out of two permutations leaves two permutations. */
  lemma WithoutBoth<T>(s: seq<T>, i: nat, t: seq<T>, j: nat)
    requires i < |s| && j < |t| && s[i] == t[j] && multiset(s) == multiset(t)
    ensures multiset(Without(s, i)) == multiset(Without(t, j))
  {
    WithoutMultiset(s, i);
    WithoutMultiset(t, j);
    var m, n := multiset(Without(s, i)), multiset(Without(t, j));
    forall x ensures m[x] == n[x] {
      assert (multiset{s[i]} + m)[x] == (multiset{s[i]} + n)[x];
    }
  }

  lemma SameElements<T>(s: seq<T>, t: seq<T>, i: nat) returns (j: nat)
    requires multiset(s) == multiset(t) && i < |s|
    ensures j < |t| && t[j] == s[i]
  {
    assert s[i] in multiset(t);
    j :| 0 <= j < |t| && t[j] == s[i];
  }

  lemma SameLength<T>(s: seq<T>, t: seq<T>)
    requires multiset(s) == multiset(t)
    ensures |s| == |t|
  {
    assert |multiset(s)| == |multiset(t)|;
  }

  lemma TimesWithout(s: seq<Row>, at: nat)
    requires at < |s|
    ensures Times(Without(s, at)) == Without(Times(s), at)
  {
  }

  lemma {:induction false} TimesPermute(a: seq<Row>, b: seq<Row>)
    requires multiset(a) == multiset(b)
    ensures multiset(Times(a)) == multiset(Times(b))
    decreases |a|
  {
    SameLength(a, b);
    if a != [] {
      var j := SameElements(a, b, 0);
      WithoutBoth(a, 0, b, j);
      TimesPermute(Without(a, 0), Without(b, j));
      TimesWithout(a, 0);
      TimesWithout(b, j);
      WithoutMultiset(Times(a), 0);
      WithoutMultiset(Times(b), j);
    }
  }

  predicate Nonincreasing(t: seq<int>) {
    forall i, j :: 0 <= i < j < |t| ==> t[i] >= t[j]
  }

  lemma HeadsAgree(t: seq<int>, u: seq<int>)
    requires multiset(t) == multiset(u) && Nonincreasing(t) && Nonincreasing(u) && t != []
    ensures u != [] && t[0] == u[0] && multiset(t[1..]) == multiset(u[1..])
  {
    SameLength(t, u);
    var j := SameElements(t, u, 0);
    var i := SameElements(u, t, 0);
    assert u[0] >= u[j] && t[0] >= t[i];
    WithoutBoth(t, 0, u, 0);
    assert Without(t, 0) == t[1..] && Without(u, 0) == u[1..];
  }

  lemma {:induction false} SortedOneWay(t: seq<int>, u: seq<int>)
    requires multiset(t) == multiset(u) && Nonincreasing(t) && Nonincreasing(u)
    ensures t == u
    decreases |t|
  {
    SameLength(t, u);
    if t != [] {
      HeadsAgree(t, u);
      SortedOneWay(t[1..], u[1..]);
      assert t == [t[0]] + t[1..];
    }
  }

  /** An answer the query may give: the surviving rows, ordered by timestamp only. */
  predicate Answers(answer: seq<Row>, rows: seq<Row>) {
    multiset(answer) == multiset(Survivors(rows, rows)) && ByTimestamp(answer)
  }

  lemma {:induction false} SurvivorsDescend(rows: seq<Row>, some: seq<Row>)
    requires Descending(some)
    ensures Descending(Survivors(rows, some))
  {
    if some != [] {
      var rest := Survivors(rows, some[1..]);
      SurvivorsDescend(rows, some[1..]);
      forall r | r in rest ensures Beats(some[0], r) {
        SurvivorsAre(rows, some[1..], r);
        var i :| 0 <= i < |some[1..]| && some[1..][i] == r;
        assert Beats(some[0], some[i + 1]);
      }
    }
  }

  lemma SortedAnswersShareTimes(rows: seq<Row>, answer: seq<Row>, limit: nat)
    requires Descending(rows) && Answers(answer, rows)
    ensures Times(Limited(answer, limit)) == Times(Scan(rows, {}, limit))
  {
    var s := Survivors(rows, rows);
    SurvivorsDescend(rows, rows);
    TimesPermute(answer, s);
    SortedOneWay(Times(answer), Times(s));
    SortedQueryIsScan(rows, limit);
    assert |answer| == |s|;
    forall i | 0 <= i < |Limited(s, limit)|
        ensures Limited(answer, limit)[i].timestamp == Limited(s, limit)[i].timestamp {
      assert Times(answer)[i] == Times(s)[i];
    }
  }

  /** No two of these rows share a timestamp. */
  predicate DistinctTimes(rows: seq<Row>) {
    forall r, q :: r in rows && q in rows && r.timestamp == q.timestamp ==> r == q
  }

  lemma DistinctTimesOneAnswer(rows: seq<Row>, answer: seq<Row>)
    requires Descending(rows) && Answers(answer, rows) && DistinctTimes(Survivors(rows, rows))
    ensures answer == Survivors(rows, rows)
  {
    var s := Survivors(rows, rows);
    SurvivorsDescend(rows, rows);
    TimesPermute(answer, s);
    SortedOneWay(Times(answer), Times(s));
    forall i | 0 <= i < |s| ensures answer[i] == s[i] {
      assert Times(answer)[i] == Times(s)[i];
      assert answer[i] in multiset(answer);
      var j :| 0 <= j < |s| && s[j] == answer[i];
      assert s[i] in s && s[j] in s;
    }
  }

  /** Neighbours that tie can change places. */
  lemma SwapTie(s: seq<Row>, i: nat) returns (t: seq<Row>)
    requires Descending(s) && i + 1 < |s| && s[i].timestamp == s[i + 1].timestamp
    ensures multiset(t) == multiset(s) && ByTimestamp(t) && t != s
  {
    t := s[i := s[i + 1]][i + 1 := s[i]];
    assert Beats(s[i], s[i + 1]);
    LessTotal(s[i].id, s[i + 1].id);
    assert t[i] == s[i + 1] != s[i];
    forall k | 0 <= k < |s| ensures t[k].timestamp == s[k].timestamp {
    }
  }

  /** In descending order, a tie is also one between neighbours. */
  lemma TieOfNeighbours(s: seq<Row>, i: nat, j: nat)
    requires Descending(s) && i < j < |s| && s[i].timestamp == s[j].timestamp
    ensures s[i].timestamp == s[i + 1].timestamp
  {
    assert Beats(s[i], s[i + 1]);
    if i + 1 < j {
      assert Beats(s[i + 1], s[j]);
    }
  }

  lemma FindTie(s: seq<Row>) returns (i: nat)
    requires Descending(s) && !DistinctTimes(s)
    ensures i + 1 < |s| && s[i].timestamp == s[i + 1].timestamp
  {
    var r, q :| r in s && q in s && r.timestamp == q.timestamp && r != q;
    i :| 0 <= i < |s| && s[i] == r;
    var j :| 0 <= j < |s| && s[j] == q;
    if i < j {
      TieOfNeighbours(s, i, j);
    } else {
      TieOfNeighbours(s, j, i);
      i := j;
    }
  }

  lemma TieMakesAnotherAnswer(rows: seq<Row>) returns (answer: seq<Row>)
    requires Descending(rows) && !DistinctTimes(Survivors(rows, rows))
    ensures Answers(answer, rows) && answer != Survivors(rows, rows)
  {
    SurvivorsDescend(rows, rows);
    var i := FindTie(Survivors(rows, rows));
    answer := SwapTie(Survivors(rows, rows), i);
  }

  lemma SortedAnswerIsUniqueIff(rows: seq<Row>)
    requires Descending(rows)
    ensures (forall answer :: Answers(answer, rows) ==> answer == Survivors(rows, rows))
            <==> DistinctTimes(Survivors(rows, rows))
  {
    if DistinctTimes(Survivors(rows, rows)) {
      forall answer | Answers(answer, rows) ensures answer == Survivors(rows, rows) {
        DistinctTimesOneAnswer(rows, answer);
      }
    } else {
      var answer := TieMakesAnotherAnswer(rows);
    }
  }

  // --- tables in any order -----------------------------------------------------------------------------------------

  /** ORDER BY timestamp DESC, id DESC. */
  function Descend(rows: seq<Row>): (r: seq<Row>) {
    SortedForm(rows, Beats)
  }

  lemma NotLessTransitive(a: string, b: string, c: string)
    requires !Less(b, a) && !Less(c, b)
    ensures !Less(c, a)
  {
    LessTotal(a, b);
    if Less(c, a) && Less(a, b) {
      LessTransitive(c, a, b);
    }
  }

  lemma BeatsIsWeak()
    ensures WeakOrder(Beats)
  {
    forall x, y | Beats(x, y) ensures !Beats(y, x) {
      LessTotal(x.id, y.id);
    }
    forall x, y, z | !Beats(x, y) && !Beats(y, z) ensures !Beats(x, z) {
      if x.timestamp == y.timestamp == z.timestamp {
        NotLessTransitive(x.id, y.id, z.id);
      }
    }
  }

  lemma OthersHaveOtherIds(a: seq<Row>, rest: seq<Row>)
    requires UniqueIds(a) && a != [] && multiset(a[1..]) == multiset(rest)
    ensures forall k :: 0 <= k < |rest| ==> rest[k].id != a[0].id
  {
    forall k | 0 <= k < |rest| ensures rest[k].id != a[0].id {
      var i := SameElements(rest, a[1..], k);
      assert a[1..][i] == a[i + 1];
    }
  }

  /** A permutation of rows with unique ids has unique ids. */
  lemma {:induction false} UniqueIdsPermute(a: seq<Row>, b: seq<Row>)
    requires UniqueIds(a) && multiset(a) == multiset(b)
    ensures UniqueIds(b)
    decreases |a|
  {
    SameLength(a, b);
    if a != [] {
      var j := SameElements(a, b, 0);
      var rest := Without(b, j);
      assert Without(a, 0) == a[1..];
      WithoutBoth(a, 0, b, j);
      UniqueIdsPermute(a[1..], rest);
      OthersHaveOtherIds(a, rest);
      UniqueIdsWith(b, j);
    }
  }

  lemma UniqueIdsWith(s: seq<Row>, at: nat)
    requires at < |s| && UniqueIds(Without(s, at))
    requires forall k :: 0 <= k < |Without(s, at)| ==> Without(s, at)[k].id != s[at].id
    ensures UniqueIds(s)
  {
    var rest := Without(s, at);
    forall i, j | 0 <= i < j < |s| ensures s[i].id != s[j].id {
      assert i < at ==> rest[i] == s[i];
      assert i > at ==> rest[i - 1] == s[i];
      assert j < at ==> rest[j] == s[j];
      assert j > at ==> rest[j - 1] == s[j];
    }
  }

  /** Every table with unique ids has a descending permutation. */
  lemma DescendDescends(rows: seq<Row>)
    requires UniqueIds(rows)
    ensures Descending(Descend(rows)) && multiset(Descend(rows)) == multiset(rows)
  {
    var d := Descend(rows);
    BeatsIsWeak();
    SortedFormSorts(rows, Beats);
    UniqueIdsPermute(rows, d);
    forall i, j | 0 <= i < j < |d| ensures Beats(d[i], d[j]) {
      BeatsTotal(d[i], d[j]);
    }
  }

  lemma DescendingHeads(a: seq<Row>, b: seq<Row>)
    requires Descending(a) && Descending(b) && multiset(a) == multiset(b) && a != []
    ensures b != [] && a[0] == b[0] && multiset(a[1..]) == multiset(b[1..])
  {
    SameLength(a, b);
    var j := SameElements(a, b, 0);
    var i := SameElements(b, a, 0);
    if a[0] != b[0] {
      assert Beats(b[0], b[j]) && Beats(a[0], a[i]);
      LessTotal(a[0].id, b[0].id);
      assert false;
    }
    WithoutBoth(a, 0, b, 0);
    assert Without(a, 0) == a[1..] && Without(b, 0) == b[1..];
  }

  /** And only one. */
  lemma {:induction false} DescendingDetermined(a: seq<Row>, b: seq<Row>)
    requires Descending(a) && Descending(b) && multiset(a) == multiset(b)
    ensures a == b
    decreases |a|
  {
    SameLength(a, b);
    if a != [] {
      DescendingHeads(a, b);
      DescendingDetermined(a[1..], b[1..]);
      assert a == [a[0]] + a[1..] && b == [b[0]] + b[1..];
    }
  }

  /** Survival depends only on which rows there are. */
  lemma SurvivesPermute(a: seq<Row>, b: seq<Row>, r: Row)
    requires multiset(a) == multiset(b) && Survives(a, r)
    ensures Survives(b, r)
  {
    forall i | 0 <= i < |b| && b[i].command == r.command ensures !Beats(b[i], r) {
      var j := SameElements(b, a, i);
      assert a[j] == b[i];
    }
  }

  lemma {:induction false} SurvivorsAmong(a: seq<Row>, b: seq<Row>, some: seq<Row>)
    requires multiset(a) == multiset(b)
    ensures Survivors(a, some) == Survivors(b, some)
  {
    if some != [] {
      SurvivorsAmong(a, b, some[1..]);
      if Survives(a, some[0]) {
        SurvivesPermute(a, b, some[0]);
      } else if Survives(b, some[0]) {
        SurvivesPermute(b, a, some[0]);
      }
    }
  }

  lemma {:induction false} SurvivorsAppend(rows: seq<Row>, a: seq<Row>, b: seq<Row>)
    ensures Survivors(rows, a + b) == Survivors(rows, a) + Survivors(rows, b)
  {
    if a == [] {
      assert a + b == b;
    } else {
      SurvivorsAppend(rows, a[1..], b);
      assert (a + b)[0] == a[0] && (a + b)[1..] == a[1..] + b;
      Associative(Kept(rows, a[0]), Survivors(rows, a[1..]), Survivors(rows, b));
    }
  }

  lemma SurvivorsOfOne(rows: seq<Row>, r: Row)
    ensures Survivors(rows, [r]) == Kept(rows, r)
  {
    assert [r][1..] == [];
  }

  lemma SurvivorsWithout(rows: seq<Row>, some: seq<Row>, at: nat)
    requires at < |some|
    ensures multiset(Survivors(rows, some)) ==
            multiset(Kept(rows, some[at])) + multiset(Survivors(rows, Without(some, at)))
  {
    var a, r, b := some[..at], some[at], some[at + 1..];
    assert some == a + ([r] + b);
    SurvivorsAppend(rows, a, [r] + b);
    SurvivorsAppend(rows, [r], b);
    SurvivorsOfOne(rows, r);
    SurvivorsAppend(rows, a, b);
  }

  lemma {:induction false} SurvivorsPermute(rows: seq<Row>, a: seq<Row>, b: seq<Row>)
    requires multiset(a) == multiset(b)
    ensures multiset(Survivors(rows, a)) == multiset(Survivors(rows, b))
    decreases |a|
  {
    SameLength(a, b);
    if a != [] {
      var j := SameElements(a, b, 0);
      WithoutBoth(a, 0, b, j);
      SurvivorsPermute(rows, Without(a, 0), Without(b, j));
      SurvivorsWithout(rows, a, 0);
      SurvivorsWithout(rows, b, j);
    }
  }

  lemma {:induction false} SurvivorsUnique(rows: seq<Row>, some: seq<Row>)
    requires UniqueIds(some)
    ensures UniqueIds(Survivors(rows, some))
  {
    if some != [] {
      var rest := Survivors(rows, some[1..]);
      SurvivorsUnique(rows, some[1..]);
      forall r | r in rest ensures r.id != some[0].id {
        SurvivorsAre(rows, some[1..], r);
        var i :| 0 <= i < |some[1..]| && some[1..][i] == r;
        assert some[i + 1] == r;
      }
    }
  }

  /** The survivors of a table, in descending order, are the survivors of the table in descending order. */
  lemma SurvivorsOfTable(rows: seq<Row>)
    requires UniqueIds(rows)
    ensures var d := Descend(rows);
            && Descending(d)
            && multiset(Survivors(d, d)) == multiset(Survivors(rows, rows))
            && Descend(Survivors(rows, rows)) == Survivors(d, d)
  {
    var d := Descend(rows);
    DescendDescends(rows);
    SurvivorsAmong(rows, d, rows);
    SurvivorsPermute(d, rows, d);
    var s, t := Survivors(d, d), Survivors(rows, rows);
    SurvivorsDescend(d, d);
    SurvivorsUnique(rows, rows);
    DescendDescends(t);
    DescendingDetermined(s, Descend(t));
  }

  /** The query on any table with unique ids: in descending (timestamp, id) order and with any limit, it is the scan of
      the table in that order that keeps each command's first row and stops at the limit. */
  lemma QueryIsScan(rows: seq<Row>, limit: nat)
    requires UniqueIds(rows)
    ensures Limited(Descend(Survivors(rows, rows)), limit) == Scan(Descend(rows), {}, limit)
  {
    SurvivorsOfTable(rows);
    SortedQueryIsScan(Descend(rows), limit);
  }

  /** Ordered by timestamp only, every answer still has the timestamps of the scan, also within a limit. */
  lemma AnswersShareTimes(rows: seq<Row>, answer: seq<Row>, limit: nat)
    requires UniqueIds(rows) && Answers(answer, rows)
    ensures Times(Limited(answer, limit)) == Times(Scan(Descend(rows), {}, limit))
  {
    SurvivorsOfTable(rows);
    SortedAnswersShareTimes(Descend(rows), answer, limit);
  }

  lemma DistinctTimesPermute(a: seq<Row>, b: seq<Row>)
    requires multiset(a) == multiset(b)
    ensures DistinctTimes(a) <==> DistinctTimes(b)
  {
    forall r ensures r in a <==> r in b {
      assert r in a <==> r in multiset(a);
      assert r in b <==> r in multiset(b);
    }
  }

  /** Ordering by timestamp alone determines the answer exactly when no two surviving rows share a timestamp. */
  lemma AnswerIsUniqueIff(rows: seq<Row>)
    requires UniqueIds(rows)
    ensures (forall answer :: Answers(answer, rows) ==> answer == Descend(Survivors(rows, rows)))
            <==> DistinctTimes(Survivors(rows, rows))
  {
    var d := Descend(rows);
    SurvivorsOfTable(rows);
    SortedAnswerIsUniqueIff(d);
    DistinctTimesPermute(Survivors(rows, rows), Survivors(d, d));
    assert forall answer :: Answers(answer, rows) <==> Answers(answer, d);
  }
}
