/**
 The key-value cache over a log of records: a rebuild that scans the log from its newest record and visits each joined
 name once, against the plain replay of the log from its oldest record.
 */
module KvStore {
  import opened Basics

  datatype Pair = Pair(namespace: string, key: string)

  /** A record that cannot be decrypted or decoded is skipped; a record without a value deletes. */
  datatype Record = Undecodable | Kv(pair: Pair, value: Option<string>)

  type Cache = map<Pair, string>

  function Lookup(cache: Cache, p: Pair): Option<string> {
    if p in cache then Some(cache[p]) else None
  }

  /** The name under which the rebuild remembers a pair. */
  function UniqId(p: Pair): string {
    p.namespace + "." + p.key
  }

  // --- the simple form: replay the log, the last writer wins --------------------------------------------------

  function Write(cache: Cache, r: Record): Cache {
    match r
    case Undecodable => cache
    case Kv(p, Some(v)) => cache[p := v]
    case Kv(p, None) => cache - {p}
  }

  function Replay(log: seq<Record>): Cache {
    if log == [] then map[] else Write(Replay(log[..|log| - 1]), log[|log| - 1])
  }

  lemma ReplaySnoc(log: seq<Record>, r: Record)
    ensures Replay(log + [r]) == Write(Replay(log), r)
  {
    assert (log + [r])[..|log|] == log;
  }

  // --- the newest record of a name or of a pair ------------------------------------------------------------------

  datatype Selector = ById(id: string) | ByPair(pair: Pair) {
    predicate Selects(r: Record) {
      r.Kv? && if ById? then UniqId(r.pair) == id else r.pair == pair
    }
  }

  function Newest(log: seq<Record>, s: Selector): (r: Record)
    ensures r.Kv? ==> s.Selects(r) && r in log
  {
    if log == [] then Undecodable
    else
      var later := Newest(log[1..], s);
      if later.Kv? then later else if s.Selects(log[0]) then log[0] else Undecodable
  }

  lemma {:induction false} NewestAppend(a: seq<Record>, b: seq<Record>, s: Selector)
    ensures Newest(a + b, s) == if Newest(b, s).Kv? then Newest(b, s) else Newest(a, s)
  {
    if a == [] {
      assert a + b == b;
    } else {
      NewestAppend(a[1..], b, s);
      assert (a + b)[1..] == a[1..] + b && (a + b)[0] == a[0];
    }
  }

  lemma NewestSnoc(log: seq<Record>, r: Record, s: Selector)
    ensures Newest(log + [r], s) == if s.Selects(r) then r else Newest(log, s)
  {
    NewestAppend(log, [r], s);
    assert Newest([r], s) == if s.Selects(r) then r else Undecodable by {
      assert [r][1..] == [];
    }
  }

  lemma {:induction false} NewestFinds(log: seq<Record>, s: Selector, i: nat)
    requires i < |log| && s.Selects(log[i])
    ensures Newest(log, s).Kv?
  {
    if i > 0 {
      NewestFinds(log[1..], s, i - 1);
    }
  }

  function ValueOf(r: Record): Option<string> {
    if r.Kv? then r.value else None
  }

  /** Replay keeps, for each pair, the value of its newest record. */
  lemma {:induction false} ReplayIsNewest(log: seq<Record>, p: Pair)
    ensures Lookup(Replay(log), p) == ValueOf(Newest(log, ByPair(p)))
  {
    if log != [] {
      var init, last := log[..|log| - 1], log[|log| - 1];
      assert log == init + [last];
      ReplayIsNewest(init, p);
      NewestSnoc(init, last, ByPair(p));
    }
  }

  // --- the fast form ----------------------------------------------------------------------------------------------

  /** What scanning some newest part of the log leaves of a cache. */
  function ScannedAt(cache: Cache, log: seq<Record>, p: Pair): Option<string> {
    var r := Newest(log, ById(UniqId(p)));
    if r.Kv? && r.pair == p then r.value else Lookup(cache, p)
  }

  /** What the whole rebuild leaves: pairs whose name never came up are removed. */
  function RebuiltAt(cache: Cache, log: seq<Record>, p: Pair): Option<string> {
    if Newest(log, ById(UniqId(p))).Kv? then ScannedAt(cache, log, p) else None
  }

  ghost predicate Visits(visited: set<string>, log: seq<Record>) {
    forall id :: id in visited <==> Newest(log, ById(id)).Kv?
  }

  lemma ConsNewest(r: Record, log: seq<Record>, s: Selector)
    ensures Newest([r] + log, s) == if Newest(log, s).Kv? then Newest(log, s) else if s.Selects(r) then r
        else Undecodable
  {
    assert ([r] + log)[1..] == log;
  }

  /** One record of the scan. */
  method Visit(r: Record, cache: Cache, visited: set<string>, ghost start: Cache, ghost log: seq<Record>)
    returns (cache': Cache, visited': set<string>)
    requires Visits(visited, log)
    requires forall p :: Lookup(cache, p) == ScannedAt(start, log, p)
    ensures Visits(visited', [r] + log)
    ensures forall p :: Lookup(cache', p) == ScannedAt(start, [r] + log, p)
  {
    cache', visited' := cache, visited;
    forall s ensures Newest([r] + log, s) == if Newest(log, s).Kv? then Newest(log, s) else if s.Selects(r) then r
        else Undecodable {
      ConsNewest(r, log, s);
    }
    if r.Undecodable? {
      return;
    }
    var id := UniqId(r.pair);
    if id !in visited {
      visited' := visited + {id};
      match r.value {
        case Some(value) => cache' := cache[r.pair := value];
        case None => cache' := cache - {r.pair};
      }
    }
    forall p ensures Lookup(cache', p) == ScannedAt(start, [r] + log, p) {
      ConsNewest(r, log, ById(UniqId(p)));
      assert Lookup(cache, p) == ScannedAt(start, log, p);
    }
  }

  /** Which of a write's two parts fails: the push of the record, the update of the cache, or neither. */
  datatype Failure = Nothing | Push | CacheWrite

  class Store {
    var log: seq<Record>
    var cache: Cache

    constructor ()
      ensures log == [] && cache == Replay(log)
    {
      log, cache := [], map[];
    }

    /** Either write may fail; the log's comes first. */
    method Put(r: Record, fails: Failure) returns (ok: bool)
      modifies this
      ensures ok <==> fails.Nothing?
      ensures log == if fails.Push? then old(log) else old(log) + [r]
      ensures cache == if ok then Write(old(cache), r) else old(cache)
      ensures ok && old(cache) == Replay(old(log)) ==> cache == Replay(log)
    {
      ReplaySnoc(log, r);
      if fails.Push? {
        return false;
      }
      log := log + [r];
      if fails.CacheWrite? {
        return false;
      }
      cache := Write(cache, r);
      ok := true;
    }

    method Set(namespace: string, key: string, value: string, fails: Failure) returns (ok: bool)
      modifies this
      ensures ok <==> fails.Nothing?
      ensures log == if fails.Push? then old(log) else old(log) + [Kv(Pair(namespace, key), Some(value))]
      ensures ok && old(cache) == Replay(old(log)) ==> cache == Replay(log)
      ensures ok ==> Lookup(cache, Pair(namespace, key)) == Some(value)
      ensures !ok ==> cache == old(cache)
      ensures forall p :: p != Pair(namespace, key) ==> Lookup(cache, p) == Lookup(old(cache), p)
    {
      ok := Put(Kv(Pair(namespace, key), Some(value)), fails);
    }

    /** The keys one by one, up to the first failure. */
    method Delete(namespace: string, keys: seq<string>, fails: nat -> Failure) returns (ok: bool)
      modifies this
      ensures ok <==> forall i :: 0 <= i < |keys| ==> fails(i).Nothing?
      ensures ok ==> log == old(log) + Deletions(namespace, keys)
      ensures ok && old(cache) == Replay(old(log)) ==> cache == Replay(log)
      ensures forall p: Pair :: p.namespace != namespace || p.key !in keys ==> Lookup(cache, p) == Lookup(old(cache), p)
      ensures ok ==> forall k :: k in keys ==> Pair(namespace, k) !in cache
    {
      for i := 0 to |keys|
        invariant forall j :: 0 <= j < i ==> fails(j).Nothing?
        invariant log == old(log) + Deletions(namespace, keys[..i])
        invariant old(cache) == Replay(old(log)) ==> cache == Replay(log)
        invariant forall p: Pair :: p.namespace != namespace || p.key !in keys ==>
                                      Lookup(cache, p) == Lookup(old(cache), p)
        invariant forall k :: k in keys[..i] ==> Pair(namespace, k) !in cache
      {
        ok := Put(Kv(Pair(namespace, keys[i]), None), fails(i));
        if !ok {
          return;
        }
        assert keys[..i + 1] == keys[..i] + [keys[i]];
      }
      assert keys[..|keys|] == keys;
      ok := true;
    }

    /** The rebuild, from whatever cache there was. */
    method Build()
      modifies this`cache
      ensures forall p :: Lookup(cache, p) == RebuiltAt(old(cache), log, p)
      ensures Distinguishes(old(cache), log) ==> cache == Replay(log)
    {
      var cached := cache;
      var visited: set<string> := {};
      assert log[|log|..] == [];
      for i := |log| downto 0
        invariant Visits(visited, log[i..])
        invariant forall p :: Lookup(cache, p) == ScannedAt(cached, log[i..], p)
      {
        cache, visited := Visit(log[i], cache, visited, cached, log[i + 1..]);
        assert [log[i]] + log[i + 1..] == log[i..];
      }
      assert log[0..] == log;
      var todo := cached.Keys;
      while todo != {}
        invariant todo <= cached.Keys
        invariant forall p :: Lookup(cache, p) ==
                              if p in cached && p !in todo && UniqId(p) !in visited then None
                                  else ScannedAt(cached, log, p)
        decreases |todo|
      {
        var p :| p in todo;
        if UniqId(p) !in visited {
          cache := cache - {p};
        }
        todo := todo - {p};
      }
      if Distinguishes(cached, log) {
        forall p ensures Lookup(cache, p) == Lookup(Replay(log), p) {
          RebuildIsReplay(cached, log, p);
        }
        SameLookups(cache, Replay(log));
      }
    }
  }

  function Deletions(namespace: string, keys: seq<string>): seq<Record> {
    seq(|keys|, i requires 0 <= i < |keys| => Kv(Pair(namespace, keys[i]), None))
  }

  lemma SameLookups(a: Cache, b: Cache)
    requires forall p :: Lookup(a, p) == Lookup(b, p)
    ensures a == b
  {
    assert forall p :: p in a ==> Lookup(a, p) == Lookup(b, p);
    assert forall p :: p in b ==> Lookup(a, p) == Lookup(b, p);
  }

  // --- when the two agree ------------------------------------------------------------------------------------------

  ghost predicate Involved(cache: Cache, log: seq<Record>, p: Pair) {
    p in cache || Newest(log, ByPair(p)).Kv?
  }

  /** The joined name tells the cached and recorded pairs apart. */
  ghost predicate Distinguishes(cache: Cache, log: seq<Record>) {
    forall p, q :: Involved(cache, log, p) && Involved(cache, log, q) && UniqId(p) == UniqId(q) ==> p == q
  }

  lemma RecordedIsInvolved(cache: Cache, log: seq<Record>, s: Selector)
    requires Newest(log, s).Kv?
    ensures Involved(cache, log, Newest(log, s).pair)
  {
    var r := Newest(log, s);
    var i :| 0 <= i < |log| && log[i] == r;
    NewestFinds(log, ByPair(r.pair), i);
  }

  /** The newest record of a name is the newest of its pair. */
  lemma {:induction false} NewestOfPair(log: seq<Record>, p: Pair)
    requires Newest(log, ById(UniqId(p))).Kv? && Newest(log, ById(UniqId(p))).pair == p
    ensures Newest(log, ByPair(p)) == Newest(log, ById(UniqId(p)))
  {
    if !Newest(log[1..], ById(UniqId(p))).Kv? {
      NoneOfPair(log[1..], p);
    } else {
      NewestOfPair(log[1..], p);
    }
  }

  lemma {:induction false} NoneOfPair(log: seq<Record>, p: Pair)
    requires !Newest(log, ById(UniqId(p))).Kv?
    ensures !Newest(log, ByPair(p)).Kv?
  {
    if log != [] {
      NoneOfPair(log[1..], p);
    }
  }

  lemma RebuildIsReplay(cache: Cache, log: seq<Record>, p: Pair)
    requires Distinguishes(cache, log)
    ensures RebuiltAt(cache, log, p) == Lookup(Replay(log), p)
  {
    ReplayIsNewest(log, p);
    var r := Newest(log, ById(UniqId(p)));
    if !r.Kv? {
      NoneOfPair(log, p);
    } else if r.pair == p {
      NewestOfPair(log, p);
    } else {
      RecordedIsInvolved(cache, log, ById(UniqId(p)));
      assert !Involved(cache, log, p);
    }
  }

  // --- exactly when they agree for every cache ---------------------------------------------------------------------

  predicate DotFree(s: string) { '.' !in s }

  ghost predicate DotFreeLog(log: seq<Record>) {
    forall i :: 0 <= i < |log| && log[i].Kv? ==> DotFree(log[i].pair.namespace) && DotFree(log[i].pair.key)
  }

  ghost predicate Agrees(cache: Cache, log: seq<Record>) {
    forall p :: RebuiltAt(cache, log, p) == Lookup(Replay(log), p)
  }

  lemma UniqueSplit(p: Pair, q: Pair)
    requires DotFree(p.namespace) && DotFree(p.key) && UniqId(p) == UniqId(q)
    ensures p == q
  {
    var id := UniqId(p);
    var at := |q.namespace|;
    assert id[at] == UniqId(q)[at] == '.';
    assert forall i :: 0 <= i < |p.namespace| ==> id[i] == p.namespace[i];
    assert forall i :: |p.namespace| < i < |id| ==> id[i] == p.key[i - |p.namespace| - 1];
    assert at == |p.namespace|;
    assert id[..at] == p.namespace && UniqId(q)[..at] == q.namespace;
    assert id[at + 1..] == p.key && UniqId(q)[at + 1..] == q.key;
  }

  /** A pair with a dot inside shares its joined name with another pair. */
  lemma OtherSplit(p: Pair) returns (q: Pair)
    requires !DotFree(p.namespace) || !DotFree(p.key)
    ensures q != p && UniqId(q) == UniqId(p)
  {
    if !DotFree(p.namespace) {
      var i :| 0 <= i < |p.namespace| && p.namespace[i] == '.';
      q := Pair(p.namespace[..i], p.namespace[i + 1..] + "." + p.key);
      assert p.namespace == p.namespace[..i] + "." + p.namespace[i + 1..];
    } else {
      var i :| 0 <= i < |p.key| && p.key[i] == '.';
      q := Pair(p.namespace + "." + p.key[..i], p.key[i + 1..]);
      assert p.key == p.key[..i] + "." + p.key[i + 1..];
    }
  }

  /** A pair whose name another pair took last keeps whatever the old cache said. */
  lemma Shadowed(log: seq<Record>, p: Pair) returns (cache: Cache)
    requires Newest(log, ById(UniqId(p))).Kv? && Newest(log, ById(UniqId(p))).pair != p
    ensures !Agrees(cache, log)
  {
    cache := if Lookup(Replay(log), p).None? then map[p := ""] else map[];
    assert RebuiltAt(cache, log, p) == Lookup(cache, p);
  }

  /** The rebuild equals the replay from every cache exactly when no recorded namespace and no recorded key holds a
      dot. */
  lemma RebuildIsReplayIff(log: seq<Record>)
    ensures (forall cache :: Agrees(cache, log)) <==> DotFreeLog(log)
  {
    if DotFreeLog(log) {
      forall cache ensures Agrees(cache, log) {
        forall p ensures RebuiltAt(cache, log, p) == Lookup(Replay(log), p) {
          DotFreeRebuild(cache, log, p);
        }
      }
    } else {
      var i :| 0 <= i < |log| && log[i].Kv? && !(DotFree(log[i].pair.namespace) && DotFree(log[i].pair.key));
      var p := log[i].pair;
      var q := OtherSplit(p);
      NewestFinds(log, ById(UniqId(p)), i);
      var cache := Shadowed(log, if Newest(log, ById(UniqId(p))).pair == p then q else p);
    }
  }

  lemma DotFreeRebuild(cache: Cache, log: seq<Record>, p: Pair)
    requires DotFreeLog(log)
    ensures RebuiltAt(cache, log, p) == Lookup(Replay(log), p)
  {
    ReplayIsNewest(log, p);
    var r := Newest(log, ById(UniqId(p)));
    if r.Kv? {
      UniqueSplit(r.pair, p);
      NewestOfPair(log, p);
    } else {
      NoneOfPair(log, p);
    }
  }

  /** A concrete log: after `a.b`/`c` and then `a`/`b.c` are set, a rebuild from nothing loses the first. */
  lemma DottedNamesCollide()
    ensures var log := [Kv(Pair("a.b", "c"), Some("1")), Kv(Pair("a", "b.c"), Some("2"))];
            && Lookup(Replay(log), Pair("a.b", "c")) == Some("1")
            && RebuiltAt(map[], log, Pair("a.b", "c")) == None
  {
    var p, q := Pair("a.b", "c"), Pair("a", "b.c");
    var first, second := Kv(p, Some("1")), Kv(q, Some("2"));
    assert UniqId(p) == "a.b.c" && UniqId(q) == "a.b.c";
    ReplaySnoc([], first);
    ReplaySnoc([first], second);
    NewestSnoc([first], second, ById("a.b.c"));
    assert [] + [first] == [first] && [first] + [second] == [first, second];
    assert p.key != q.key;
  }
}
