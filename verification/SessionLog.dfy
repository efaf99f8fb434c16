/** The tables of the session store, and what each statement of the store does to them. */
module SessionTables {
  import opened Basics
  import opened Conversation
  import opened EventSerde
  import opened Sorting

  datatype Session = Session(head: Option<string>, directory: Option<string>, gitRoot: Option<string>,
                             updatedAt: int, archivedAt: Option<int>)

  datatype Row = Row(id: string, session: string, parent: Option<string>, invocation: string, stored: Stored,
      createdAt: int)

  /** Rows in the order they were inserted, which is the order of their row ids. */
  datatype Tables = Tables(sessions: map<string, Session>, rows: seq<Row>) {
    /** The primary key of the events and their foreign key into the sessions. */
    predicate Sound() {
      && (forall i, j :: 0 <= i < j < |rows| ==> rows[i].id != rows[j].id)
      && forall i :: 0 <= i < |rows| ==> rows[i].session in sessions
    }
  }

  function RowsOf(rows: seq<Row>, session: string): (r: seq<Row>)
  {
    if rows == [] then []
    else
      var init, last := RowsOf(rows[..|rows| - 1], session), rows[|rows| - 1];
      if last.session == session then init + [last] else init
  }

  lemma {:induction false} NoRowsOf(rows: seq<Row>, session: string)
    requires forall i :: 0 <= i < |rows| ==> rows[i].session != session
    ensures RowsOf(rows, session) == []
  {
    if rows != [] {
      NoRowsOf(rows[..|rows| - 1], session);
    }
  }

  lemma RowsOfSnoc(rows: seq<Row>, row: Row, session: string)
    ensures RowsOf(rows + [row], session) == RowsOf(rows, session) + (if row.session == session then [row] else [])
  {
    assert (rows + [row])[..|rows|] == rows;
  }

  /** All the events of some rows, if all of them can be read. */
  function Decoded(rows: seq<Row>): (r: Option<seq<Event>>)
    ensures r.Some? ==> |r.value| == |rows|
  {
    if rows == [] then Some([])
    else
      var init, last := Decoded(rows[..|rows| - 1]), Deserialize(rows[|rows| - 1].stored);
      if init.None? || last.None? then None else Some(init.value + [last.value])
  }

  lemma DecodedSnoc(rows: seq<Row>, row: Row)
    ensures Decoded(rows + [row]) ==
            if Decoded(rows).None? || Deserialize(row.stored).None? then None
            else Some(Decoded(rows).value + [Deserialize(row.stored).value])
  {
    assert (rows + [row])[..|rows|] == rows;
  }

  lemma {:induction false} UndecodableRow(rows: seq<Row>, i: nat)
    requires i < |rows| && Deserialize(rows[i].stored).None?
    ensures Decoded(rows).None?
  {
    if i < |rows| - 1 {
      UndecodableRow(rows[..|rows| - 1], i);
    }
  }

  function LastId(rows: seq<Row>): Option<string> {
    if rows == [] then None else Some(rows[|rows| - 1].id)
  }

  /** Each parent is the row before. */
  predicate Chained(rows: seq<Row>) {
    rows == [] || (Chained(rows[..|rows| - 1]) && rows[|rows| - 1].parent == LastId(rows[..|rows| - 1]))
  }

  lemma ChainedSnoc(rows: seq<Row>, row: Row)
    requires Chained(rows) && row.parent == LastId(rows)
    ensures Chained(rows + [row])
  {
    assert (rows + [row])[..|rows|] == rows;
  }

  // --- ORDER BY created_at ASC, rowid ASC ------------------------------------------------------------------

  predicate Nondecreasing(rows: seq<Row>) {
    forall i, j :: 0 <= i < j < |rows| ==> rows[i].createdAt <= rows[j].createdAt
  }

  function Earlier(a: Row, b: Row): bool {
    a.createdAt < b.createdAt
  }

  /** The rows in the order of their times; of equal times, in the order they were inserted. */
  function ByTime(rows: seq<Row>): (r: seq<Row>)
    ensures |r| == |rows|
  {
    SortedForm(rows, Earlier)
  }

  /** Loading returns all rows in time order, and in the order they were appended exactly when the clock never went
      back. */
  lemma AppendOrderIffClockMonotone(rows: seq<Row>)
    ensures Nondecreasing(ByTime(rows)) && multiset(ByTime(rows)) == multiset(rows)
    ensures ByTime(rows) == rows <==> Nondecreasing(rows)
  {
    SortedFormSorts(rows, Earlier);
    assert Nondecreasing(ByTime(rows)) by {
      var t := ByTime(rows);
      assert forall i, j :: 0 <= i < j < |t| ==> !Earlier(t[j], t[i]);
    }
    if Nondecreasing(rows) {
      assert Sorted(rows, Earlier);
      SortedFormKeeps(rows, Earlier);
    }
  }
}

/** Incremental persistence of a conversation, where every call into the store may fail without effect. Whether a call
    fails, the clock and the ids drawn for it come from outside. */
module SessionLog {
  import opened Basics
  import opened Conversation
  import opened SessionTables
  import EventSerde

  /** What a call into the store meets: a failure of its own, the clock, the id drawn for a new row. */
  datatype Outside = Outside(fails: bool, now: int, id: string)

  /** No event row has this id. */
  predicate Unused(rows: seq<Row>, id: string) {
    forall i :: 0 <= i < |rows| ==> rows[i].id != id
  }

  /** Each statement or transaction takes effect as a whole or not at all; a violated key is one way to fail. */
  class SessionStore {
    var tables: Tables

    constructor ()
      ensures tables == Tables(map[], []) && tables.Sound()
    {
      tables := Tables(map[], []);
    }

    method CreateSession(id: string, directory: Option<string>, gitRoot: Option<string>, now: int, fails: bool)
      returns (ok: bool)
      requires tables.Sound()
      modifies this
      ensures tables.Sound()
      ensures ok <==> !fails && id !in old(tables).sessions
      ensures tables == if ok then Created(old(tables), id, Session(None, directory, gitRoot, now, None))
                        else old(tables)
    {
      if fails || id in tables.sessions {
        return false;
      }
      tables := Created(tables, id, Session(None, directory, gitRoot, now, None));
      ok := true;
    }

    method AppendEvent(session: string, id: string, parent: Option<string>, invocation: string,
        stored: EventSerde.Stored, now: int, fails: bool)
      returns (ok: bool)
      requires tables.Sound()
      modifies this
      ensures tables.Sound()
      ensures ok <==> !fails && session in old(tables).sessions && Unused(old(tables).rows, id)
      ensures tables == if ok then Appended(old(tables), Row(id, session, parent, invocation, stored, now))
                        else old(tables)
    {
      if fails || session !in tables.sessions || !Unused(tables.rows, id) {
        return false;
      }
      tables := Appended(tables, Row(id, session, parent, invocation, stored, now));
      ok := true;
    }

    method LoadEvents(session: string, fails: bool) returns (r: Option<seq<Row>>)
      ensures r == if fails then None else Some(ByTime(RowsOf(tables.rows, session)))
    {
      r := if fails then None else Some(ByTime(RowsOf(tables.rows, session)));
    }

    /** Archiving a session without a row succeeds and changes nothing. */
    method ArchiveSession(session: string, now: int, fails: bool) returns (ok: bool)
      requires tables.Sound()
      modifies this
      ensures ok <==> !fails
      ensures tables.Sound() && tables.rows == old(tables.rows)
      ensures tables.sessions.Keys == old(tables).sessions.Keys
      ensures forall s :: s in tables.sessions ==>
                tables.sessions[s] == if ok && s == session then old(tables).sessions[s].(archivedAt := Some(now))
                                      else old(tables).sessions[s]
    {
      if fails {
        return false;
      }
      if session in tables.sessions {
        tables := tables.(sessions := tables.sessions[session := tables.sessions[session].(archivedAt := Some(now))]);
      }
      ok := true;
    }
  }

  function Created(t: Tables, id: string, session: Session): Tables {
    t.(sessions := t.sessions[id := session])
  }

  /** The transaction of an append: insert the row, then point the session at it. */
  function Appended(t: Tables, row: Row): Tables
    requires row.session in t.sessions
  {
    var s := t.sessions[row.session].(head := Some(row.id), updatedAt := row.createdAt);
    Tables(t.sessions[row.session := s], t.rows + [row])
  }

  /** What the tables say about a session agrees with a manager's counters. */
  ghost predicate Coherent(t: Tables, session: string, count: nat, head: Option<string>) {
    var rows := RowsOf(t.rows, session);
    && session in t.sessions && t.sessions[session].head == head
    && |rows| == count && LastId(rows) == head && Chained(rows) && Decoded(rows).Some?
  }

  lemma NewSessionIsCoherent(before: Tables, after: Tables, session: string)
    requires before.Sound() && session !in before.sessions && after.rows == before.rows
    requires session in after.sessions && after.sessions[session].head == None
    ensures Coherent(after, session, 0, None) && RowsOf(after.rows, session) == []
  {
    NoRowsOf(after.rows, session);
  }

  lemma AppendKeepsCoherent(t: Tables, row: Row, count: nat, event: Event)
    requires Coherent(t, row.session, count, row.parent) && EventSerde.Deserialize(row.stored) == Some(event)
    ensures Coherent(Appended(t, row), row.session, count + 1, Some(row.id))
    ensures Decoded(RowsOf(Appended(t, row).rows, row.session)).value
        == Decoded(RowsOf(t.rows, row.session)).value + [event]
  {
    var rows := RowsOf(t.rows, row.session);
    RowsOfSnoc(t.rows, row, row.session);
    DecodedSnoc(rows, row);
    ChainedSnoc(rows, row);
  }

  /** Appends to one session leave every other as it was. */
  lemma AppendKeepsOthers(t: Tables, row: Row, other: string)
    requires row.session in t.sessions && other != row.session
    ensures RowsOf(Appended(t, row).rows, other) == RowsOf(t.rows, other)
    ensures forall count, head :: Coherent(Appended(t, row), other, count, head) <==> Coherent(t, other, count, head)
  {
    RowsOfSnoc(t.rows, row, other);
  }

  /** The events of a session in the order they were appended. */
  ghost function LogOf(t: Tables, session: string): seq<Event> {
    var log := Decoded(RowsOf(t.rows, session));
    if log.Some? then log.value else []
  }

  /** No event and no session row but this session's changed. */
  ghost predicate OthersKept(t: Tables, t': Tables, session: string) {
    && (forall s :: s != session ==> RowsOf(t'.rows, s) == RowsOf(t.rows, s))
    && (forall s :: s != session ==> (s in t'.sessions <==> s in t.sessions))
    && (forall s :: s != session && s in t.sessions ==> t'.sessions[s] == t.sessions[s])
  }

  /** So what another manager relies on still holds. */
  lemma OthersStayCoherent(t: Tables, t': Tables, session: string, other: string, count: nat, head: Option<string>)
    requires OthersKept(t, t', session) && other != session
    ensures Coherent(t', other, count, head) <==> Coherent(t, other, count, head)
  {
    assert RowsOf(t'.rows, other) == RowsOf(t.rows, other);
  }

  /** The log of a coherent session grew by some events and is coherent again; no other session changed. */
  ghost predicate Grew(t: Tables, t': Tables, session: string, head: Option<string>, head': Option<string>,
      events: seq<Event>) {
    && OthersKept(t, t', session)
    && LogOf(t', session) == LogOf(t, session) + events
    && OnHead(t, session, head) && OnHead(t', session, head')
  }

  /** The session's log is coherent and ends at this head. */
  ghost predicate OnHead(t: Tables, session: string, head: Option<string>) {
    Coherent(t, session, |LogOf(t, session)|, head)
  }

  lemma GrewOneMore(t: Tables, t': Tables, t'': Tables, session: string,
                    head: Option<string>, head': Option<string>, head'': Option<string>,
                    events: seq<Event>, from: nat, i: nat)
    requires from <= i < |events|
    requires Grew(t, t', session, head, head', events[from..i]) && Grew(t', t'', session, head', head'', [events[i]])
    ensures Grew(t, t'', session, head, head'', events[from..i + 1])
  {
    GrewTwice(t, t', t'', session, head, head', head'', events[from..i], [events[i]]);
    assert events[from..i + 1] == events[from..i] + [events[i]];
  }

  /** What a growth by part of a list means for the count and for a log that is a prefix of the list. */
  lemma GrewAlong(t: Tables, t': Tables, session: string, head: Option<string>, head': Option<string>,
                  events: seq<Event>, from: nat, to: nat)
    requires from <= to <= |events| && Coherent(t, session, from, head)
    requires Grew(t, t', session, head, head', events[from..to])
    ensures Coherent(t', session, to, head')
    ensures LogOf(t', session) == LogOf(t, session) + events[from..to]
    ensures LogOf(t, session) <= events ==> LogOf(t', session) <= events
  {
    if LogOf(t, session) <= events {
      assert LogOf(t, session) == events[..from];
      assert events[..from] + events[from..to] == events[..to];
    }
  }

  lemma GrewByNothing(t: Tables, session: string, head: Option<string>)
    requires OnHead(t, session, head)
    ensures Grew(t, t, session, head, head, [])
  {
  }

  lemma GrewByOne(t: Tables, row: Row, event: Event)
    requires OnHead(t, row.session, row.parent)
    requires EventSerde.Deserialize(row.stored) == Some(event)
    ensures Grew(t, Appended(t, row), row.session, row.parent, Some(row.id), [event])
  {
    AppendKeepsCoherent(t, row, |LogOf(t, row.session)|, event);
    forall s | s != row.session ensures RowsOf(Appended(t, row).rows, s) == RowsOf(t.rows, s) {
      AppendKeepsOthers(t, row, s);
    }
  }

  lemma GrewTwice(t: Tables, t': Tables, t'': Tables, session: string,
                  head: Option<string>, head': Option<string>, head'': Option<string>, a: seq<Event>, b: seq<Event>)
    requires Grew(t, t', session, head, head', a) && Grew(t', t'', session, head', head'', b)
    ensures Grew(t, t'', session, head, head'', a + b)
  {
    assert LogOf(t, session) + a + b == LogOf(t, session) + (a + b);
  }

  class SessionManager {
    const store: SessionStore
    var sessionId: string
    var invocationId: string
    var persistedCount: nat
    var headId: Option<string>
    var directory: Option<string>
    var gitRoot: Option<string>
    var persistedToDb: bool

    ghost predicate Valid()
      reads this, store
    {
      && store.tables.Sound()
      && if persistedToDb then Coherent(store.tables, sessionId, persistedCount, headId)
         else persistedCount == 0 && headId == None
    }

    /** The events the store holds for this session, in the order they were appended. */
    ghost function Log(): (log: seq<Event>)
      reads this, store
      ensures Valid() ==> |log| == persistedCount
    {
      if persistedToDb then LogOf(store.tables, sessionId) else []
    }

    constructor CreateNew(store: SessionStore, directory: Option<string>, gitRoot: Option<string>, session: string,
        invocation: string)
      requires store.tables.Sound()
      ensures Valid() && Log() == [] && this.store == store && !persistedToDb
      ensures sessionId == session && this.directory == directory && this.gitRoot == gitRoot
    {
      this.store := store;
      sessionId, invocationId := session, invocation;
      persistedCount, headId := 0, None;
      this.directory, this.gitRoot := directory, gitRoot;
      persistedToDb := false;
    }

    /** The manager a resumption builds from loaded rows. */
    constructor Resumed(store: SessionStore, session: string, invocation: string, info: Session, count: nat,
        head: Option<string>)
      ensures this.store == store && sessionId == session && persistedToDb
      ensures persistedCount == count && headId == head
      ensures directory == info.directory && gitRoot == info.gitRoot
    {
      this.store := store;
      sessionId, invocationId := session, invocation;
      persistedCount, headId := count, head;
      directory, gitRoot := info.directory, info.gitRoot;
      persistedToDb := true;
    }

    method EnsurePersisted(outside: Outside) returns (ok: bool)
      requires Valid()
      modifies this`persistedToDb, store
      ensures Valid() && Log() == old(Log()) && store.tables.rows == old(store.tables.rows)
      ensures ok <==> CanStart(old(persistedToDb), old(store.tables), sessionId, outside)
      ensures persistedToDb == (ok || old(persistedToDb))
      ensures store.tables == if ok && !old(persistedToDb)
                              then Created(old(store.tables), sessionId,
                                           Session(None, directory, gitRoot, outside.now, None))
                              else old(store.tables)
    {
      if !persistedToDb {
        ghost var before := store.tables;
        ok := store.CreateSession(sessionId, directory, gitRoot, outside.now, outside.fails);
        if !ok {
          return;
        }
        NewSessionIsCoherent(before, store.tables, sessionId);
        persistedToDb := true;
      }
      ok := true;
    }

    /** One turn of the loop in `PersistEvents`. */
    method PersistOne(event: Event, outside: Outside) returns (ok: bool)
      requires store.tables.Sound() && OnHead(store.tables, sessionId, headId)
      modifies this`headId, this`persistedCount, store
      ensures store.tables.Sound()
      ensures ok <==> !outside.fails && Unused(old(store.tables).rows, outside.id)
      ensures !ok ==> store.tables == old(store.tables)
      ensures !ok ==> persistedCount == old(persistedCount) && headId == old(headId)
      ensures ok ==> persistedCount == old(persistedCount) + 1 && headId == Some(outside.id)
      ensures ok ==> AddsRow(old(store.tables).rows, store.tables.rows, outside, invocationId)
      ensures ok ==> Grew(old(store.tables), store.tables, sessionId, old(headId), headId, [event])
    {
      var stored := EventSerde.Serialize(event);
      EventSerde.RoundTrip(event);
      ghost var before := store.tables;
      ok := store.AppendEvent(sessionId, outside.id, headId, invocationId, stored, outside.now, outside.fails);
      if !ok {
        return;
      }
      GrewByOne(before, Row(outside.id, sessionId, headId, invocationId, stored, outside.now), event);
      headId := Some(outside.id);
      persistedCount := persistedCount + 1;
    }

    /** The same as a step of the loop, which began at `start` with these tables. */
    method PersistNext(events: seq<Event>, outside: nat -> Outside, ghost before: Tables, ghost head: Option<string>,
        ghost start: nat) returns (ok: bool)
      requires store.tables.Sound() && persistedCount < |events|
      requires Progress(before, store.tables, sessionId, head, headId, events, outside, start, persistedCount)
      modifies this`headId, this`persistedCount, store
      ensures store.tables.Sound() && persistedCount == old(persistedCount) + (if ok then 1 else 0)
      ensures Progress(before, store.tables, sessionId, head, headId, events, outside, start, persistedCount)
      ensures !ok ==> !AllWork(before.rows, outside, start, |events|)
    {
      var i := persistedCount;
      ghost var middle, headBefore := store.tables, headId;
      ok := PersistOne(events[i], outside(i));
      if ok {
        ProgressNext(before, middle, store.tables, sessionId, head, headBefore, headId, events, outside, invocationId,
                     start, i);
      } else {
        ProgressStops(before, middle, sessionId, head, headBefore, events, outside, start, i);
      }
    }

    /** The loop of `PersistEvents`, from the first event that is not yet stored; each event meets its own outside. */
    method PersistFrom(events: seq<Event>, outside: nat -> Outside) returns (ok: bool)
      requires store.tables.Sound() && OnHead(store.tables, sessionId, headId) && persistedCount <= |events|
      modifies this`headId, this`persistedCount, store
      ensures store.tables.Sound() && old(persistedCount) <= persistedCount <= |events|
      ensures ok <==> persistedCount == |events|
      ensures ok <==> AllWork(old(store.tables).rows, outside, old(persistedCount), |events|)
      ensures Progress(old(store.tables), store.tables, sessionId, old(headId), headId, events, outside,
                       old(persistedCount), persistedCount)
    {
      var start := persistedCount;
      ghost var head, before := headId, store.tables;
      ProgressNone(before, sessionId, head, events, outside, start);
      for i := start to |events|
        invariant store.tables.Sound() && i == persistedCount
        invariant Progress(before, store.tables, sessionId, head, headId, events, outside, start, i)
      {
        ok := PersistNext(events, outside, before, head, start);
        if !ok {
          return;
        }
      }
      ok := true;
    }

    /**
     Appends the events behind the first `persistedCount`. However far it gets before the store fails, the log grows by
     exactly the events it counts, so a retry with the same or a longer list neither repeats nor skips one. It succeeds
     exactly when no call it makes fails, the session's row is its own and every id drawn is unused.
     */
    method PersistEvents(events: seq<Event>, create: Outside, outside: nat -> Outside) returns (ok: bool)
      requires Valid()
      modifies this`headId, this`persistedCount, this`persistedToDb, store
      ensures Valid()
      ensures ok <==> |events| <= persistedCount
      ensures ok <==> |events| <= old(persistedCount)
                      || (CanStart(old(persistedToDb), old(store.tables), sessionId, create)
                          && AllWork(old(store.tables).rows, outside, old(persistedCount), |events|))
      ensures old(persistedCount) <= persistedCount <= Max(old(persistedCount), |events|)
      ensures Log()
          == old(Log()) + (if old(persistedCount) < persistedCount then events[old(persistedCount)..persistedCount]
              else [])
      ensures old(Log()) <= events ==> Log() <= events
      ensures OthersKept(old(store.tables), store.tables, sessionId)
      ensures Uses(old(store.tables).rows, store.tables.rows, outside, old(persistedCount), persistedCount)
      ensures !persistedToDb ==> store.tables == old(store.tables)
      ensures old(persistedToDb) ==> persistedToDb
    {
      if persistedCount >= |events| {
        return true;
      }
      ok := EnsurePersisted(create);
      if !ok {
        return;
      }
      ghost var t, head, start := store.tables, headId, persistedCount;
      ok := PersistFrom(events, outside);
      GrewAlong(t, store.tables, sessionId, head, headId, events, start, persistedCount);
      OthersKeptTwice(old(store.tables), t, store.tables, sessionId);
    }

    method ArchiveAndReset(now: int, fails: bool, session: string, invocation: string) returns (ok: bool)
      requires Valid()
      modifies this, store
      ensures Valid() && store.tables.rows == old(store.tables.rows)
      ensures ok <==> !old(persistedToDb) || !fails
      ensures OthersKept(old(store.tables), store.tables, old(sessionId))
      ensures ok ==> Log() == [] && !persistedToDb && sessionId == session && invocationId == invocation
      ensures ok && old(persistedToDb) ==>
                && old(sessionId) in store.tables.sessions && old(sessionId) in old(store.tables).sessions
                && store.tables.sessions[old(sessionId)]
                     == old(store.tables).sessions[old(sessionId)].(archivedAt := Some(now))
      ensures !ok || !old(persistedToDb) ==> store.tables == old(store.tables)
      ensures !ok ==> && sessionId == old(sessionId) && invocationId == old(invocationId) && headId == old(headId)
                      && persistedCount == old(persistedCount) && persistedToDb == old(persistedToDb)
      ensures directory == old(directory) && gitRoot == old(gitRoot)
    {
      if persistedToDb {
        ok := store.ArchiveSession(sessionId, now, fails);
        if !ok {
          return;
        }
      }
      sessionId, invocationId := session, invocation;
      persistedCount, headId, persistedToDb := 0, None, false;
      ok := true;
    }
  }

  /** The session has a row of its own, or one can be made. */
  predicate CanStart(persisted: bool, t: Tables, session: string, create: Outside) {
    persisted || (!create.fails && session !in t.sessions)
  }

  /** No call for these events fails, and every id drawn for one is new. */
  ghost predicate AllWork(rows: seq<Row>, outside: nat -> Outside, from: nat, to: nat) {
    forall i :: from <= i < to ==>
      !outside(i).fails && Unused(rows, outside(i).id) && forall k :: from <= k < i ==> outside(k).id != outside(i).id
  }

  /** The ids in use afterwards are those from before and those drawn for these events. */
  ghost predicate Uses(rows: seq<Row>, rows': seq<Row>, outside: nat -> Outside, from: nat, to: nat) {
    forall id :: Unused(rows', id) <==> Unused(rows, id) && forall k :: from <= k < to ==> outside(k).id != id
  }

  /** What the loop over the events has done when it comes to `to`. */
  ghost predicate Progress(t: Tables, t': Tables, session: string, head: Option<string>, head': Option<string>,
      events: seq<Event>, outside: nat -> Outside, from: nat, to: nat) {
    && from <= to <= |events|
    && AllWork(t.rows, outside, from, to) && Uses(t.rows, t'.rows, outside, from, to)
    && Grew(t, t', session, head, head', events[from..to])
  }

  /** One row more, with the id and the time it met and of this invocation. */
  ghost predicate AddsRow(rows: seq<Row>, rows': seq<Row>, outside: Outside, invocation: string) {
    && |rows'| == |rows| + 1 && rows'[..|rows|] == rows
    && var row := rows'[|rows|];
       row.id == outside.id && row.createdAt == outside.now && row.invocation == invocation
  }

  lemma ProgressNone(t: Tables, session: string, head: Option<string>, events: seq<Event>, outside: nat -> Outside,
      from: nat)
    requires OnHead(t, session, head) && from <= |events|
    ensures Progress(t, t, session, head, head, events, outside, from, from)
  {
    GrewByNothing(t, session, head);
    assert events[from..from] == [];
  }

  lemma ProgressStops(t: Tables, t': Tables, session: string, head: Option<string>, head': Option<string>,
                      events: seq<Event>, outside: nat -> Outside, from: nat, i: nat)
    requires Progress(t, t', session, head, head', events, outside, from, i) && i < |events|
    requires outside(i).fails || !Unused(t'.rows, outside(i).id)
    ensures !AllWork(t.rows, outside, from, |events|)
  {
    WorksNext(t.rows, t'.rows, outside, from, i, |events|);
  }

  lemma ProgressNext(t: Tables, t': Tables, t'': Tables, session: string,
                     head: Option<string>, head': Option<string>, head'': Option<string>,
                     events: seq<Event>, outside: nat -> Outside, invocation: string, from: nat, i: nat)
    requires Progress(t, t', session, head, head', events, outside, from, i) && i < |events|
    requires !outside(i).fails && Unused(t'.rows, outside(i).id)
    requires Grew(t', t'', session, head', head'', [events[i]])
    requires AddsRow(t'.rows, t''.rows, outside(i), invocation)
    ensures Progress(t, t'', session, head, head'', events, outside, from, i + 1)
  {
    WorksNext(t.rows, t'.rows, outside, from, i, |events|);
    UsesNext(t.rows, t'.rows, t''.rows, outside, invocation, from, i);
    GrewOneMore(t, t', t'', session, head, head', head'', events, from, i);
  }

  lemma WorksNext(rows: seq<Row>, rows': seq<Row>, outside: nat -> Outside, from: nat, i: nat, to: nat)
    requires from <= i < to && AllWork(rows, outside, from, i) && Uses(rows, rows', outside, from, i)
    ensures !outside(i).fails && Unused(rows', outside(i).id) ==> AllWork(rows, outside, from, i + 1)
    ensures AllWork(rows, outside, from, to) ==> !outside(i).fails && Unused(rows', outside(i).id)
  {
  }

  lemma UsesNext(rows: seq<Row>, rows': seq<Row>, rows'': seq<Row>, outside: nat -> Outside, invocation: string,
      from: nat, i: nat)
    requires from <= i && Uses(rows, rows', outside, from, i) && AddsRow(rows', rows'', outside(i), invocation)
    ensures Uses(rows, rows'', outside, from, i + 1)
  {
    forall id ensures Unused(rows'', id) <==> Unused(rows', id) && outside(i).id != id {
      assert forall k :: 0 <= k < |rows'| ==> rows''[k] == rows'[k];
    }
  }

  /** The loop of a resumption over the loaded rows: their events, or nothing if one of them cannot be read. */
  method DecodeRows(rows: seq<Row>) returns (events: Option<seq<Event>>)
    ensures events == Decoded(rows)
  {
    var all: seq<Event> := [];
    for i := 0 to |rows|
      invariant Decoded(rows[..i]) == Some(all)
    {
      DecodedSnoc(rows[..i], rows[i]);
      assert rows[..i + 1] == rows[..i] + [rows[i]];
      var e := EventSerde.Deserialize(rows[i].stored);
      if e.None? {
        UndecodableRow(rows, i);
        return None;
      }
      all := all + [e.value];
    }
    assert rows[..|rows|] == rows;
    return Some(all);
  }

  /**
   Resuming a session. Whatever manager wrote it, the resumed one has its events and its counters when the clock never
   went back between two appends; otherwise the events still all come back, in the order of their times.
   */
  method Resume(store: SessionStore, session: string, invocation: string, info: Session, fails: bool)
    returns (manager: SessionManager?, events: seq<Event>)
    requires store.tables.Sound()
    ensures manager == null <==> fails || Decoded(ByTime(RowsOf(store.tables.rows, session))).None?
    ensures manager != null ==>
              && fresh(manager) && manager.store == store && manager.sessionId == session && manager.persistedToDb
              && Decoded(ByTime(RowsOf(store.tables.rows, session))) == Some(events)
    ensures manager != null && Nondecreasing(RowsOf(store.tables.rows, session)) ==>
              forall count, head :: Coherent(store.tables, session, count, head) ==>
                && manager.Valid() && manager.persistedCount == count && manager.headId == head
                && manager.Log() == events
  {
    events := [];
    var rows := store.LoadEvents(session, fails);
    if rows.None? {
      return null, [];
    }
    var decoded := DecodeRows(rows.value);
    if decoded.None? {
      return null, [];
    }
    events := decoded.value;
    AppendOrderIffClockMonotone(RowsOf(store.tables.rows, session));
    manager := new SessionManager.Resumed(store, session, invocation, info, |events|, LastId(rows.value));
  }

  /** Lists that only grow from one call to the next. */
  ghost predicate Growing(lists: seq<seq<Event>>) {
    forall i, j :: 0 <= i <= j < |lists| ==> lists[i] <= lists[j]
  }

  /** Every id that any of the calls may draw is unused and drawn by no other. */
  ghost predicate FreshIds(rows: seq<Row>, outside: nat -> nat -> Outside) {
    && (forall c, k :: Unused(rows, outside(c)(k).id))
    && (forall c, k, c', k' :: outside(c)(k).id == outside(c')(k').id ==> c == c' && k == k')
  }

  /** So are those of the calls still to come, if they were fresh to begin with. */
  ghost predicate FreshFrom(start: seq<Row>, rows: seq<Row>, outside: nat -> nat -> Outside, call: nat) {
    FreshIds(start, outside) ==> forall c: nat, k: nat :: call <= c ==> Unused(rows, outside(c)(k).id)
  }

  lemma StaysFresh(start: seq<Row>, rows: seq<Row>, rows': seq<Row>, outside: nat -> nat -> Outside, call: nat,
      from: nat, to: nat)
    requires FreshFrom(start, rows, outside, call) && Uses(rows, rows', outside(call), from, to)
    ensures FreshFrom(start, rows', outside, call + 1)
  {
    if FreshIds(start, outside) {
      forall c: nat, k: nat | call + 1 <= c ensures Unused(rows', outside(c)(k).id) {
        assert forall j: nat :: outside(call)(j).id != outside(c)(k).id;
      }
    }
  }

  ghost predicate NeverFails(outside: nat -> Outside) {
    forall k: nat :: !outside(k).fails
  }

  lemma FreshIdsWork(start: seq<Row>, rows: seq<Row>, outside: nat -> nat -> Outside, call: nat, from: nat, to: nat)
    requires FreshFrom(start, rows, outside, call)
    ensures FreshIds(start, outside) && NeverFails(outside(call)) ==> AllWork(rows, outside(call), from, to)
  {
  }

  /** A call on a list that the log is a prefix of. */
  method PersistMore(manager: SessionManager, list: seq<Event>, create: Outside, outside: nat -> Outside)
    returns (ok: bool)
    requires manager.Valid() && manager.Log() <= list
    modifies manager, manager.store
    ensures manager.Valid() && manager.sessionId == old(manager.sessionId)
    ensures manager.Log() <= list && (ok <==> manager.Log() == list)
    ensures CanStart(old(manager.persistedToDb), old(manager.store.tables), manager.sessionId, create)
            && AllWork(old(manager.store.tables).rows, outside, old(manager.persistedCount), |list|)
            ==> ok
    ensures OthersKept(old(manager.store.tables), manager.store.tables, manager.sessionId)
    ensures Uses(old(manager.store.tables).rows, manager.store.tables.rows, outside, old(manager.persistedCount),
                 manager.persistedCount)
    ensures !manager.persistedToDb ==> manager.store.tables == old(manager.store.tables)
    ensures old(manager.persistedToDb) ==> manager.persistedToDb
  {
    ok := manager.PersistEvents(list, create, outside);
  }

  /**
   A whole session of persist calls on a growing list, each of which may fail anywhere and is retried by the next:
   the log is always a prefix of the list, as long as the manager counts, and all of it exactly when the last call
   succeeds. The last call does succeed when nothing fails in it and the ids are fresh, whatever the calls before met.
   */
  method PersistRun(manager: SessionManager, lists: seq<seq<Event>>, create: nat -> Outside,
      outside: nat -> nat -> Outside) returns (ok: bool)
    requires manager.Valid() && lists != [] && Growing(lists) && manager.Log() <= lists[0]
    modifies manager, manager.store
    ensures manager.Valid() && manager.sessionId == old(manager.sessionId)
    ensures manager.Log() <= lists[|lists| - 1] && |manager.Log()| == manager.persistedCount
    ensures ok <==> manager.Log() == lists[|lists| - 1]
    ensures FreshIds(old(manager.store.tables).rows, outside) && NeverFails(outside(|lists| - 1))
            && CanStart(old(manager.persistedToDb), old(manager.store.tables), manager.sessionId, create(|lists| - 1))
            ==> ok
    ensures OthersKept(old(manager.store.tables), manager.store.tables, manager.sessionId)
  {
    ok := false;
    ghost var session, before, persisted := manager.sessionId, manager.store.tables, manager.persistedToDb;
    for i := 0 to |lists|
      invariant manager.Valid() && manager.sessionId == session
      invariant manager.Log() <= lists[if i == 0 then 0 else i - 1]
      invariant i > 0 ==> (ok <==> manager.Log() == lists[i - 1])
      invariant FreshFrom(before.rows, manager.store.tables.rows, outside, i)
      invariant persisted ==> manager.persistedToDb
      invariant !manager.persistedToDb ==> manager.store.tables == before
      invariant i > 0 && FreshIds(before.rows, outside) && NeverFails(outside(i - 1))
                && CanStart(persisted, before, session, create(i - 1))
                ==> ok
      invariant OthersKept(before, manager.store.tables, session)
    {
      assert lists[if i == 0 then 0 else i - 1] <= lists[i];
      ghost var middle, from := manager.store.tables, manager.persistedCount;
      FreshIdsWork(before.rows, middle.rows, outside, i, from, |lists[i]|);
      ok := PersistMore(manager, lists[i], create(i), outside(i));
      StaysFresh(before.rows, middle.rows, manager.store.tables.rows, outside, i, from, manager.persistedCount);
      OthersKeptTwice(before, middle, manager.store.tables, session);
    }
  }

  lemma OthersKeptTwice(t: Tables, t': Tables, t'': Tables, session: string)
    requires OthersKept(t, t', session) && OthersKept(t', t'', session)
    ensures OthersKept(t, t'', session)
  {
  }
}
