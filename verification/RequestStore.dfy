/**
  The durable tables of the request pipeline (location_requests, location_results) and the guarded
  statements the store runs on them. Each statement is a function from tables to tables; the class
  Store is the store itself, whose methods update the tables in place and are proved to do exactly that.
 */
module RequestStore {
  import opened Domain
  import opened Timestamps

  /** A request id (a random UUID). */
  datatype Id = Id(text: string)

  datatype Row = Row(client: string, key: string, target: string, state: State, code: Code,
                     attempts: nat, next: Option<string>, created: string)

  /** results maps a request id to the created_at text of its location_results row. */
  datatype Db = Db(rows: map<Id, Row>, results: map<Id, string>)

  datatype Outcome = Done | Conflict | NotFound | IoError

  // ---- statements ---------------------------------------------------------------------------

  /** WHERE id=? AND state=? */
  predicate Hit(db: Db, id: Id, from: State) {
    id in db.rows && db.rows[id].state == from
  }

  predicate KeyTaken(db: Db, client: string, key: string) {
    exists id :: id in db.rows && db.rows[id].client == client && db.rows[id].key == key
  }

  function FreshRow(client: string, key: string, target: string, now: string): Row {
    Row(client, key, target, Queued, NoCode, 0, None, now)
  }

  function Insert(db: Db, id: Id, row: Row): Db {
    if id in db.rows || KeyTaken(db, row.client, row.key) then db else db.(rows := db.rows[id := row])
  }

  function Transition(db: Db, id: Id, to: State, code: Code): Db {
    if id in db.rows && CanTransition(db.rows[id].state, to)
    then db.(rows := db.rows[id := db.rows[id].(state := to, code := code)])
    else db
  }

  /** state=queued AND (next_attempt_at IS NULL OR next_attempt_at<=?) */
  predicate Due(row: Row, now: string) {
    row.state == Queued && (row.next == None || TextLeq(row.next.value, now))
  }

  /** ORDER BY created_at,id */
  predicate SortsFirst(c: string, i: Id, d: string, j: Id) {
    TextLess(c, d) || (c == d && TextLeq(i.text, j.text))
  }

  predicate OrderedBefore(db: Db, i: Id, j: Id)
    requires i in db.rows && j in db.rows
  {
    SortsFirst(db.rows[i].created, i, db.rows[j].created, j)
  }

  predicate OldestDue(db: Db, now: string, id: Id) {
    && id in db.rows && Due(db.rows[id], now)
    && forall j {:trigger OrderedBefore(db, id, j)} :: j in db.rows && Due(db.rows[j], now) ==> OrderedBefore(db, id, j)
  }

  function ClaimRow(db: Db, id: Id): Db {
    if Hit(db, id, Queued)
    then db.(rows := db.rows[id := db.rows[id].(state := Resolving, attempts := db.rows[id].attempts + 1)])
    else db
  }

  function LocateRow(db: Db, id: Id): Db {
    if Hit(db, id, Resolving) then db.(rows := db.rows[id := db.rows[id].(state := Locating)]) else db
  }

  function RequeueRow(db: Db, id: Id, from: State, next: string, code: Code): Db {
    if Hit(db, id, from)
    then db.(rows := db.rows[id := db.rows[id].(state := Queued, next := Some(next), code := code)])
    else db
  }

  function FailRow(db: Db, id: Id, from: State, code: Code): Db {
    if Hit(db, id, from) then db.(rows := db.rows[id := db.rows[id].(state := Failed, code := code)]) else db
  }

  /** CompleteRequest leaves failure_code alone. */
  function CompleteRow(db: Db, id: Id, at: string): Db {
    if Hit(db, id, Locating)
    then Db(db.rows[id := db.rows[id].(state := Completed)], db.results[id := at])
    else db
  }

  function RecoverRow(r: Row, now: string): Row {
    if r.state.Active() then r.(state := Queued, next := Some(now)) else r
  }

  function RecoverRows(db: Db, now: string): Db {
    db.(rows := map id | id in db.rows :: RecoverRow(db.rows[id], now))
  }

  predicate PastRetention(row: Row, cut: string) {
    row.state.Terminal() && TextLess(row.created, cut)
  }

  /** Results created before their cut go, then terminal requests before theirs, whose results cascade. */
  function PurgeRows(db: Db, requestCut: string, resultCut: string): Db {
    var rows := map id | id in db.rows && !PastRetention(db.rows[id], requestCut) :: db.rows[id];
    Db(rows, map id | id in db.results && id in rows && !TextLess(db.results[id], resultCut) :: db.results[id])
  }

  // ---- facts about the statements -----------------------------------------------------------

  /** A row scheduled for a later attempt is not claimable while the clock is in an earlier second. */
  lemma NotDueInEarlierSecond(row: Row, next: Instant, now: Instant)
    requires Valid(next) && Valid(now) && row.next == Some(Utc(next))
    requires Seconds(now) < Seconds(next)
    ensures !Due(row, Utc(now))
  {
    LaterSecondNotReached(next, now);
  }

  /** Either never scheduled or scheduled for a time the clock has reached. */
  ghost predicate TimeHasCome(next: Option<string>, now: string) {
    || next == None
    || exists t, clock :: Valid(t) && Valid(clock) && next == Some(Utc(t)) && now == Utc(clock) && Reached(t, clock)
  }

  /** A time scheduled, if any, is one the clock has reached. */
  ghost predicate NotTooEarly(next: Option<string>, now: string) {
    forall t, clock :: Valid(t) && Valid(clock) && next == Some(Utc(t)) && now == Utc(clock) ==> Reached(t, clock)
  }

  /** Theorem: a scheduled row is due exactly when it is queued and the clock has reached its time. */
  lemma DueWhenReached(row: Row, t: Instant, clock: Instant)
    requires Valid(t) && Valid(clock) && row.next == Some(Utc(t))
    ensures Due(row, Utc(clock)) <==> row.state == Queued && Reached(t, clock)
  {
    ReachedAsText(t, clock);
  }

  /** What next_attempt_at IS NULL OR next_attempt_at<=? means for the clock. */
  lemma ComparedTexts(next: Option<string>, now: string)
    ensures TimeHasCome(next, now) ==> next == None || TextLeq(next.value, now)
    ensures next == None || TextLeq(next.value, now) ==> NotTooEarly(next, now)
  {
    if TimeHasCome(next, now) && next != None {
      var t, clock :| Valid(t) && Valid(clock) && next == Some(Utc(t)) && now == Utc(clock) && Reached(t, clock);
      ReachedAsText(t, clock);
    }
    if next == None || TextLeq(next.value, now) {
      forall t, clock | Valid(t) && Valid(clock) && next == Some(Utc(t)) && now == Utc(clock)
        ensures Reached(t, clock)
      {
        ReachedAsText(t, clock);
      }
    }
  }

  /** Sorting first is not being younger, and among equals having the smaller id. */
  lemma SortsFirstMeans(c: string, i: Id, d: string, j: Id)
    requires SortsFirst(c, i, d, j)
    ensures !TextLess(d, c) && (c == d ==> TextLeq(i.text, j.text))
  {
    TextTotal(c, d);
    TextTotal(d, c);
  }

  lemma OldestDueMeans(db: Db, now: string, id: Id, j: Id)
    requires OldestDue(db, now, id) && j in db.rows && Due(db.rows[j], now)
    ensures !TextLess(db.rows[j].created, db.rows[id].created)
    ensures db.rows[j].created == db.rows[id].created ==> TextLeq(id.text, j.text)
  {
    assert OrderedBefore(db, id, j);
    SortsFirstMeans(db.rows[id].created, id, db.rows[j].created, j);
  }

  /** Theorem: of two due rows created in different seconds the older is claimed first. */
  lemma OlderClaimedFirst(db: Db, now: string, id: Id, j: Id, a: Instant, b: Instant)
    requires OldestDue(db, now, id) && j in db.rows && Due(db.rows[j], now)
    requires Valid(a) && Valid(b) && db.rows[id].created == Utc(a) && db.rows[j].created == Utc(b)
    ensures Seconds(a) <= Seconds(b)
  {
    OldestDueMeans(db, now, id, j);
    if Seconds(b) < Seconds(a) {
      TextOrderAcrossSeconds(b, a);
    }
  }

  /** Whenever something is due there is a row for ORDER BY ... LIMIT 1 to pick. */
  lemma OldestDueExists(db: Db, now: string, due: set<Id>) returns (id: Id)
    requires due != {}
    requires forall j :: j in due ==> j in db.rows && Due(db.rows[j], now)
    ensures id in due
    ensures forall j :: j in due ==> OrderedBefore(db, id, j)
  {
    id := FirstExists(map j | j in db.rows :: db.rows[j].created, due);
  }

  lemma FirstExists(created: map<Id, string>, among: set<Id>) returns (id: Id)
    requires among != {} && among <= created.Keys
    ensures id in among
    ensures forall j :: j in among ==> SortsFirst(created[id], id, created[j], j)
    decreases |among|
  {
    var x :| x in among;
    if among == {x} {
      id := x;
    } else {
      var y := FirstExists(created, among - {x});
      TextTotal(created[x], created[y]);
      TextTotal(x.text, y.text);
      id := if SortsFirst(created[x], x, created[y], y) then x else y;
      forall j | j in among ensures SortsFirst(created[id], id, created[j], j) {
        if j == x {
          TextTotal(x.text, x.text);
        } else if id == x {
          SortTransitive(created[x], x, created[y], y, created[j], j);
        }
      }
    }
  }

  lemma SortTransitive(c: string, i: Id, d: string, j: Id, e: string, k: Id)
    requires SortsFirst(c, i, d, j) && SortsFirst(d, j, e, k)
    ensures SortsFirst(c, i, e, k)
  {
    TextTransitive(c, d, e);
    TextTotal(d, d);
    if c == d == e {
      TextTransitive(i.text, j.text, k.text);
    }
  }

  // ---- the store ----------------------------------------------------------------------------

  /**
    Times reach the store as the texts utc() renders.
    reachable == false is a transaction that fails before commit (I/O error or cancelled context).
   */
  class Store {
    var rows: map<Id, Row>
    var results: map<Id, string>

    function View(): Db
      reads this
    {
      Db(rows, results)
    }

    constructor ()
      ensures View() == Db(map[], map[])
    {
      rows, results := map[], map[];
    }

    /** Conflict is an idempotent replay: stored names the row that already holds the key. */
    method CreateRequest(id: Id, row: Row, reachable: bool) returns (outcome: Outcome, stored: Id)
      modifies this
      ensures View() == if reachable then Insert(old(View()), id, row) else old(View())
      ensures outcome == Done <==> reachable && id !in old(rows) && !KeyTaken(old(View()), row.client, row.key)
      ensures outcome == Conflict <==> reachable && KeyTaken(old(View()), row.client, row.key)
      ensures outcome == Conflict ==> stored in rows && rows[stored].client == row.client && rows[stored].key == row.key
      ensures outcome == Done ==> stored == id && rows == old(rows)[id := row]
      ensures outcome == IoError <==> !reachable
    {
      if !reachable {
        return IoError, id;
      }
      if KeyTaken(View(), row.client, row.key) {
        stored :| stored in rows && rows[stored].client == row.client && rows[stored].key == row.key;
        return Conflict, stored;
      }
      if id in rows {
        return NotFound, id;
      }
      rows := rows[id := row];
      return Done, id;
    }

    method TransitionRequest(id: Id, to: State, code: Code, reachable: bool) returns (outcome: Outcome)
      modifies this
      ensures View() == if reachable then Transition(old(View()), id, to, code) else old(View())
      ensures outcome == Done <==> reachable && id in old(rows) && CanTransition(old(rows[id].state), to)
      ensures outcome == NotFound <==> reachable && id !in old(rows)
      ensures outcome == IoError <==> !reachable
      ensures outcome == Done ==> rows == old(rows)[id := old(rows)[id].(state := to, code := code)]
      ensures outcome != Done ==> rows == old(rows)
    {
      if !reachable {
        return IoError;
      }
      if id !in rows {
        return NotFound;
      }
      var from := rows[id].state;
      if !CanTransition(from, to) {
        return Conflict;
      }
      rows := rows[id := rows[id].(state := to, code := code)];
      return Done;
    }

    method ClaimNextQueued(now: string, reachable: bool) returns (found: bool, id: Id, attempts: nat)
      modifies this
      ensures found <==> reachable && exists j :: j in old(rows) && Due(old(rows)[j], now)
      ensures found ==> OldestDue(old(View()), now, id) && View() == ClaimRow(old(View()), id)
                        && id in rows && attempts == rows[id].attempts
      ensures !found ==> View() == old(View())
      ensures reachable &&
              (exists j :: j in old(rows) && old(rows)[j].state == Queued && TimeHasCome(old(rows)[j].next, now)) ==>
                found
      ensures found ==> id in old(rows) && old(rows)[id].state == Queued && NotTooEarly(old(rows)[id].next, now)
      ensures found ==>
                rows == old(rows)[id := old(rows)[id].(state := Resolving, attempts := old(rows)[id].attempts + 1)]
      ensures found ==> forall j :: j in old(rows) && Due(old(rows)[j], now) ==>
                && !TextLess(old(rows)[j].created, old(rows)[id].created)
                && (old(rows)[j].created == old(rows)[id].created ==> TextLeq(id.text, j.text))
    {
      forall j | j in rows && rows[j].state == Queued && TimeHasCome(rows[j].next, now) ensures Due(rows[j], now) {
        ComparedTexts(rows[j].next, now);
      }
      var due := set j | j in rows && Due(rows[j], now);
      assert forall j :: j in rows && Due(rows[j], now) ==> j in due;
      if !reachable || due == {} {
        return false, Id(""), 0;
      }
      ghost var first := OldestDueExists(View(), now, due);
      assert OldestDue(View(), now, first);
      id :| id in rows && OldestDue(View(), now, id);
      ComparedTexts(rows[id].next, now);
      forall j | j in rows && Due(rows[j], now)
        ensures !TextLess(rows[j].created, rows[id].created)
        ensures rows[j].created == rows[id].created ==> TextLeq(id.text, j.text)
      {
        OldestDueMeans(View(), now, id, j);
      }
      rows := rows[id := rows[id].(state := Resolving, attempts := rows[id].attempts + 1)];
      return true, id, rows[id].attempts;
    }

    method SaveServingNodeAndLocate(id: Id, reachable: bool) returns (outcome: Outcome)
      modifies this
      ensures View() == if reachable then LocateRow(old(View()), id) else old(View())
      ensures outcome == if !reachable then IoError else if Hit(old(View()), id, Resolving) then Done else Conflict
      ensures outcome == Done <==> reachable && id in old(rows) && old(rows)[id].state == Resolving
      ensures outcome == Done ==> rows == old(rows)[id := old(rows)[id].(state := Locating)]
    {
      if !reachable {
        return IoError;
      }
      if id !in rows || rows[id].state != Resolving {
        return Conflict;
      }
      rows := rows[id := rows[id].(state := Locating)];
      return Done;
    }

    method Requeue(id: Id, from: State, next: string, code: Code, reachable: bool) returns (outcome: Outcome)
      modifies this
      ensures View() == if reachable then RequeueRow(old(View()), id, from, next, code) else old(View())
      ensures outcome == Done <==> reachable && id in old(rows) && old(rows)[id].state == from
      ensures outcome == Done ==>
                rows == old(rows)[id := old(rows)[id].(state := Queued, next := Some(next), code := code)]
      ensures outcome == if !reachable then IoError else if Hit(old(View()), id, from) then Done else Conflict
    {
      if !reachable {
        return IoError;
      }
      if id !in rows || rows[id].state != from {
        return Conflict;
      }
      rows := rows[id := rows[id].(state := Queued, next := Some(next), code := code)];
      return Done;
    }

    method FailRequest(id: Id, from: State, code: Code, reachable: bool) returns (outcome: Outcome)
      modifies this
      ensures View() == if reachable then FailRow(old(View()), id, from, code) else old(View())
      ensures outcome == Done <==> reachable && id in old(rows) && old(rows)[id].state == from
      ensures outcome == Done ==> rows == old(rows)[id := old(rows)[id].(state := Failed, code := code)]
      ensures outcome == if !reachable then IoError else if Hit(old(View()), id, from) then Done else Conflict
    {
      if !reachable {
        return IoError;
      }
      if id !in rows || rows[id].state != from {
        return Conflict;
      }
      rows := rows[id := rows[id].(state := Failed, code := code)];
      return Done;
    }

    method CompleteRequest(id: Id, at: string, reachable: bool) returns (outcome: Outcome)
      modifies this
      ensures View() == if reachable then CompleteRow(old(View()), id, at) else old(View())
      ensures outcome == Done <==> reachable && id in old(rows) && old(rows)[id].state == Locating
      ensures outcome == Done ==>
                rows == old(rows)[id := old(rows)[id].(state := Completed)] && results == old(results)[id := at]
      ensures outcome == if !reachable then IoError else if Hit(old(View()), id, Locating) then Done else Conflict
    {
      if !reachable {
        return IoError;
      }
      if id !in rows || rows[id].state != Locating {
        return Conflict;
      }
      rows := rows[id := rows[id].(state := Completed)];
      results := results[id := at];
      return Done;
    }

    method Recover(now: string)
      modifies this
      ensures View() == RecoverRows(old(View()), now)
      ensures forall id :: id in rows ==> !rows[id].state.Active()
      ensures rows.Keys == old(rows).Keys && results == old(results)
      ensures forall id :: id in old(rows) && (old(rows)[id].state == Resolving || old(rows)[id].state == Locating) ==>
                rows[id] == old(rows)[id].(state := Queued, next := Some(now))
      ensures forall id :: id in old(rows) && old(rows)[id].state != Resolving && old(rows)[id].state != Locating ==>
                rows[id] == old(rows)[id]
    {
      rows := map id | id in rows :: RecoverRow(rows[id], now);
    }

    method Purge(requestCut: string, resultCut: string)
      modifies this
      ensures View() == PurgeRows(old(View()), requestCut, resultCut)
      ensures forall id :: id in rows <==>
                id in old(rows) && !(old(rows)[id].state.Terminal() && TextLess(old(rows)[id].created, requestCut))
      ensures forall id :: id in rows ==> rows[id] == old(rows)[id]
      ensures forall id :: id in results <==>
                id in old(results) && id in rows && !TextLess(old(results)[id], resultCut)
      ensures forall id :: id in results ==> results[id] == old(results)[id]
    {
      results := map id | id in results && !TextLess(results[id], resultCut) :: results[id];
      rows := map id | id in rows && !PastRetention(rows[id], requestCut) :: rows[id];
      results := map id | id in results && id in rows :: results[id];
    }
  }
}
