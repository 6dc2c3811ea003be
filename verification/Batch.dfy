/**
  Batch submission: one request row per target under the derived idempotency key "key#i", one shared
  callback subscription, each store call on its own. Other submissions, and the worker, may run between
  any two store calls, and any store call may fail. Purging is left out: rows never disappear here.
 */
module Batch {
  import opened Decimals
  import opened Domain
  import opened RequestStore

  /** fmt.Sprintf("%s#%d", key, i) */
  function BatchKey(key: string, i: nat): string {
    key + ("#" + Plain(i))
  }

  /** A derived key is the batch's key, a hash mark and the index in decimal. */
  lemma BatchKeyReads(key: string, i: nat)
    ensures var s := BatchKey(key, i);
            && |s| >= |key| + 2 && s[..|key|] == key && s[|key|] == '#'
            && Digits(s[|key| + 1..]) && Decimal(s[|key| + 1..]) == i
  {
    PlainReads(i);
    assert BatchKey(key, i)[|key| + 1..] == Plain(i);
  }

  /** Theorem: no two (key, index) pairs of batches share a derived key. */
  lemma BatchKeyInjective(k: string, i: nat, l: string, j: nat)
    ensures BatchKey(k, i) == BatchKey(l, j) <==> k == l && i == j
  {
    if BatchKey(k, i) == BatchKey(l, j) {
      PlainReads(i);
      PlainReads(j);
      if |k| < |l| {
        MarkInsideDigits(k, Plain(i), l, Plain(j));
      } else if |l| < |k| {
        MarkInsideDigits(l, Plain(j), k, Plain(i));
      }
      SameParts(k, Plain(i), l, Plain(j));
    }
  }

  /** With the shorter key, the mark of the longer one would be a digit. */
  lemma MarkInsideDigits(k: string, d: string, l: string, e: string)
    requires Digits(d) && |k| < |l|
    ensures k + ("#" + d) != l + ("#" + e)
  {
    var s, t := k + ("#" + d), l + ("#" + e);
    assert t[|l|] == '#';
    if |l| < |s| {
      assert s[|l|] == d[|l| - |k| - 1];
    }
  }

  lemma SameParts(k: string, d: string, l: string, e: string)
    requires |k| == |l| && k + ("#" + d) == l + ("#" + e)
    ensures k == l && d == e
  {
    var s, t := k + ("#" + d), l + ("#" + e);
    assert k == s[..|k|] && l == t[..|k|];
    assert d == s[|k| + 1..] && e == t[|k| + 1..];
  }

  datatype Reason = EmptyBatch | BadTarget | BadCallback | NotPrepared | NotAuthorized

  datatype Verdict = Accepted | Rejected(reason: Reason) | StoreFailed

  /** A batch, with what the checks made of it; callback is whether a callback URL was given. */
  datatype Submission = Submission(client: string, key: string, targets: seq<string>, callback: bool,
      callbackOk: bool, prepared: bool)

  /** The check that fails first, if any, in the order they are made. */
  function Refusal(b: Submission, valid: string -> bool, authorized: string -> bool): Option<Reason> {
    if b.targets == [] then Some(EmptyBatch)
    else if exists t :: t in b.targets && !valid(t) then Some(BadTarget)
    else if !b.callbackOk then Some(BadCallback)
    else if !b.prepared then Some(NotPrepared)
    else if exists t :: t in b.targets && !authorized(t) then Some(NotAuthorized)
    else None
  }

  /** There is a target, every target is valid and authorized, and neither the callback nor the rest is refused. */
  ghost predicate Acceptable(b: Submission, valid: string -> bool, authorized: string -> bool) {
    && |b.targets| >= 1 && b.callbackOk && b.prepared
    && forall i :: 0 <= i < |b.targets| ==> valid(b.targets[i]) && authorized(b.targets[i])
  }

  /** The reason given is a true one, and no check made before its own would have failed. */
  ghost predicate Blames(b: Submission, valid: string -> bool, authorized: string -> bool, why: Reason) {
    match why
    case EmptyBatch => |b.targets| == 0
    case BadTarget => exists i :: 0 <= i < |b.targets| && !valid(b.targets[i])
    case BadCallback => !b.callbackOk && |b.targets| >= 1 && AllHold(b.targets, valid)
    case NotPrepared => !b.prepared && b.callbackOk && |b.targets| >= 1 && AllHold(b.targets, valid)
    case NotAuthorized =>
      && (exists i :: 0 <= i < |b.targets| && !authorized(b.targets[i]))
      && b.prepared && b.callbackOk && AllHold(b.targets, valid)
  }

  ghost predicate AllHold(targets: seq<string>, ok: string -> bool) {
    forall i :: 0 <= i < |targets| ==> ok(targets[i])
  }

  type Key = (string, string)

  function KeyOf(row: Row): Key {
    (row.client, row.key)
  }

  /**
    Everything submissions share. subs lists every subscription ever attached to a request (the row holds
    the last), first the request first created under each client and key, and open the rows whose
    creating call, elsewhere, may still attach its subscription.
   */
  datatype Shared = Shared(rows: map<Id, Row>, subs: map<Id, seq<string>>, first: map<Key, Id>, open: set<Id>)

  /** One row per client and key, and first names it. */
  ghost predicate OneRowPerKey(s: Shared) {
    && (forall id :: id in s.rows ==> KeyOf(s.rows[id]) in s.first && s.first[KeyOf(s.rows[id])] == id)
    && (forall k :: k in s.first ==> s.first[k] in s.rows && KeyOf(s.rows[s.first[k]]) == k)
  }

  /** At most one subscription ever attached to each row, and none yet to those still open. */
  ghost predicate OneSubPerRow(s: Shared) {
    && s.subs.Keys <= s.rows.Keys && s.open <= s.rows.Keys && s.open !! s.subs.Keys
    && (forall id :: id in s.subs ==> |s.subs[id]| == 1)
  }

  ghost predicate Sound(s: Shared) {
    OneRowPerKey(s) && OneSubPerRow(s)
  }

  // ---- what calls do to it --------------------------------------------------------------------

  function Inserted(s: Shared, id: Id, row: Row): Shared {
    s.(rows := s.rows[id := row], first := s.first[KeyOf(row) := id])
  }

  function Opened(s: Shared, id: Id): Shared {
    s.(open := s.open + {id})
  }

  function Attached(s: Shared, id: Id, sub: string): Shared {
    s.(subs := s.subs[id := (if id in s.subs then s.subs[id] else []) + [sub]], open := s.open - {id})
  }

  /**
    What any number of steps of any number of submissions, and of the worker, can do: rows keep their
    identity, first-created ids stay, and only rows still open gain a subscription.
   */
  ghost predicate Grew(a: Shared, b: Shared) {
    && (forall k :: k in a.first ==> k in b.first && b.first[k] == a.first[k])
    && (forall id :: id in a.rows ==> SameRequest(a, b, id))
    && (forall id :: id in a.rows && id !in a.open ==> SameSubs(a, b, id))
    && (forall id :: id in a.rows && id in b.open ==> id in a.open)
  }

  ghost predicate SameRequest(a: Shared, b: Shared, id: Id)
    requires id in a.rows
  {
    id in b.rows && KeyOf(b.rows[id]) == KeyOf(a.rows[id]) && b.rows[id].target == a.rows[id].target
  }

  ghost predicate SameSubs(a: Shared, b: Shared, id: Id) {
    (id in a.subs <==> id in b.subs) && (id in a.subs ==> b.subs[id] == a.subs[id])
  }

  lemma GrewTransitive(a: Shared, b: Shared, c: Shared)
    requires Grew(a, b) && Grew(b, c)
    ensures Grew(a, c)
  {
    forall id | id in a.rows ensures SameRequest(a, c, id) {
      assert SameRequest(a, b, id) && SameRequest(b, c, id);
    }
    forall id | id in a.rows && id !in a.open ensures SameSubs(a, c, id) {
      assert SameSubs(a, b, id) && SameSubs(b, c, id);
    }
  }

  lemma InsertOneRow(s: Shared, id: Id, row: Row)
    requires OneRowPerKey(s) && id !in s.rows && KeyOf(row) !in s.first
    ensures OneRowPerKey(Inserted(s, id, row))
  {
  }

  lemma InsertGrows(s: Shared, id: Id, row: Row)
    requires Sound(s) && id !in s.rows && KeyOf(row) !in s.first
    ensures Sound(Inserted(s, id, row)) && Grew(s, Inserted(s, id, row))
  {
    InsertOneRow(s, id, row);
    var t := Inserted(s, id, row);
    forall j | j in s.rows ensures SameRequest(s, t, j) && SameSubs(s, t, j) {
    }
  }

  lemma OpenGrows(a: Shared, b: Shared, id: Id)
    requires Sound(b) && Grew(a, b) && id !in a.rows && id in b.rows && id !in b.subs
    ensures Sound(Opened(b, id)) && Grew(a, Opened(b, id))
  {
    var o := Opened(b, id);
    forall j | j in a.rows ensures SameRequest(a, o, j) {
      assert SameRequest(a, b, j);
    }
    forall j | j in a.rows && j !in a.open ensures SameSubs(a, o, j) {
      assert SameSubs(a, b, j);
    }
  }

  lemma AttachGrows(s: Shared, id: Id, sub: string)
    requires Sound(s) && id in s.rows && id !in s.subs
    ensures Sound(Attached(s, id, sub)) && Grew(Opened(s, id), Attached(s, id, sub))
    ensures Attached(s, id, sub).subs[id] == [sub]
  {
    assert [] + [sub] == [sub];
  }

  /** The worker and clients change a row's progress, never whose it is. */
  lemma ProgressGrows(s: Shared, id: Id, row: Row)
    requires Sound(s) && id in s.rows && KeyOf(row) == KeyOf(s.rows[id]) && row.target == s.rows[id].target
    ensures Sound(s.(rows := s.rows[id := row])) && Grew(s, s.(rows := s.rows[id := row]))
  {
  }

  /** id is the row first created under a client and key. */
  ghost predicate RowUnder(s: Shared, client: string, key: string, id: Id) {
    (client, key) in s.first && s.first[(client, key)] == id
  }

  /** id is the row first created for the i-th target of a batch. */
  ghost predicate RowFor(s: Shared, b: Submission, i: nat, id: Id) {
    RowUnder(s, b.client, BatchKey(b.key, i), id)
  }

  /** A row this call created carries the batch's one subscription if there is a callback, and none if not. */
  ghost predicate CallbackSettled(s: Shared, b: Submission, id: Id, sub: Option<string>) {
    if b.callback then sub.Some? && id in s.subs && s.subs[id] == [sub.value] else id !in s.subs
  }

  /** The rows created by the calls followed here, each with whether its callback registration succeeded. */
  type Record = map<Id, bool>

  /** A row created here carries a subscription if and only if its registration succeeded. */
  ghost predicate Recorded(s: Shared, mine: Record) {
    forall id :: id in mine ==> id in s.rows && id !in s.open && (id in s.subs <==> mine[id])
  }

  lemma RecordStands(a: Shared, b: Shared, mine: Record)
    requires Recorded(a, mine) && Grew(a, b)
    ensures Recorded(b, mine)
  {
    forall id | id in mine ensures id in b.rows && id !in b.open && (id in b.subs <==> mine[id]) {
      assert SameSubs(a, b, id) && SameRequest(a, b, id);
    }
  }

  /** The rows that appeared were noted as others', and are under keys that are not reserved. */
  ghost predicate ByOthers(a: Shared, was: set<Id>, b: Shared, others: set<Id>, reserved: set<Key>) {
    && a.rows.Keys <= b.rows.Keys && others == was + (b.rows.Keys - a.rows.Keys)
    && forall k :: k in reserved && k in b.first ==> k in a.first
  }

  lemma ByOthersTransitive(a: Shared, was: set<Id>, b: Shared, mid: set<Id>, c: Shared, others: set<Id>,
                           reserved: set<Key>)
    requires ByOthers(a, was, b, mid, reserved) && ByOthers(b, mid, c, others, reserved)
    ensures ByOthers(a, was, c, others, reserved)
  {
  }

  lemma InsertByOthers(s: Shared, others: set<Id>, id: Id, row: Row, reserved: set<Key>)
    requires id !in s.rows && KeyOf(row) !in reserved
    ensures ByOthers(s, others, Inserted(s, id, row), others + {id}, reserved)
    ensures ByOthers(s, others, Opened(Inserted(s, id, row), id), others + {id}, reserved)
  {
    assert Inserted(s, id, row).rows.Keys - s.rows.Keys == {id};
  }

  /** Every row is recorded here or another's, and none is both. */
  ghost predicate Accounted(s: Shared, mine: Record, others: set<Id>) {
    s.rows.Keys == mine.Keys + others && mine.Keys !! others
  }

  class Service {
    const store: Store
    var subs: map<Id, seq<string>>
    var open: set<Id>
    /** Keys nobody else can name: freshly drawn random ones. */
    var reserved: set<Key>
    ghost var first: map<Key, Id>
    ghost var mine: Record
    /** The rows that were there before, or that other calls created. */
    ghost var others: set<Id>

    ghost function Now(): Shared
      reads this, store
    {
      Shared(store.rows, subs, first, open)
    }

    ghost predicate Valid()
      reads this, store
    {
      Sound(Now()) && Recorded(Now(), mine) && Accounted(Now(), mine, others)
    }

    /** A service over any rows with unique keys and at most one subscription each. */
    constructor (store: Store, subs: map<Id, seq<string>>, ghost first: map<Key, Id>)
      requires Sound(Shared(store.rows, subs, first, {}))
      ensures this.store == store && Now() == Shared(store.rows, subs, first, {}) && Valid() && mine == map[]
              && reserved == {}
    {
      this.store, this.subs, this.first, open := store, subs, first, {};
      reserved, mine, others := {}, map[], store.rows.Keys;
    }

    /** CreateRequest, remembering which row came first. */
    method Create(id: Id, row: Row, reachable: bool) returns (outcome: Outcome, stored: Id)
      requires Sound(Now())
      modifies this`first, store
      ensures outcome == Done ==>
        stored == id && id !in old(store.rows) && KeyOf(row) !in old(first) && Now() == Inserted(old(Now()), id, row)
      ensures outcome != Done ==> Now() == old(Now())
      ensures outcome == Conflict ==> KeyOf(row) in first && first[KeyOf(row)] == stored
    {
      outcome, stored := store.CreateRequest(id, row, reachable);
      if outcome == Done {
        first := first[KeyOf(row) := id];
      }
    }

    /** SetRequestSubscription. */
    method Attach(id: Id, sub: string)
      modifies this`subs, this`open
      ensures Now() == Attached(old(Now()), id, sub)
    {
      subs := subs[id := (if id in subs then subs[id] else []) + [sub]];
      open := open - {id};
    }

    // ---- other submissions and the worker ----------------------------------------------------

    method OthersCreate(id: Id, row: Row, registering: bool)
      requires Sound(Now())
      modifies this`first, this`open, this`others, store
      ensures Sound(Now()) && Grew(old(Now()), Now())
      ensures ByOthers(old(Now()), old(others), Now(), others, reserved)
    {
      if KeyOf(row) in reserved {
        return;
      }
      var outcome, stored := Create(id, row, true);
      if outcome == Done {
        InsertGrows(old(Now()), id, row);
        InsertByOthers(old(Now()), others, id, row, reserved);
        others := others + {id};
        if registering {
          OpenGrows(old(Now()), Now(), id);
          open := open + {id};
        }
      }
    }

    method OthersProgress(id: Id, row: Row)
      requires Sound(Now())
      modifies store
      ensures Sound(Now()) && Grew(old(Now()), Now()) && ByOthers(old(Now()), others, Now(), others, reserved)
    {
      if id in store.rows {
        var r := store.rows[id];
        var next := row.(client := r.client, key := r.key, target := r.target);
        ProgressGrows(Now(), id, next);
        store.rows := store.rows[id := next];
      }
    }

    method OthersAttach(id: Id, sub: string, fails: bool)
      requires Sound(Now())
      modifies this`subs, this`open
      ensures Sound(Now()) && Grew(old(Now()), Now()) && ByOthers(old(Now()), others, Now(), others, reserved)
    {
      if id in open {
        assert Opened(Now(), id) == Now();
        if fails {
          open := open - {id};
        } else {
          AttachGrows(Now(), id, sub);
          Attach(id, sub);
        }
      }
    }

    method Others()
      requires Sound(Now())
      modifies this`subs, this`first, this`open, this`others, store
      ensures Sound(Now()) && Grew(old(Now()), Now())
      ensures ByOthers(old(Now()), old(others), Now(), others, reserved)
    {
      var n: int := *;
      for i := 0 to if n < 0 then 0 else n
        invariant Sound(Now()) && Grew(old(Now()), Now())
        invariant ByOthers(old(Now()), old(others), Now(), others, reserved)
      {
        ghost var before, were := Now(), others;
        var id: Id, row: Row, text: string, flag: bool := *, *, *, *;
        if {
          case true => OthersCreate(id, row, flag);
          case true => OthersProgress(id, row);
          case true => OthersAttach(id, text, flag);
        }
        GrewTransitive(old(Now()), before, Now());
        ByOthersTransitive(old(Now()), old(others), before, were, Now(), others, reserved);
      }
    }

    // ---- submission ---------------------------------------------------------------------------

    /** registerCallback, unless the batch already has its subscription. */
    method Subscription(shared: Option<string>) returns (sub: Option<string>)
      requires Sound(Now())
      modifies this`subs, this`first, this`open, this`others, store
      ensures Sound(Now()) && Grew(old(Now()), Now())
      ensures ByOthers(old(Now()), old(others), Now(), others, reserved)
      ensures shared.Some? ==> sub == shared
    {
      Others();
      sub := shared;
      if sub.None? {
        var registered: bool, text: string := *, *;
        if registered {
          sub := Some(text);
        }
      }
    }

    /** The callback registration of a row this call has just created. */
    method Register(id: Id, shared: Option<string>) returns (ok: bool, sub: Option<string>)
      requires Sound(Now()) && id in store.rows && id !in open && id !in subs
      modifies this`subs, this`first, this`open, this`others, store
      ensures Sound(Now()) && Grew(Opened(old(Now()), id), Now()) && id !in open
      ensures ByOthers(old(Now()), old(others), Now(), others, reserved)
      ensures shared.Some? ==> sub == shared
      ensures if ok then sub.Some? && id in subs && subs[id] == [sub.value] else id !in subs
    {
      ghost var start := Now();
      sub := Subscription(shared);
      ghost var mid, were := Now(), others;
      Others();
      GrewTransitive(start, mid, Now());
      ByOthersTransitive(start, old(others), mid, were, Now(), others, reserved);
      UnopenedGrew(start, Now(), id);
      var stored: bool := *;
      if sub.None? || !stored {
        return false, sub;
      }
      AttachGrows(Now(), id, sub.value);
      AttachAfter(start, Now(), id, sub.value);
      Attach(id, sub.value);
      ok := true;
    }

    /** One target: the row under its key, created unless it was there. */
    method SubmitTarget(b: Submission, i: nat, key: string, shared: Option<string>)
      returns (ok: bool, id: Id, created: bool, sub: Option<string>)
      requires Valid() && i < |b.targets|
      modifies this`subs, this`first, this`open, this`others, this`mine, store
      ensures Valid() && Grew(old(Now()), Now())
      ensures shared.Some? ==> sub == shared
      ensures ok || created ==> RowUnder(Now(), b.client, key, id)
      ensures mine == if created then old(mine)[id := ok && b.callback] else old(mine)
      ensures created ==> id !in old(store.rows) && id in store.rows && store.rows[id].target == b.targets[i]
      ensures created ==> if ok then CallbackSettled(Now(), b, id, sub) else b.callback && id !in subs
      ensures ok && (b.client, key) in reserved && (b.client, key) !in old(first) ==> created
      ensures forall k :: k in reserved && k in first && k != (b.client, key) ==> k in old(first)
    {
      sub := shared;
      ghost var start := Now();
      created, ok, id := CreateTarget(b, i, key);
      if created {
        ok, sub := Enter(id, b.callback, shared, start);
      }
    }

    /** The rest of a call for a row it has just created: its callback, if there is one, and the record. */
    method Enter(id: Id, callback: bool, shared: Option<string>, ghost start: Shared)
      returns (ok: bool, sub: Option<string>)
      requires Sound(Now()) && Recorded(Now(), mine) && AccountedBut(Now(), mine, others, id)
      requires Grew(start, Now()) && id !in start.rows && id in store.rows && id !in open && id !in subs
      modifies this`subs, this`first, this`open, this`others, this`mine, store
      ensures Valid() && Grew(start, Now()) && mine == old(mine)[id := ok && callback]
      ensures SameRequest(old(Now()), Now(), id) && forall k :: k in reserved && k in first ==> k in old(first)
      ensures shared.Some? ==> sub == shared
      ensures if callback && ok then sub.Some? && id in subs && subs[id] == [sub.value] else id !in subs
      ensures !callback ==> ok
    {
      ok, sub := true, shared;
      if callback {
        ghost var made, were := Now(), others;
        ok, sub := RegisterNew(id, shared, start);
        AccountedStill(made, Now(), mine, were, others, id, reserved);
      } else {
        RecordGrows(Now(), mine, id, false);
      }
      AccountedMore(Now(), mine, others, id, ok && callback);
      mine := mine[id := ok && callback];
    }

    /** The insert. A row created here is not yet in the record. */
    method CreateTarget(b: Submission, i: nat, key: string) returns (created: bool, ok: bool, id: Id)
      requires Valid() && i < |b.targets|
      modifies this`subs, this`first, this`open, this`others, store
      ensures Sound(Now()) && Recorded(Now(), mine) && Grew(old(Now()), Now())
      ensures ok ==> RowUnder(Now(), b.client, key, id)
      ensures if created then ok && AccountedBut(Now(), mine, others, id) else Accounted(Now(), mine, others)
      ensures created ==> id !in old(store.rows) && id in store.rows && store.rows[id].target == b.targets[i]
      ensures created ==>
                && store.rows[id].client == b.client && store.rows[id].key == key
                && store.rows[id].state == Queued && store.rows[id].attempts == 0 && store.rows[id].next == None
      ensures created ==> id !in open && id !in subs && (b.client, key) !in old(first)
      ensures ok && (b.client, key) in reserved && (b.client, key) !in old(first) ==> created
      ensures forall k :: k in reserved && k in first && k != (b.client, key) ==> k in old(first)
    {
      ghost var start, were := Now(), others;
      Others();
      ghost var mid := Now();
      RecordStands(start, mid, mine);
      AccountedByOthers(start, mid, mine, were, others, reserved);
      var uuid: Id, now: string, reachable: bool := *, *, *;
      var row := FreshRow(b.client, key, b.targets[i], now);
      var outcome, stored := Create(uuid, row, reachable);
      created, ok, id := outcome == Done, outcome == Done || outcome == Conflict, stored;
      if created {
        InsertGrows(mid, id, row);
        RecordStands(mid, Now(), mine);
        GrewTransitive(start, mid, Now());
        AccountedInserted(mid, mine, others, id, row);
      }
    }

    /** Register, seen from the start of the call that created the row. */
    method RegisterNew(id: Id, shared: Option<string>, ghost start: Shared) returns (ok: bool, sub: Option<string>)
      requires Sound(Now()) && id in store.rows && id !in open && id !in subs && id !in mine && Recorded(Now(), mine)
      requires Grew(start, Now()) && id !in start.rows
      modifies this`subs, this`first, this`open, this`others, store
      ensures Sound(Now()) && Grew(start, Now()) && Recorded(Now(), mine[id := ok])
      ensures ByOthers(old(Now()), old(others), Now(), others, reserved)
      ensures SameRequest(old(Now()), Now(), id)
      ensures shared.Some? ==> sub == shared
      ensures if ok then sub.Some? && id in subs && subs[id] == [sub.value] else id !in subs
    {
      ghost var made := Now();
      OpenGrows(start, made, id);
      ok, sub := Register(id, shared);
      GrewTransitive(start, Opened(made, id), Now());
      assert SameRequest(Opened(made, id), Now(), id);
      RecordStandsOpened(made, Now(), mine, id);
      RecordGrows(Now(), mine, id, ok);
    }

    /**
      SubmitBatch. A refused batch touches nothing; otherwise each target answered for is the row first
      created under its key, rows created here carry one shared subscription if a callback was asked
      for, and the record says which row, if any, the call left without one when it failed.
     */
    method SubmitBatch(b: Submission, valid: string -> bool, authorized: string -> bool)
      returns (verdict: Verdict, reqs: seq<Id>, created: seq<bool>, sub: Option<string>, ghost lost: Option<Id>)
      requires Valid()
      modifies this`subs, this`first, this`open, this`others, this`mine, store
      ensures Valid() && Grew(old(Now()), Now())
      ensures !verdict.Rejected? <==> Acceptable(b, valid, authorized)
      ensures verdict.Rejected? ==> Blames(b, valid, authorized, verdict.reason)
      ensures verdict.Rejected? ==> Now() == old(Now()) && lost == None && reqs == []
      ensures |reqs| == |created| <= |b.targets| && (verdict == Accepted ==> |reqs| == |b.targets| && lost == None)
      ensures AllAnswered(old(Now()), Now(), b, reqs, created, sub)
      ensures Made(old(mine), mine, Now(), b, reqs, created, lost)
      ensures verdict == Accepted && FreshKeys(b, reserved, old(first), 0) ==>
                forall i :: 0 <= i < |created| ==> created[i]
    {
      var refusal := Check(b, valid, authorized);
      if refusal.Some? {
        return Rejected(refusal.value), [], [], None, None;
      }
      var ok: bool;
      ok, reqs, created, sub, lost := SubmitTargets(b);
      verdict := if ok then Accepted else StoreFailed;
    }

    /** The loop over the targets; it stops at the first store call that fails. */
    method SubmitTargets(b: Submission)
      returns (ok: bool, reqs: seq<Id>, created: seq<bool>, sub: Option<string>, ghost lost: Option<Id>)
      requires Valid()
      modifies this`subs, this`first, this`open, this`others, this`mine, store
      ensures Valid() && Grew(old(Now()), Now())
      ensures |reqs| == |created| <= |b.targets| && (ok ==> |reqs| == |b.targets| && lost == None)
      ensures AllAnswered(old(Now()), Now(), b, reqs, created, sub)
      ensures Made(old(mine), mine, Now(), b, reqs, created, lost)
      ensures ok && FreshKeys(b, reserved, old(first), 0) ==> forall i :: 0 <= i < |created| ==> created[i]
    {
      reqs, created, sub, lost := [], [], None, None;
      for i := 0 to |b.targets|
        invariant Valid() && |reqs| == |created| == i && lost == None
        invariant SoFar(old(Now()), old(mine), Now(), mine, reserved, b, reqs, created, sub)
      {
        var done: bool, id: Id, new': bool;
        done, id, new', sub, lost := NextTarget(b, old(Now()), old(mine), reqs, created, sub);
        if !done {
          return false, reqs, created, sub, lost;
        }
        reqs, created := reqs + [id], created + [new'];
      }
      ok := true;
    }

    /** One pass of the loop, with what it adds to the promises about the targets before it. */
    method NextTarget(b: Submission, ghost start: Shared, ghost was: Record, reqs: seq<Id>, created: seq<bool>,
                      shared: Option<string>)
      returns (done: bool, id: Id, new': bool, sub: Option<string>, ghost lost: Option<Id>)
      requires Valid() && |reqs| == |created| < |b.targets|
      requires SoFar(start, was, Now(), mine, reserved, b, reqs, created, shared)
      modifies this`subs, this`first, this`open, this`others, this`mine, store
      ensures Valid() && Grew(start, Now())
      ensures done ==> lost == None && SoFar(start, was, Now(), mine, reserved, b, reqs + [id], created + [new'], sub)
      ensures !done ==> AllAnswered(start, Now(), b, reqs, created, sub)
      ensures !done ==> Made(was, mine, Now(), b, reqs, created, lost)
    {
      ghost var before, recorded := Now(), mine;
      done, id, new', sub := SubmitTarget(b, |reqs|, BatchKey(b.key, |reqs|), shared);
      GrewTransitive(start, before, Now());
      lost := if !done && new' then Some(id) else None;
      if done {
        SoFarGrows(start, was, before, recorded, Now(), reserved, b, reqs, created, shared, sub, id, new');
      } else {
        AnswersStand(start, before, Now(), b, reqs, created, shared, sub);
        MadeLost(was, recorded, before, Now(), b, reqs, created, id, new');
      }
    }

    /** Submit: one target, under the client's own key. */
    method Submit(b: Submission, valid: string -> bool, authorized: string -> bool)
      returns (verdict: Verdict, id: Id, created: bool, sub: Option<string>)
      requires Valid() && |b.targets| == 1
      modifies this`subs, this`first, this`open, this`others, this`mine, store
      ensures Valid() && Grew(old(Now()), Now())
      ensures !verdict.Rejected? <==> Acceptable(b, valid, authorized)
      ensures verdict.Rejected? ==> Blames(b, valid, authorized, verdict.reason)
      ensures verdict.Rejected? ==> Now() == old(Now()) && !created
      ensures mine == if created then old(mine)[id := verdict == Accepted && b.callback] else old(mine)
      ensures verdict == Accepted || created ==> RowUnder(Now(), b.client, b.key, id)
      ensures created ==> id !in old(store.rows) && id in store.rows && store.rows[id].target == b.targets[0]
      ensures verdict == Accepted && created ==> CallbackSettled(Now(), b, id, sub)
      ensures verdict == Accepted && (b.client, b.key) in reserved && (b.client, b.key) !in old(first) ==> created
    {
      var refusal := Check(b, valid, authorized);
      if refusal.Some? {
        return Rejected(refusal.value), Id(""), false, None;
      }
      var ok: bool;
      ok, id, created, sub := SubmitTarget(b, 0, b.key, None);
      verdict := if ok then Accepted else StoreFailed;
    }

    /**
      The same batch sent any number of times. Whatever failed in between, every attempt answered every
      target it got to with one and the same row; and at the end, as after every attempt, a row created in
      any attempt carries a subscription if and only if its own attempt's registration succeeded.
     */
    method Resubmit(b: Submission, valid: string -> bool, authorized: string -> bool, attempts: nat)
      returns (verdicts: seq<Verdict>, answers: seq<seq<Id>>)
      requires Valid()
      modifies this`subs, this`first, this`open, this`others, this`mine, store
      ensures Valid() && Grew(old(Now()), Now())
      ensures |verdicts| == |answers| == attempts
      ensures forall n :: 0 <= n < attempts ==> Consistent(Now(), b, verdicts[n], answers[n])
      ensures forall id :: id in old(mine) ==> id in mine && mine[id] == old(mine)[id]
      ensures forall id :: id in store.rows && id !in others ==> id in mine && (id in subs <==> mine[id])
    {
      verdicts, answers := [], [];
      for n := 0 to attempts
        invariant Valid() && Grew(old(Now()), Now()) && |verdicts| == |answers| == n
        invariant forall m :: 0 <= m < n ==> Consistent(Now(), b, verdicts[m], answers[m])
        invariant forall id :: id in old(mine) ==> id in mine && mine[id] == old(mine)[id]
      {
        ghost var before := Now();
        var verdict, reqs, created, sub, lost := SubmitBatch(b, valid, authorized);
        GrewTransitive(old(Now()), before, Now());
        AllStand(before, Now(), b, verdicts, answers);
        AnswersConsistent(before, Now(), b, verdict, reqs, created, sub);
        verdicts, answers := verdicts + [verdict], answers + [reqs];
      }
    }

    static method Check(b: Submission, valid: string -> bool, authorized: string -> bool)
      returns (refusal: Option<Reason>)
      ensures refusal == Refusal(b, valid, authorized)
      ensures refusal.None? <==> Acceptable(b, valid, authorized)
      ensures refusal.Some? ==> Blames(b, valid, authorized, refusal.value)
    {
      if |b.targets| == 0 {
        return Some(EmptyBatch);
      }
      for i := 0 to |b.targets|
        invariant forall j :: 0 <= j < i ==> valid(b.targets[j])
      {
        if !valid(b.targets[i]) {
          return Some(BadTarget);
        }
      }
      if !b.callbackOk {
        return Some(BadCallback);
      }
      if !b.prepared {
        return Some(NotPrepared);
      }
      for i := 0 to |b.targets|
        invariant forall j :: 0 <= j < i ==> authorized(b.targets[j])
      {
        if !authorized(b.targets[i]) {
          return Some(NotAuthorized);
        }
      }
      return None;
    }
  }

  // ---- accounting ---------------------------------------------------------------------------

  /** Every row but one is recorded here or another's. */
  ghost predicate AccountedBut(s: Shared, mine: Record, others: set<Id>, id: Id) {
    && s.rows.Keys == mine.Keys + others + {id}
    && mine.Keys !! others && id !in mine && id !in others
  }

  lemma AccountedByOthers(a: Shared, b: Shared, mine: Record, were: set<Id>, others: set<Id>, reserved: set<Key>)
    requires Accounted(a, mine, were) && ByOthers(a, were, b, others, reserved)
    ensures Accounted(b, mine, others)
  {
  }

  lemma AccountedInserted(s: Shared, mine: Record, others: set<Id>, id: Id, row: Row)
    requires Accounted(s, mine, others) && id !in s.rows && OneSubPerRow(s)
    ensures AccountedBut(Inserted(s, id, row), mine, others, id)
    ensures var z := Inserted(s, id, row);
            z.rows[id] == row && id !in z.open && id !in z.subs && RowUnder(z, row.client, row.key, id)
  {
  }

  lemma AccountedStill(a: Shared, b: Shared, mine: Record, were: set<Id>, others: set<Id>, id: Id, reserved: set<Key>)
    requires AccountedBut(a, mine, were, id) && ByOthers(a, were, b, others, reserved)
    ensures AccountedBut(b, mine, others, id)
  {
  }

  lemma AccountedMore(s: Shared, mine: Record, others: set<Id>, id: Id, carries: bool)
    requires AccountedBut(s, mine, others, id)
    ensures Accounted(s, mine[id := carries], others)
  {
    assert mine[id := carries].Keys == mine.Keys + {id};
  }

  // ---- the record ---------------------------------------------------------------------------

  lemma RecordGrows(s: Shared, mine: Record, id: Id, carries: bool)
    requires Recorded(s, mine) && id in s.rows && id !in s.open && (id in s.subs <==> carries)
    ensures Recorded(s, mine[id := carries])
  {
  }

  lemma RecordStandsOpened(a: Shared, b: Shared, mine: Record, id: Id)
    requires Recorded(a, mine) && id !in mine && Grew(Opened(a, id), b)
    ensures Recorded(b, mine)
  {
    RecordStands(Opened(a, id), b, mine);
  }

  function CreatedIds(reqs: seq<Id>, created: seq<bool>): set<Id>
    requires |reqs| == |created|
  {
    set i | 0 <= i < |reqs| && created[i] :: reqs[i]
  }

  /**
    What a call adds to the record: the rows it created for the targets it answered for, which carry a
    subscription exactly if there is a callback, and at most one more, the one it created for the target at
    which it failed, which carries none.
   */
  ghost predicate Made(was: Record, mine: Record, z: Shared, b: Submission, reqs: seq<Id>, created: seq<bool>,
                       lost: Option<Id>)
    requires |reqs| == |created|
  {
    && mine.Keys == was.Keys + CreatedIds(reqs, created) + (if lost.Some? then {lost.value} else {})
    && (forall id :: id in was ==> id in mine && mine[id] == was[id])
    && (forall i :: 0 <= i < |reqs| && created[i] ==> reqs[i] !in was && reqs[i] in mine && mine[reqs[i]] == b.callback)
    && (lost.Some? ==> LostAt(was, mine, z, b, |reqs|, lost.value))
  }

  ghost predicate LostAt(was: Record, mine: Record, z: Shared, b: Submission, i: nat, id: Id) {
    && b.callback && i < |b.targets| && RowFor(z, b, i, id) && id in z.rows && z.rows[id].target == b.targets[i]
    && id !in was && id in mine && !mine[id]
  }

  lemma CreatedIdsGrow(reqs: seq<Id>, created: seq<bool>, id: Id, new': bool)
    requires |reqs| == |created|
    ensures CreatedIds(reqs + [id], created + [new']) == CreatedIds(reqs, created) + (if new' then {id} else {})
  {
    var rs, cs := reqs + [id], created + [new'];
    forall x | x in CreatedIds(reqs, created) ensures x in CreatedIds(rs, cs) {
      var i :| 0 <= i < |reqs| && created[i] && reqs[i] == x;
      assert rs[i] == x && cs[i];
    }
    if new' {
      assert rs[|reqs|] == id && cs[|reqs|];
    }
  }

  lemma MadeMore(was: Record, mid: Record, y: Shared, z: Shared, b: Submission, reqs: seq<Id>, created: seq<bool>,
                 id: Id, new': bool)
    requires |reqs| == |created| && Made(was, mid, y, b, reqs, created, None) && (new' ==> id !in mid)
    ensures Made(was, if new' then mid[id := b.callback] else mid, z, b, reqs + [id], created + [new'], None)
  {
    CreatedIdsGrow(reqs, created, id, new');
  }

  lemma MadeLost(was: Record, mid: Record, y: Shared, z: Shared, b: Submission, reqs: seq<Id>, created: seq<bool>,
                 id: Id, new': bool)
    requires |reqs| == |created| && Made(was, mid, y, b, reqs, created, None)
    requires new' ==> id !in mid && LostAt(was, mid[id := false], z, b, |reqs|, id)
    ensures Made(was, if new' then mid[id := false] else mid, z, b, reqs, created, if new' then Some(id) else None)
  {
  }

  // ---- keys nobody else can name --------------------------------------------------------------

  /** The derived keys from an index on are reserved and unused. */
  ghost predicate FreshKeys(b: Submission, reserved: set<Key>, first: map<Key, Id>, from: nat) {
    forall j: nat :: from <= j < |b.targets| ==>
      (b.client, BatchKey(b.key, j)) in reserved && (b.client, BatchKey(b.key, j)) !in first
  }

  lemma FreshKeysShrink(b: Submission, reserved: set<Key>, first: map<Key, Id>, later: map<Key, Id>, i: nat)
    requires forall k :: k in reserved && k in later && k != (b.client, BatchKey(b.key, i)) ==> k in first
    ensures FreshKeys(b, reserved, first, i) ==> FreshKeys(b, reserved, later, i + 1)
  {
    forall j: nat | i < j < |b.targets| ensures BatchKey(b.key, j) != BatchKey(b.key, i) {
      BatchKeyInjective(b.key, j, b.key, i);
    }
  }

  /** What the loop of a batch call has established about the targets it is past. */
  ghost predicate SoFar(start: Shared, was: Record, z: Shared, mine: Record, reserved: set<Key>, b: Submission,
                        reqs: seq<Id>, created: seq<bool>, sub: Option<string>)
    requires |reqs| == |created|
  {
    && Grew(start, z) && AllAnswered(start, z, b, reqs, created, sub) && Made(was, mine, z, b, reqs, created, None)
    && (FreshKeys(b, reserved, start.first, 0) ==>
          FreshKeys(b, reserved, z.first, |reqs|) && forall j :: 0 <= j < |created| ==> created[j])
  }

  lemma SoFarGrows(start: Shared, was: Record, y: Shared, mid: Record, z: Shared, reserved: set<Key>, b: Submission,
                   reqs: seq<Id>, created: seq<bool>, sub: Option<string>, sub': Option<string>, id: Id, new': bool)
    requires |reqs| == |created| < |b.targets| && SoFar(start, was, y, mid, reserved, b, reqs, created, sub)
    requires Grew(start, z) && Grew(y, z) && (sub.Some? ==> sub' == sub)
    requires Answered(start, z, b, |reqs|, id, new', sub') && (new' ==> id !in mid)
    requires var k := (b.client, BatchKey(b.key, |reqs|));
             && (k in reserved && k !in y.first ==> new')
             && forall l :: l in reserved && l in z.first && l != k ==> l in y.first
    ensures var mine := if new' then mid[id := b.callback] else mid;
            SoFar(start, was, z, mine, reserved, b, reqs + [id], created + [new'], sub')
  {
    AnswersStand(start, y, z, b, reqs, created, sub, sub');
    AnswerAdded(start, z, b, reqs, created, sub', id, new');
    MadeMore(was, mid, y, z, b, reqs, created, id, new');
    FreshKeysShrink(b, reserved, y.first, z.first, |reqs|);
  }

  // ---- a lost callback ------------------------------------------------------------------------

  /**
    A batch with a callback whose first registration failed: the row is there, no attempt will make
    another, and it never gets a subscription.
   */
  lemma LostCallback(b: Submission, id: Id, now: string)
    requires |b.targets| > 0 && b.callback
    ensures var row := FreshRow(b.client, BatchKey(b.key, 0), b.targets[0], now);
            var s := Inserted(Shared(map[], map[], map[], {}), id, row);
            && Sound(s) && Recorded(s, map[id := false]) && Made(map[], map[id := false], s, b, [], [], Some(id))
            && forall z :: Sound(z) && Grew(s, z) ==> RowFor(z, b, 0, id) && id in z.rows && id !in z.subs
  {
    var none := Shared(map[], map[], map[], {});
    var row := FreshRow(b.client, BatchKey(b.key, 0), b.targets[0], now);
    InsertGrows(none, id, row);
    var s := Inserted(none, id, row);
    assert s.rows == map[id := row] && s.first == map[KeyOf(row) := id];
    forall z | Sound(z) && Grew(s, z) ensures RowFor(z, b, 0, id) && id in z.rows && id !in z.subs {
      UnopenedGrew(s, z, id);
    }
  }

  /** What a batch call promises about one target it answered for, from the state before it to the state after. */
  ghost predicate Answered(a: Shared, z: Shared, b: Submission, i: nat, id: Id, created: bool, sub: Option<string>) {
    && RowFor(z, b, i, id)
    && (created ==>
          && id !in a.rows && id in z.rows && id !in z.open
          && i < |b.targets| && z.rows[id].target == b.targets[i] && CallbackSettled(z, b, id, sub))
  }

  ghost predicate AllAnswered(a: Shared, z: Shared, b: Submission, reqs: seq<Id>, created: seq<bool>,
                              sub: Option<string>)
    requires |reqs| == |created|
  {
    forall i :: 0 <= i < |reqs| ==> Answered(a, z, b, i, reqs[i], created[i], sub)
  }

  lemma AnswerAdded(a: Shared, z: Shared, b: Submission, reqs: seq<Id>, created: seq<bool>, sub: Option<string>,
                    id: Id, new': bool)
    requires |reqs| == |created| && AllAnswered(a, z, b, reqs, created, sub) && Answered(a, z, b, |reqs|, id, new', sub)
    ensures AllAnswered(a, z, b, reqs + [id], created + [new'], sub)
  {
  }

  lemma AnswersStand(a: Shared, y: Shared, z: Shared, b: Submission, reqs: seq<Id>, created: seq<bool>,
                     sub: Option<string>, sub': Option<string>)
    requires |reqs| == |created| && AllAnswered(a, y, b, reqs, created, sub) && Grew(y, z)
             && (sub.Some? ==> sub' == sub)
    ensures AllAnswered(a, z, b, reqs, created, sub')
  {
    forall i | 0 <= i < |reqs| ensures Answered(a, z, b, i, reqs[i], created[i], sub') {
      assert Answered(a, y, b, i, reqs[i], created[i], sub);
      if created[i] {
        assert SameSubs(y, z, reqs[i]) && SameRequest(y, z, reqs[i]);
      }
    }
  }

  /** An attempt's answers are first-created rows, one for every target if it was accepted. */
  ghost predicate Consistent(s: Shared, b: Submission, verdict: Verdict, reqs: seq<Id>) {
    && |reqs| <= |b.targets| && (verdict == Accepted ==> |reqs| == |b.targets|)
    && (forall i :: 0 <= i < |reqs| ==> RowFor(s, b, i, reqs[i]))
  }

  lemma ConsistencyStands(y: Shared, z: Shared, b: Submission, verdict: Verdict, reqs: seq<Id>)
    requires Consistent(y, b, verdict, reqs) && Grew(y, z)
    ensures Consistent(z, b, verdict, reqs)
  {
    forall i | 0 <= i < |reqs| ensures RowFor(z, b, i, reqs[i]) {
      assert RowFor(y, b, i, reqs[i]);
    }
  }

  lemma AllStand(y: Shared, z: Shared, b: Submission, verdicts: seq<Verdict>, answers: seq<seq<Id>>)
    requires |verdicts| == |answers| && Grew(y, z)
    requires forall m :: 0 <= m < |answers| ==> Consistent(y, b, verdicts[m], answers[m])
    ensures forall m :: 0 <= m < |answers| ==> Consistent(z, b, verdicts[m], answers[m])
  {
    forall m | 0 <= m < |answers| ensures Consistent(z, b, verdicts[m], answers[m]) {
      ConsistencyStands(y, z, b, verdicts[m], answers[m]);
    }
  }

  lemma AnswersConsistent(a: Shared, z: Shared, b: Submission, verdict: Verdict, reqs: seq<Id>, created: seq<bool>,
                          sub: Option<string>)
    requires |reqs| == |created| <= |b.targets| && (verdict == Accepted ==> |reqs| == |b.targets|)
    requires AllAnswered(a, z, b, reqs, created, sub)
    ensures Consistent(z, b, verdict, reqs)
  {
    forall i | 0 <= i < |reqs| ensures RowFor(z, b, i, reqs[i]) {
      assert Answered(a, z, b, i, reqs[i], created[i], sub);
    }
  }

  /**
    Theorem: in any state the submissions can reach, an accepted attempt has exactly one row for each
    target, distinct targets have distinct rows, every other attempt answered with the same rows, and no
    row ever got more than one subscription.
   */
  lemma RetriesConverge(s: Shared, b: Submission, reqs: seq<Id>, verdict: Verdict, others: seq<Id>)
    requires Sound(s) && Consistent(s, b, Accepted, reqs) && Consistent(s, b, verdict, others)
    ensures forall i, id :: 0 <= i < |b.targets| && id in s.rows ==>
      (KeyOf(s.rows[id]) == (b.client, BatchKey(b.key, i)) <==> id == reqs[i])
    ensures forall i :: 0 <= i < |b.targets| ==> reqs[i] in s.rows
    ensures forall i, j :: 0 <= i < j < |b.targets| ==> reqs[i] != reqs[j]
    ensures others <= reqs
    ensures forall id :: id in s.subs ==> |s.subs[id]| == 1
  {
    forall i | 0 <= i < |b.targets| ensures RowFor(s, b, i, reqs[i]) && reqs[i] in s.rows
        && KeyOf(s.rows[reqs[i]]) == (b.client, BatchKey(b.key, i)) {
    }
    forall i, j | 0 <= i < j < |b.targets| ensures reqs[i] != reqs[j] {
      BatchKeyInjective(b.key, i, b.key, j);
      assert RowFor(s, b, i, reqs[i]) && RowFor(s, b, j, reqs[j]);
    }
    forall i | 0 <= i < |others| ensures others[i] == reqs[i] {
      assert RowFor(s, b, i, others[i]) && RowFor(s, b, i, reqs[i]);
    }
  }

  lemma UnopenedGrew(a: Shared, b: Shared, id: Id)
    requires Grew(a, b) && id in a.rows && id !in a.open && id !in a.subs
    ensures id in b.rows && id !in b.subs && id !in b.open && Grew(Opened(a, id), b)
  {
    assert SameSubs(a, b, id);
    assert SameRequest(a, b, id);
    var o := Opened(a, id);
    forall j | j in a.rows ensures SameRequest(o, b, j) {
      assert SameRequest(a, b, j);
    }
    forall j | j in a.rows && j !in o.open ensures SameSubs(o, b, j) {
      assert SameSubs(a, b, j);
    }
  }

  lemma AttachAfter(a: Shared, b: Shared, id: Id, sub: string)
    requires Sound(b) && Grew(a, b) && id in a.rows && id !in a.open && id !in a.subs
    ensures Grew(Opened(a, id), Attached(b, id, sub))
  {
    UnopenedGrew(a, b, id);
    AttachGrows(b, id, sub);
    var o, c := Opened(a, id), Attached(b, id, sub);
    forall j | j in a.rows ensures SameRequest(o, c, j) {
      assert SameRequest(a, b, j);
    }
    forall j | j in a.rows && j !in o.open ensures SameSubs(o, c, j) {
      assert SameSubs(a, b, j);
    }
  }
}
