/**
  MLP's location immediate service: a request for any number of subscribers is submitted, each resulting
  request polled until it settles or the deadline passes, and one position returned per subscriber.
  Durations are nanoseconds and only poll sleeps take time. What a poll reads is a function of the
  request and the time; done is the time the client goes away, if it does.
 */
module MlpWait {
  import opened Domain
  import opened RequestStore
  import opened Text
  import Batch
  import Dmsh

  const POLL: int := 250_000_000

  /** kind is the msid's type attribute, empty when absent. */
  datatype Msid = Msid(kind: string, value: string)

  function TargetOf(m: Msid): Option<string> {
    if m.kind == "" || m.kind == "MSISDN" then Some("msisdn " + TrimSpace(m.value))
    else if m.kind == "IMSI" then Some("imsi " + TrimSpace(m.value))
    else None
  }

  datatype Location = Location(latitude: Option<real>, longitude: Option<real>, uncertainty: Option<real>)

  /** What GetResult returned. */
  datatype Reading = Unreadable | Read(state: State, result: Location) {
    predicate Settled() {
      Read? && state.Terminal()
    }
  }

  type Reads = (Id, int) -> Reading

  datatype Failure = Timeout | PositionMethodFailure

  datatype Area = Area(x: string, y: string, radius: real)

  datatype Position = Position(msid: Msid, pd: Option<Area>, posErr: Option<Failure>)

  function BuildPos(m: Msid, final: Reading, timedOut: bool): Position {
    if !timedOut && final.Read? && final.state == Completed && final.result.latitude.Some?
        && final.result.longitude.Some? then
      var radius := if final.result.uncertainty.Some? then final.result.uncertainty.value else 0.0;
      var x := Dmsh.Encode(final.result.latitude.value, "N", "S");
      var y := Dmsh.Encode(final.result.longitude.value, "E", "W");
      Position(m, Some(Area(x, y, radius)), None)
    else Position(m, None, Some(if timedOut then Timeout else PositionMethodFailure))
  }

  /**
    The coordinates reported parse back to the ones stored, to half a milli-arcsecond, and the radius is the
    uncertainty stored, zero without one.
   */
  predicate Locates(area: Area, l: Location) {
    && l.latitude.Some? && l.longitude.Some? && Dmsh.Decode(area.x).Some? && Dmsh.Decode(area.y).Some?
    && -1.0 / 7200000.0 <= Dmsh.Decode(area.x).value - l.latitude.value <= 1.0 / 7200000.0
    && -1.0 / 7200000.0 <= Dmsh.Decode(area.y).value - l.longitude.value <= 1.0 / 7200000.0
    && match l.uncertainty
       case Some(u) => area.radius == u
       case None => area.radius == 0.0
  }

  /**
    Theorem: every position has a fix or an error and not both; it has a fix exactly for a request seen
    completed in time with both coordinates, and the fix is then where the result says.
   */
  lemma ExactlyOne(m: Msid, final: Reading, timedOut: bool)
    ensures var p := BuildPos(m, final, timedOut);
            && p.msid == m && (p.pd.Some? <==> p.posErr.None?)
            && (p.pd.Some? <==> !timedOut && final.Read? && final.state == Completed
                                && final.result.latitude.Some? && final.result.longitude.Some?)
            && (p.pd.Some? ==> Locates(p.pd.value, final.result))
            && (p.posErr == Some(Timeout) <==> timedOut)
  {
    if final.Read? && final.result.latitude.Some? && final.result.longitude.Some? {
      Dmsh.DecodeInvertsEncode(final.result.latitude.value, "N", "S");
      Dmsh.DecodeInvertsEncode(final.result.longitude.value, "E", "W");
    }
  }

  method ExtractTargets(msids: seq<Msid>) returns (targets: Option<seq<string>>)
    ensures targets.Some? <==> msids != [] && forall i :: 0 <= i < |msids| ==> msids[i].kind in {"", "MSISDN", "IMSI"}
    ensures targets.Some? ==> |targets.value| == |msids|
                              && forall i :: 0 <= i < |msids| ==>
                                   targets.value[i] ==
                                   (if msids[i].kind == "IMSI" then "imsi " else "msisdn ") + TrimSpace(msids[i].value)
    ensures targets.Some? <==> msids != [] && forall i :: 0 <= i < |msids| ==> TargetOf(msids[i]).Some?
    ensures targets.Some? ==> |targets.value| == |msids|
                              && forall i :: 0 <= i < |msids| ==> TargetOf(msids[i]) == Some(targets.value[i])
  {
    if |msids| == 0 {
      return None;
    }
    var out := new string[|msids|](_ => "");
    for i := 0 to |msids|
      invariant forall j :: 0 <= j < i ==> TargetOf(msids[j]) == Some(out[j])
    {
      var t := TargetOf(msids[i]);
      if t.None? {
        return None;
      }
      out[i] := t.value;
    }
    return Some(out[..]);
  }

  /** The times a request polled from t on is read at. */
  function Tick(t: int, j: nat): int {
    t + POLL * j
  }

  /** The first n polls were before the deadline and found nothing settled. */
  ghost predicate Waited(read: Reads, id: Id, t: int, deadline: int, n: nat) {
    forall j: nat :: j < n ==> Tick(t, j) < deadline && !read(id, Tick(t, j)).Settled()
  }

  /** Why a request was given up on at time t: the deadline was past, or the client left before the next poll. */
  predicate GivenUp(t: int, deadline: int, done: Option<int>) {
    t >= deadline || (done.Some? && done.value < t + 250_000_000)
  }

  datatype Reply = Refused | Positions(positions: seq<Position>)

  class Handler {
    const svc: Batch.Service
    const waitDefault: int
    const waitMax: int
    var clock: int

    constructor (svc: Batch.Service, waitDefault: int, waitMax: int, clock: int)
      ensures this.svc == svc && this.waitDefault == waitDefault && this.waitMax == waitMax && this.clock == clock
    {
      this.svc, this.waitDefault, this.waitMax, this.clock := svc, waitDefault, waitMax, clock;
    }

    /** How long to block: as the client asked, else the default, never more than the maximum. */
    function Wait(asked: int): (w: int)
      ensures w <= waitMax
      ensures 0 < asked <= waitMax ==> w == asked
      ensures asked <= 0 && waitDefault <= waitMax ==> w == waitDefault
    {
      var wait := if asked > 0 then asked else waitDefault;
      if wait > waitMax then waitMax else wait
    }

    /**
      Returns what the first poll to find the request settled read. Without that it gives up at the first
      poll at or after the deadline, or when the client goes away, never earlier.
     */
    method AwaitTerminal(id: Id, deadline: int, read: Reads, done: Option<int>)
      returns (final: Reading, timedOut: bool, ghost polls: nat)
      modifies this`clock
      ensures old(clock) <= clock && (clock == old(clock) || clock < deadline + POLL)
      ensures Waited(read, id, old(clock), deadline, polls)
      ensures !timedOut ==> clock == Tick(old(clock), polls)
      ensures final == read(id, Tick(old(clock), polls)) && (timedOut <==> !final.Settled())
      ensures old(clock) <= Tick(old(clock), polls) <= clock
      ensures timedOut && Tick(old(clock), polls) < deadline ==>
                done.Some? && done.value < Tick(old(clock), polls) + POLL
    {
      polls := 0;
      while true
        invariant clock == Tick(old(clock), polls) && (polls == 0 || clock < deadline + POLL)
        invariant Waited(read, id, old(clock), deadline, polls)
        decreases deadline + POLL - clock
      {
        final := read(id, clock);
        if final.Settled() {
          return final, false, polls;
        }
        if clock >= deadline {
          return final, true, polls;
        }
        if done.Some? && done.value < clock + POLL {
          clock := if done.value < clock then clock else done.value;
          return final, true, polls;
        }
        clock := clock + POLL;
        polls := polls + 1;
      }
    }

    /** Submit for one target, SubmitBatch for several; no callback either way, under a key nobody has used. */
    method SubmitAll(client: string, key: string, targets: seq<string>, prepared: bool, valid: string -> bool,
                     authorized: string -> bool)
      returns (ok: bool, reqs: seq<Id>)
      requires targets != [] && svc.Valid() && Unused(svc.first, client, key, |targets|)
      modifies svc, svc.store
      ensures svc.Valid() && Batch.Grew(old(svc.Now()), svc.Now())
      ensures ok ==> |reqs| == |targets|
      ensures ok ==> forall i :: 0 <= i < |reqs| ==> MadeFor(svc.Now(), client, key, |targets|, i, targets[i], reqs[i])
    {
      var b := Batch.Submission(client, key, targets, false, true, prepared);
      svc.reserved := KeysFor(client, key, |targets|);
      if |targets| == 1 {
        var verdict, id, new', sub := svc.Submit(b, valid, authorized);
        return verdict == Batch.Accepted, [id];
      }
      assert Batch.FreshKeys(b, svc.reserved, svc.first, 0) by { KeysAreFresh(b, svc.first); }
      var verdict, ids, news, sub, lost := svc.SubmitBatch(b, valid, authorized);
      ok, reqs := verdict == Batch.Accepted, ids;
      if ok {
        forall i | 0 <= i < |reqs| ensures MadeFor(svc.Now(), client, key, |targets|, i, targets[i], reqs[i]) {
          assert Batch.Answered(old(svc.Now()), svc.Now(), b, i, reqs[i], news[i], sub);
        }
      }
    }

    /**
      resolveImmediate. accepted is whether the location type, coordinate system and quality of position
      were; asked is the response time wanted, zero if none; key is the random one drawn for the call. The
      ghost results say which request each position comes from, when it was last read, and whether it was
      given up on.
     */
    method Resolve(client: string, key: string, msids: seq<Msid>, accepted: bool, asked: int, prepared: bool,
                   valid: string -> bool, authorized: string -> bool, read: Reads, done: Option<int>)
      returns (r: Reply, ghost reqs: seq<Id>, ghost times: seq<int>, ghost late: seq<bool>)
      requires svc.Valid() && Unused(svc.first, client, key, |msids|)
      modifies this`clock, svc, svc.store
      ensures svc.Valid() && Batch.Grew(old(svc.Now()), svc.Now())
      ensures old(clock) <= clock && (clock == old(clock) || clock < old(clock) + Wait(asked) + POLL)
      ensures var limit := if 0 < asked <= waitMax then asked
                           else if asked <= 0 && waitDefault <= waitMax then waitDefault
                           else waitMax;
              && (clock == old(clock) || clock < old(clock) + limit + 250_000_000)
              && (r.Positions? ==>
                    && |late| == |times| == |msids|
                    && forall i :: 0 <= i < |late| && late[i] ==> GivenUp(times[i], old(clock) + limit, done))
      ensures msids == [] || (exists m :: m in msids && m.kind !in {"", "MSISDN", "IMSI"}) || !accepted ==>
        r == Refused && svc.Now() == old(svc.Now()) && clock == old(clock)
      ensures r.Positions? ==>
        && |r.positions| == |reqs| == |times| == |late| == |msids|
        && forall i :: 0 <= i < |msids| ==>
             && TargetOf(msids[i]).Some?
             && MadeFor(svc.Now(), client, key, |msids|, i, TargetOf(msids[i]).value, reqs[i])
             && ReportedFrom(r.positions[i], msids[i], read(reqs[i], times[i]), late[i])
             && old(clock) <= times[i] <= clock
    {
      reqs, times, late := [], [], [];
      var targets := ExtractTargets(msids);
      if targets.None? || !accepted {
        return Refused, reqs, times, late;
      }
      var ok, ids := SubmitAll(client, key, targets.value, prepared, valid, authorized);
      if !ok {
        return Refused, reqs, times, late;
      }
      reqs := ids;
      var positions: seq<Position>;
      positions, times, late := AwaitAll(msids, ids, clock + Wait(asked), read, done);
      r := Positions(positions);
    }

    method AwaitAll(msids: seq<Msid>, reqs: seq<Id>, deadline: int, read: Reads, done: Option<int>)
      returns (positions: seq<Position>, ghost times: seq<int>, ghost late: seq<bool>)
      requires |reqs| == |msids|
      modifies this`clock
      ensures old(clock) <= clock && (clock == old(clock) || clock < deadline + POLL)
      ensures |positions| == |times| == |late| == |msids|
      ensures forall i :: 0 <= i < |msids| ==>
        ReportedFrom(positions[i], msids[i], read(reqs[i], times[i]), late[i]) && old(clock) <= times[i] <= clock
      ensures forall i :: 0 <= i < |late| && late[i] ==> GivenUp(times[i], deadline, done)
    {
      var out := new Position[|reqs|](_ => Position(Msid("", ""), None, None));
      times, late := [], [];
      for i := 0 to |reqs|
        invariant old(clock) <= clock && (clock == old(clock) || clock < deadline + POLL)
        invariant |times| == |late| == i
        invariant forall j :: 0 <= j < i ==>
          ReportedFrom(out[j], msids[j], read(reqs[j], times[j]), late[j]) && old(clock) <= times[j] <= clock
        invariant forall j :: 0 <= j < i && late[j] ==> GivenUp(times[j], deadline, done)
      {
        ghost var begun := clock;
        var final, timedOut, polls := AwaitTerminal(reqs[i], deadline, read, done);
        out[i] := BuildPos(msids[i], final, timedOut);
        ExactlyOne(msids[i], final, timedOut);
        times, late := times + [Tick(begun, polls)], late + [timedOut];
      }
      positions := out[..];
    }
  }

  function KeyFor(client: string, key: string, count: nat, i: nat): Batch.Key {
    (client, if count == 1 then key else Batch.BatchKey(key, i))
  }

  function KeysFor(client: string, key: string, count: nat): set<Batch.Key> {
    set i: nat | i < count :: KeyFor(client, key, count, i)
  }

  /** No request has been created under the call's keys: the key is a fresh random one. */
  ghost predicate Unused(first: map<Batch.Key, Id>, client: string, key: string, count: nat) {
    forall i: nat :: i < count ==> KeyFor(client, key, count, i) !in first
  }

  lemma KeysAreFresh(b: Batch.Submission, first: map<Batch.Key, Id>)
    requires |b.targets| != 1 && Unused(first, b.client, b.key, |b.targets|)
    ensures Batch.FreshKeys(b, KeysFor(b.client, b.key, |b.targets|), first, 0)
  {
    forall j: nat | j < |b.targets|
      ensures var k := (b.client, Batch.BatchKey(b.key, j)); k in KeysFor(b.client, b.key, |b.targets|) && k !in first
    {
      assert KeyFor(b.client, b.key, |b.targets|, j) == (b.client, Batch.BatchKey(b.key, j));
    }
  }

  /** id is the one request of position i: created under the call's key for it, for this target. */
  ghost predicate MadeFor(s: Batch.Shared, client: string, key: string, count: nat, i: nat, target: string, id: Id) {
    Batch.RowUnder(s, client, KeyFor(client, key, count, i).1, id) && id in s.rows && s.rows[id].target == target
  }

  /** A position for a subscriber, with exactly one of fix and error, saying what was read of the request. */
  ghost predicate ReportedFrom(p: Position, m: Msid, seen: Reading, late: bool) {
    && p == BuildPos(m, seen, late) && p.msid == m && (late <==> !seen.Settled())
    && (p.pd.Some? <==> p.posErr.None?) && (p.pd.Some? ==> seen.Read? && Locates(p.pd.value, seen.result))
  }
}
