/** The routing table: one capability per connection manager, guarded by connection generations. */
module PeerTable {
  import opened Domain
  import opened Text

  /** A manager's identity. */
  type ManagerId = nat

  datatype Capability = Capability(originHost: string, originRealm: string, generation: nat, ready: bool, relay: bool,
                                   applications: set<nat>)

  datatype Peer = Peer(manager: ManagerId, capability: Capability)

  datatype RouteRequest = RouteRequest(application: nat, host: string, realm: string)

  // ---- name normalisation -------------------------------------------------------------------

  function TrimDot(s: string): string {
    if s != "" && s[|s| - 1] == '.' then s[..|s| - 1] else s
  }

  function Lower(s: string): string {
    seq(|s|, i requires 0 <= i < |s| => if 'A' <= s[i] <= 'Z' then (s[i] as int + 32) as char else s[i])
  }

  function Norm(s: string): string { Lower(TrimDot(TrimSpace(s))) }

  /** The same letter, but for ASCII case. */
  predicate SameLetter(c: char, d: char) {
    || c == d
    || ('A' <= c <= 'Z' && d as int == c as int + 32)
    || ('A' <= d <= 'Z' && c as int == d as int + 32)
  }

  predicate SameLetters(x: string, y: string) {
    |x| == |y| && forall i :: 0 <= i < |x| ==> SameLetter(x[i], y[i])
  }

  /** s without surrounding white space and, if there is one, a final dot. */
  ghost predicate BareName(s: string, t: string) {
    (Trimmed(s, t) && (t == "" || t[|t| - 1] != '.')) || Trimmed(s, t + ".")
  }

  /** The two names are the same but for surrounding white space, a final dot and ASCII case. */
  ghost predicate SameName(a: string, b: string) {
    exists x, y :: BareName(a, x) && BareName(b, y) && SameLetters(x, y)
  }

  lemma BareNameExact(s: string, t: string)
    ensures BareName(s, t) <==> t == TrimDot(TrimSpace(s))
  {
    TrimSpaceExact(s, t);
    TrimSpaceExact(s, t + ".");
    var u := TrimSpace(s);
    assert (t + ".")[..|t|] == t;
    if t == TrimDot(u) && u != "" && u[|u| - 1] == '.' {
      assert u == t + ".";
    }
  }

  lemma LowerExact(x: string, y: string)
    ensures Lower(x) == Lower(y) <==> SameLetters(x, y)
  {
    if Lower(x) == Lower(y) {
      forall i | 0 <= i < |x| ensures SameLetter(x[i], y[i]) {
        assert Lower(x)[i] == Lower(y)[i];
      }
    }
  }

  /** Theorem: normalised names are equal exactly when the names are the same in that sense. */
  lemma NormExact(a: string, b: string)
    ensures Norm(a) == Norm(b) <==> SameName(a, b)
  {
    var x, y := TrimDot(TrimSpace(a)), TrimDot(TrimSpace(b));
    BareNameExact(a, x);
    BareNameExact(b, y);
    LowerExact(x, y);
    if SameName(a, b) {
      var u, v :| BareName(a, u) && BareName(b, v) && SameLetters(u, v);
      BareNameExact(a, u);
      BareNameExact(b, v);
    }
  }

  // ---- updates ------------------------------------------------------------------------------

  function Upserted(ps: seq<Peer>, m: ManagerId, c: Capability): seq<Peer> {
    if ps == [] then [Peer(m, c)]
    else if ps[0].manager != m then [ps[0]] + Upserted(ps[1..], m, c)
    else if ps[0].capability.generation > c.generation then ps
    else [Peer(m, c)] + ps[1..]
  }

  function Withdrawn(c: Capability): Capability {
    c.(ready := false, applications := {})
  }

  function Removed(ps: seq<Peer>, m: ManagerId, g: nat): seq<Peer> {
    if ps == [] then []
    else if ps[0].manager != m then [ps[0]] + Removed(ps[1..], m, g)
    else if ps[0].capability.generation != g then ps
    else [ps[0].(capability := Withdrawn(ps[0].capability))] + Removed(ps[1..], m, g)
  }

  ghost predicate Unique(ps: seq<Peer>) {
    forall i, j :: 0 <= i < j < |ps| ==> ps[i].manager != ps[j].manager
  }

  predicate Listed(ps: seq<Peer>, m: ManagerId) {
    exists i :: 0 <= i < |ps| && ps[i].manager == m
  }

  /** What the table holds for m. */
  function EntryOf(ps: seq<Peer>, m: ManagerId): Option<Capability> {
    if ps == [] then None
    else if ps[0].manager == m then Some(ps[0].capability)
    else EntryOf(ps[1..], m)
  }

  lemma {:induction false} EntryIsListed(ps: seq<Peer>, m: ManagerId)
    ensures EntryOf(ps, m).Some? <==> Listed(ps, m)
    ensures Unique(ps) ==> forall i :: 0 <= i < |ps| ==> EntryOf(ps, ps[i].manager) == Some(ps[i].capability)
  {
    if ps != [] {
      EntryIsListed(ps[1..], m);
      if Listed(ps[1..], m) {
        var i :| 0 <= i < |ps[1..]| && ps[1..][i].manager == m;
        assert ps[i + 1].manager == m;
      }
      if Listed(ps, m) && ps[0].manager != m {
        var i :| 0 <= i < |ps| && ps[i].manager == m;
        assert ps[1..][i - 1].manager == m;
      }
      if Unique(ps) {
        forall i | 0 <= i < |ps| ensures EntryOf(ps, ps[i].manager) == Some(ps[i].capability) {
          if i > 0 { assert ps[i] == ps[1..][i - 1]; }
        }
      }
    }
  }

  /** One announcement's or withdrawal's effect on the entry it is about. */
  function AfterUpsert(e: Option<Capability>, c: Capability): Option<Capability> {
    if e.Some? && e.value.generation > c.generation then e else Some(c)
  }

  function AfterRemove(e: Option<Capability>, g: nat): Option<Capability> {
    if e.Some? && e.value.generation == g then Some(Withdrawn(e.value)) else e
  }

  lemma {:induction false} UpsertedEntries(ps: seq<Peer>, m: ManagerId, c: Capability, n: ManagerId)
    ensures EntryOf(Upserted(ps, m, c), n) == if n == m then AfterUpsert(EntryOf(ps, m), c) else EntryOf(ps, n)
    ensures |Upserted(ps, m, c)| == |ps| + (if Listed(ps, m) then 0 else 1)
    ensures forall i :: 0 <= i < |ps| ==> Upserted(ps, m, c)[i].manager == ps[i].manager
    ensures !Listed(ps, m) ==> Upserted(ps, m, c) == ps + [Peer(m, c)]
  {
    EntryIsListed(ps, m);
    if ps != [] && ps[0].manager != m {
      UpsertedEntries(ps[1..], m, c, n);
      EntryIsListed(ps[1..], m);
      var u := Upserted(ps, m, c);
      forall i | 0 <= i < |ps| ensures u[i].manager == ps[i].manager {
        if i > 0 { assert u[i] == Upserted(ps[1..], m, c)[i - 1]; }
      }
    } else if ps != [] {
      assert Listed(ps, m);
    }
  }

  lemma {:induction false} RemovedEntries(ps: seq<Peer>, m: ManagerId, g: nat, n: ManagerId)
    ensures |Removed(ps, m, g)| == |ps|
    ensures forall i :: 0 <= i < |ps| ==> Removed(ps, m, g)[i].manager == ps[i].manager
    ensures EntryOf(Removed(ps, m, g), n) == if n == m then AfterRemove(EntryOf(ps, m), g) else EntryOf(ps, n)
  {
    if ps != [] && !(ps[0].manager == m && ps[0].capability.generation != g) {
      RemovedEntries(ps[1..], m, g, n);
      var r := Removed(ps, m, g);
      forall i | 0 <= i < |ps| ensures r[i].manager == ps[i].manager {
        if i > 0 { assert r[i] == Removed(ps[1..], m, g)[i - 1]; }
      }
    }
  }

  /** Both updates keep one entry per manager. */
  lemma UpdatesKeepUnique(ps: seq<Peer>, m: ManagerId, c: Capability, g: nat)
    requires Unique(ps)
    ensures Unique(Upserted(ps, m, c)) && Unique(Removed(ps, m, g))
  {
    UpsertedEntries(ps, m, c, m);
    RemovedEntries(ps, m, g, m);
    assert !Listed(ps, m) ==> forall i :: 0 <= i < |ps| ==> ps[i].manager != m;
  }

  // ---- generations converge -----------------------------------------------------------------

  datatype Event = Announce(m: ManagerId, c: Capability) | Withdraw(m: ManagerId, g: nat)

  /** The table after a sequence of callback events. */
  function Table(events: seq<Event>): seq<Peer> {
    if events == [] then []
    else
      var e, before := events[|events| - 1], Table(events[..|events| - 1]);
      match e
      case Announce(m, c) => Upserted(before, m, c)
      case Withdraw(m, g) => Removed(before, m, g)
  }

  lemma {:induction false} TableUnique(events: seq<Event>)
    ensures Unique(Table(events))
  {
    if events != [] {
      var e, before := events[|events| - 1], events[..|events| - 1];
      TableUnique(before);
      match e
      case Announce(m, c) => UpdatesKeepUnique(Table(before), m, c, 0);
      case Withdraw(m, g) => UpdatesKeepUnique(Table(before), m, Capability("", "", 0, false, false, {}), g);
    }
  }

  /** c is m's newest announcement: every other announcement of m is older, or says the same. */
  ghost predicate Newest(events: seq<Event>, m: ManagerId, c: Capability) {
    && c.ready
    && (forall i :: 0 <= i < |events| && events[i].Announce? && events[i].m == m ==>
          events[i].c.generation < c.generation || events[i].c == c)
  }

  /** c was announced for m and that announcement was not withdrawn afterwards. */
  ghost predicate Standing(events: seq<Event>, m: ManagerId, c: Capability) {
    exists i :: 0 <= i < |events| && events[i] == Announce(m, c)
                && forall j :: i < j < |events| ==> events[j] != Withdraw(m, c.generation)
  }

  /**
    Theorem: whatever the order and interleaving of the events, the table ends with the newest generation's
    capability, ready, if and only if that announcement arrived and no withdrawal of its generation came after it.
    Older announcements and withdrawals, early or late, do not matter.
   */
  lemma {:induction false} NewestGenerationWins(events: seq<Event>, m: ManagerId, c: Capability)
    requires Newest(events, m, c)
    ensures EntryOf(Table(events), m) == Some(c) <==> Standing(events, m, c)
    ensures EntryOf(Table(events), m).Some? ==> EntryOf(Table(events), m).value.generation <= c.generation
    ensures EntryOf(Table(events), m).Some? && EntryOf(Table(events), m).value.generation == c.generation ==>
              EntryOf(Table(events), m).value == c || EntryOf(Table(events), m).value == Withdrawn(c)
  {
    if events != [] {
      var n := |events| - 1;
      var e, before := events[n], events[..n];
      NewestGenerationWins(before, m, c);
      match e
      case Announce(k, d) =>
        UpsertedEntries(Table(before), k, d, m);
        StandingGrows(before, e, m, c);
        assert events == before + [e];
      case Withdraw(k, g) =>
        RemovedEntries(Table(before), k, g, m);
        StandingGrows(before, e, m, c);
        assert events == before + [e];
    }
  }

  lemma StandingGrows(before: seq<Event>, e: Event, m: ManagerId, c: Capability)
    ensures Standing(before + [e], m, c) <==>
            e == Announce(m, c) || (Standing(before, m, c) && e != Withdraw(m, c.generation))
  {
    var events := before + [e];
    if e == Announce(m, c) {
      assert events[|before|] == Announce(m, c);
    } else if Standing(before, m, c) && e != Withdraw(m, c.generation) {
      var i :| 0 <= i < |before| && before[i] == Announce(m, c)
               && forall j :: i < j < |before| ==> before[j] != Withdraw(m, c.generation);
      assert events[i] == Announce(m, c);
    }
    if Standing(events, m, c) && e != Announce(m, c) {
      var i :| 0 <= i < |events| && events[i] == Announce(m, c)
               && forall j :: i < j < |events| ==> events[j] != Withdraw(m, c.generation);
      assert before[i] == Announce(m, c);
      assert forall j :: i < j < |before| ==> before[j] == events[j];
      assert events[|before|] == e;
    }
  }

  // ---- selection ----------------------------------------------------------------------------

  /** Usable at all: announced ready, and its manager reports ready (up holds the managers that do). */
  predicate Usable(p: Peer, up: set<ManagerId>) {
    p.capability.ready && p.manager in up
  }

  /** Peers that serve the application themselves. */
  predicate Direct(p: Peer, r: RouteRequest, up: set<ManagerId>) {
    Usable(p, up) && !p.capability.relay && r.application in p.capability.applications
  }

  /** The four tiers of preference: exact host, same realm, any direct peer for an undirected request, relay. */
  predicate InTier(t: nat, p: Peer, r: RouteRequest, up: set<ManagerId>) {
    match t
    case 0 => Direct(p, r, up) && r.host != "" && Norm(p.capability.originHost) == Norm(r.host)
    case 1 => Direct(p, r, up) && r.realm != "" && Norm(p.capability.originRealm) == Norm(r.realm)
    case 2 => Direct(p, r, up) && r.host == "" && r.realm == ""
    case 3 => Usable(p, up) && p.capability.relay
    case _ => false
  }

  /** ps[i] is the first peer of the best tier that has any. */
  ghost predicate Preferred(ps: seq<Peer>, r: RouteRequest, up: set<ManagerId>, i: nat, t: nat) {
    && t < 4 && i < |ps| && InTier(t, ps[i], r, up)
    && (forall j :: 0 <= j < i ==> !InTier(t, ps[j], r, up))
    && (forall u, j :: 0 <= u < t && 0 <= j < |ps| ==> !InTier(u, ps[j], r, up))
  }

  ghost predicate Unroutable(ps: seq<Peer>, r: RouteRequest, up: set<ManagerId>) {
    forall t, j :: 0 <= t < 4 && 0 <= j < |ps| ==> !InTier(t, ps[j], r, up)
  }

  /** Peers of tier t among ps, in table order. */
  function OfTier(ps: seq<Peer>, t: nat, r: RouteRequest, up: set<ManagerId>): seq<Peer> {
    if ps == [] then []
    else
      var p, before := ps[|ps| - 1], OfTier(ps[..|ps| - 1], t, r, up);
      if InTier(t, p, r, up) then before + [p] else before
  }

  lemma {:induction false} OfTierFirst(ps: seq<Peer>, t: nat, r: RouteRequest, up: set<ManagerId>) returns (i: nat)
    ensures OfTier(ps, t, r, up) == [] ==> forall j :: 0 <= j < |ps| ==> !InTier(t, ps[j], r, up)
    ensures OfTier(ps, t, r, up) != [] ==>
              && i < |ps| && ps[i] == OfTier(ps, t, r, up)[0] && InTier(t, ps[i], r, up)
              && forall j :: 0 <= j < i ==> !InTier(t, ps[j], r, up)
  {
    i := 0;
    if ps != [] {
      i := OfTierFirst(ps[..|ps| - 1], t, r, up);
      if OfTier(ps[..|ps| - 1], t, r, up) == [] { i := |ps| - 1; }
    }
  }

  /** Theorem: any route at all for an application means the table is ready for that application. */
  lemma RouteImpliesReady(ps: seq<Peer>, r: RouteRequest, up: set<ManagerId>, i: nat, t: nat)
    requires Preferred(ps, r, up, i, t)
    ensures !Unroutable(ps, RouteRequest(r.application, "", ""), up)
  {
    var undirected := RouteRequest(r.application, "", "");
    assert InTier(if t == 3 then 3 else 2, ps[i], undirected, up);
  }

  /** A ready peer that serves the application itself and is of the host asked for. */
  ghost predicate HostMatches(p: Peer, r: RouteRequest, up: set<ManagerId>) {
    && p.capability.ready && p.manager in up && !p.capability.relay && r.application in p.capability.applications
    && r.host != "" && SameName(p.capability.originHost, r.host)
  }

  /** The same for the realm asked for. */
  ghost predicate RealmMatches(p: Peer, r: RouteRequest, up: set<ManagerId>) {
    && p.capability.ready && p.manager in up && !p.capability.relay && r.application in p.capability.applications
    && r.realm != "" && SameName(p.capability.originRealm, r.realm)
  }

  lemma TiersMean(p: Peer, r: RouteRequest, up: set<ManagerId>)
    ensures InTier(0, p, r, up) <==> HostMatches(p, r, up)
    ensures InTier(1, p, r, up) <==> RealmMatches(p, r, up)
  {
    NormExact(p.capability.originHost, r.host);
    NormExact(p.capability.originRealm, r.realm);
  }

  /** Theorem: the preferred peer is the first of the host asked for, if any is; else the first of the realm. */
  lemma HostThenRealm(ps: seq<Peer>, r: RouteRequest, up: set<ManagerId>, i: nat, t: nat)
    requires Preferred(ps, r, up, i, t)
    ensures (exists j :: 0 <= j < |ps| && HostMatches(ps[j], r, up)) ==>
              HostMatches(ps[i], r, up) && forall j :: 0 <= j < i ==> !HostMatches(ps[j], r, up)
    ensures (forall j :: 0 <= j < |ps| ==> !HostMatches(ps[j], r, up))
            && (exists j :: 0 <= j < |ps| && RealmMatches(ps[j], r, up)) ==>
              RealmMatches(ps[i], r, up) && forall j :: 0 <= j < i ==> !RealmMatches(ps[j], r, up)
  {
    forall j | 0 <= j < |ps|
      ensures InTier(0, ps[j], r, up) <==> HostMatches(ps[j], r, up)
      ensures InTier(1, ps[j], r, up) <==> RealmMatches(ps[j], r, up)
    {
      TiersMean(ps[j], r, up);
    }
  }

  /** Theorem: and else it is the first direct peer, if the request names neither host nor realm, or the first relay. */
  lemma ThenDirectThenRelay(ps: seq<Peer>, r: RouteRequest, up: set<ManagerId>, i: nat, t: nat)
    requires Preferred(ps, r, up, i, t)
    requires forall j :: 0 <= j < |ps| ==> !HostMatches(ps[j], r, up) && !RealmMatches(ps[j], r, up)
    ensures ps[i].capability.ready && ps[i].manager in up
    ensures !ps[i].capability.relay ==> r.host == "" && r.realm == "" && r.application in ps[i].capability.applications
    ensures forall j :: 0 <= j < i && ps[j].capability.ready && ps[j].manager in up && ps[j].capability.relay ==>
              !ps[i].capability.relay
    ensures r.host == "" && r.realm == "" ==>
              forall j :: (&& 0 <= j < |ps| && ps[j].capability.ready && ps[j].manager in up && !ps[j].capability.relay
                           && r.application in ps[j].capability.applications) ==> !ps[i].capability.relay && i <= j
  {
    forall j | 0 <= j < |ps| ensures !InTier(0, ps[j], r, up) && !InTier(1, ps[j], r, up) {
      TiersMean(ps[j], r, up);
    }
    forall j | 0 <= j < |ps| && ps[j].capability.ready && ps[j].manager in up && ps[j].capability.relay
      ensures InTier(3, ps[j], r, up)
    {
    }
    if r.host == "" && r.realm == "" {
      forall j | 0 <= j < |ps| && ps[j].capability.ready && ps[j].manager in up && !ps[j].capability.relay
                 && r.application in ps[j].capability.applications
        ensures InTier(2, ps[j], r, up)
      {
      }
    }
  }

  lemma {:induction false} UpsertedAt(ps: seq<Peer>, i: nat, m: ManagerId, c: Capability)
    requires i < |ps| && ps[i].manager == m && forall j :: 0 <= j < i ==> ps[j].manager != m
    ensures Upserted(ps, m, c) == if ps[i].capability.generation > c.generation then ps else ps[i := Peer(m, c)]
  {
    if i > 0 {
      UpsertedAt(ps[1..], i - 1, m, c);
      assert ps == [ps[0]] + ps[1..];
    }
  }

  /** None of the first i entries is m's. */
  ghost predicate NotAmong(ps: seq<Peer>, i: nat, m: ManagerId) {
    i <= |ps| && forall j :: 0 <= j < i ==> ps[j].manager != m
  }

  ghost predicate FirstListed(ps: seq<Peer>, m: ManagerId, i: nat) {
    i < |ps| && ps[i].manager == m && NotAmong(ps, i, m)
  }

  /** A manager not listed goes last; a listed one's entry is replaced unless it is of a newer generation. */
  ghost predicate Announced(was: seq<Peer>, now: seq<Peer>, m: ManagerId, c: Capability) {
    && (NotAmong(was, |was|, m) ==> now == was + [Peer(m, c)])
    && forall i: nat :: FirstListed(was, m, i) ==>
         now == if was[i].capability.generation > c.generation then was else was[i := Peer(m, c)]
  }

  lemma UpsertedPositions(ps: seq<Peer>, m: ManagerId, c: Capability)
    ensures Announced(ps, Upserted(ps, m, c), m, c)
  {
    forall i: nat | FirstListed(ps, m, i)
      ensures Upserted(ps, m, c) == if ps[i].capability.generation > c.generation then ps else ps[i := Peer(m, c)]
    {
      UpsertedAt(ps, i, m, c);
    }
    UpsertedEntries(ps, m, c, m);
  }

  /** A withdrawal entry by entry. */
  lemma {:induction false} RemovedPositions(ps: seq<Peer>, m: ManagerId, g: nat)
    ensures var qs := Removed(ps, m, g);
            && |qs| == |ps|
            && (forall i :: 0 <= i < |ps| && (ps[i].manager != m || ps[i].capability.generation != g) ==>
                  qs[i] == ps[i])
            && (forall i :: (&& 0 <= i < |ps| && ps[i].manager == m && ps[i].capability.generation == g
                             && forall j :: 0 <= j < i ==> ps[j].manager != m) ==>
                  qs[i] == Peer(m, ps[i].capability.(ready := false, applications := {})))
  {
    if ps != [] && !(ps[0].manager == m && ps[0].capability.generation != g) {
      RemovedPositions(ps[1..], m, g);
      var qs, rest := Removed(ps, m, g), Removed(ps[1..], m, g);
      assert forall i :: 0 < i < |ps| ==> qs[i] == rest[i - 1] && ps[i] == ps[1..][i - 1];
    }
  }

  /** The first i entries are done, and doing the rest completes the withdrawal. */
  ghost predicate PartlyRemoved(was: seq<Peer>, now: seq<Peer>, i: nat, m: ManagerId, g: nat) {
    && i <= |was| == |now| && now[i..] == was[i..]
    && Removed(was, m, g) == now[..i] + Removed(was[i..], m, g)
  }

  lemma RemovedNext(was: seq<Peer>, now: seq<Peer>, i: nat, m: ManagerId, g: nat)
    requires i < |was| && PartlyRemoved(was, now, i, m, g)
    ensures now[i] == was[i]
    ensures now[i].manager != m ==> PartlyRemoved(was, now, i + 1, m, g)
    ensures now[i].manager == m && now[i].capability.generation != g ==> Removed(was, m, g) == now
    ensures now[i].manager == m && now[i].capability.generation == g ==>
              PartlyRemoved(was, now[i := now[i].(capability := Withdrawn(now[i].capability))], i + 1, m, g)
  {
    assert was[i..][1..] == was[i + 1..] && now[i..][0] == now[i] && now[i..][1..] == now[i + 1..];
    assert now[..i + 1] == now[..i] + [now[i]];
  }

  class PeerTable {
    var peers: seq<Peer>

    constructor ()
      ensures peers == []
    {
      peers := [];
    }

    method Upsert(m: ManagerId, c: Capability)
      modifies this
      ensures peers == Upserted(old(peers), m, c) && Announced(old(peers), peers, m, c)
    {
      for i := 0 to |peers|
        invariant peers == old(peers) && NotAmong(peers, i, m)
      {
        if peers[i].manager == m {
          UpsertedAt(peers, i, m, c);
          UpsertedPositions(peers, m, c);
          if peers[i].capability.generation > c.generation {
            return;
          }
          peers := peers[i := Peer(m, c)];
          return;
        }
      }
      UpsertedPositions(peers, m, c);
      peers := peers + [Peer(m, c)];
    }

    method Remove(m: ManagerId, g: nat)
      modifies this
      ensures peers == Removed(old(peers), m, g)
      ensures |peers| == |old(peers)|
      ensures forall i :: 0 <= i < |old(peers)| && old(peers)[i].manager != m ==> peers[i] == old(peers)[i]
      ensures forall i :: 0 <= i < |old(peers)| && old(peers)[i].capability.generation != g ==>
                peers[i] == old(peers)[i]
      ensures forall i: nat :: FirstListed(old(peers), m, i) && old(peers)[i].capability.generation == g ==>
                peers[i] == Peer(m, old(peers)[i].capability.(ready := false, applications := {}))
    {
      ghost var was := peers;
      RemovedPositions(was, m, g);
      for i := 0 to |peers|
        invariant |peers| == |was| && PartlyRemoved(was, peers, i, m, g)
      {
        RemovedNext(was, peers, i, m, g);
        if peers[i].manager == m {
          if peers[i].capability.generation != g {
            return;
          }
          peers := peers[i := peers[i].(capability := Withdrawn(peers[i].capability))];
        }
      }
      assert peers[..|peers|] == peers;
    }

    /** Select: one pass collecting the four tiers, then the first peer of the best. */
    method Select(r: RouteRequest, up: set<ManagerId>) returns (chosen: Option<ManagerId>)
      ensures chosen.Some? ==>
                exists i: nat, t: nat :: Preferred(peers, r, up, i, t) && chosen.value == peers[i].manager
      ensures chosen.None? <==> Unroutable(peers, r, up)
      ensures (exists j :: 0 <= j < |peers| && HostMatches(peers[j], r, up)) ==>
                exists i :: && 0 <= i < |peers| && chosen == Some(peers[i].manager) && HostMatches(peers[i], r, up)
                            && forall j :: 0 <= j < i ==> !HostMatches(peers[j], r, up)
      ensures (forall j :: 0 <= j < |peers| ==> !HostMatches(peers[j], r, up))
              && (exists j :: 0 <= j < |peers| && RealmMatches(peers[j], r, up)) ==>
                exists i :: && 0 <= i < |peers| && chosen == Some(peers[i].manager) && RealmMatches(peers[i], r, up)
                            && forall j :: 0 <= j < i ==> !RealmMatches(peers[j], r, up)
    {
      ghost var i: nat, t: nat;
      chosen, i, t := SelectTier(r, up);
      if chosen.Some? {
        HostThenRealm(peers, r, up, i, t);
      } else {
        forall j | 0 <= j < |peers| ensures !HostMatches(peers[j], r, up) && !RealmMatches(peers[j], r, up) {
          assert !InTier(0, peers[j], r, up) && !InTier(1, peers[j], r, up);
          TiersMean(peers[j], r, up);
        }
      }
    }

    /** The pass itself, with where the choice was made. */
    method SelectTier(r: RouteRequest, up: set<ManagerId>)
      returns (chosen: Option<ManagerId>, ghost i: nat, ghost t: nat)
      ensures chosen.Some? ==> Preferred(peers, r, up, i, t) && chosen.value == peers[i].manager
      ensures chosen.None? <==> Unroutable(peers, r, up)
    {
      var exactHost, realmDirect, anyDirect, relay := [], [], [], [];
      for k := 0 to |peers|
        invariant exactHost == OfTier(peers[..k], 0, r, up)
        invariant realmDirect == OfTier(peers[..k], 1, r, up)
        invariant r.host == "" && r.realm == "" ==> anyDirect == OfTier(peers[..k], 2, r, up)
        invariant relay == OfTier(peers[..k], 3, r, up)
      {
        var x := peers[k];
        assert peers[..k + 1][..k] == peers[..k];
        if !x.capability.ready || x.manager !in up {
          continue;
        }
        if x.capability.relay {
          relay := relay + [x];
          continue;
        }
        if r.application !in x.capability.applications {
          continue;
        }
        anyDirect := anyDirect + [x];
        if r.host != "" && Norm(x.capability.originHost) == Norm(r.host) {
          exactHost := exactHost + [x];
        }
        if r.realm != "" && Norm(x.capability.originRealm) == Norm(r.realm) {
          realmDirect := realmDirect + [x];
        }
      }
      assert peers[..|peers|] == peers;
      ghost var i0 := OfTierFirst(peers, 0, r, up);
      ghost var i1 := OfTierFirst(peers, 1, r, up);
      ghost var i2 := OfTierFirst(peers, 2, r, up);
      ghost var i3 := OfTierFirst(peers, 3, r, up);
      if |exactHost| > 0 {
        assert Preferred(peers, r, up, i0, 0);
        return Some(exactHost[0].manager), i0, 0;
      }
      if |realmDirect| > 0 {
        assert Preferred(peers, r, up, i1, 1);
        return Some(realmDirect[0].manager), i1, 1;
      }
      if r.host == "" && r.realm == "" && |anyDirect| > 0 {
        assert Preferred(peers, r, up, i2, 2);
        return Some(anyDirect[0].manager), i2, 2;
      }
      if |relay| > 0 {
        assert Preferred(peers, r, up, i3, 3);
        return Some(relay[0].manager), i3, 3;
      }
      return None, 0, 0;
    }

    method ReadyFor(application: nat, up: set<ManagerId>) returns (ready: bool)
      ensures ready <==> !Unroutable(peers, RouteRequest(application, "", ""), up)
    {
      var chosen := Select(RouteRequest(application, "", ""), up);
      ready := chosen.Some?;
    }
  }
}
