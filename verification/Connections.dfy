/**
  Connection managers and the routing table they publish into, as a step system: each manager's reconnect
  loop, Close, and selections that hold the table's read lock while they look at manager states.
 */
module Connections {
  import opened Domain
  import opened PeerTable

  datatype State = Down | Connecting | Ready | Stopping

  /** Where a manager's loop stands. g is the loop's local copy of the generation of its connection. */
  datatype Pc =
    | Top
    | Starting
    | Dialing
    | Dialed
    | Numbered(g: nat)
    | MadeReady(g: nat)
    | Up(g: nat)
    | LossSeen(g: nat)
    | MadeDown(g: nat)
    | StopSeen(g: nat)
    | Hungup(g: nat)
    | BackingOff
    | Exited

  /** closing: Close's once body has begun; stop: its channel is closed. */
  datatype Manager = Manager(pc: Pc, state: State, generation: nat, closing: bool, stop: bool)

  /** A selection in progress: peers before index next have been looked at, found holds the managers seen ready. */
  datatype Scan = Scan(request: RouteRequest, next: nat, found: set<ManagerId>)

  datatype Sys = Sys(managers: map<ManagerId, Manager>, table: seq<Peer>, scans: map<nat, Scan>)

  datatype Action =
    | AddManager(m: ManagerId)
    | TestStop(m: ManagerId)
    | SetConnecting(m: ManagerId)
    | DialOk(m: ManagerId)
    | DialErr(m: ManagerId)
    | TakeNumber(m: ManagerId)
    | SetReady(m: ManagerId)
    | Publish(m: ManagerId, capability: Capability)
    | SeeLoss(m: ManagerId)
    | SetDown(m: ManagerId)
    | SeeStop(m: ManagerId)
    | Hangup(m: ManagerId)
    | Withdraw(m: ManagerId)
    | BackoffOver(m: ManagerId)
    | BackoffStopped(m: ManagerId)
    | BeginClose(m: ManagerId)
    | CloseStop(m: ManagerId)
    | BeginSelect(id: nat, request: RouteRequest)
    | Look(id: nat)
    | EndSelect(id: nat)

  function Initial(): Sys { Sys(map[], [], map[]) }

  predicate InLoop(s: Sys, m: ManagerId, pc: Pc) {
    m in s.managers && s.managers[m].pc == pc
  }

  predicate Enabled(s: Sys, a: Action) {
    match a
    case AddManager(m) => m !in s.managers
    case TestStop(m) => InLoop(s, m, Top)
    case SetConnecting(m) => InLoop(s, m, Starting)
    case DialOk(m) => InLoop(s, m, Dialing)
    case DialErr(m) => InLoop(s, m, Dialing)
    case TakeNumber(m) => InLoop(s, m, Dialed)
    case SetReady(m) => m in s.managers && s.managers[m].pc.Numbered?
    case Publish(m, c) => m in s.managers && s.managers[m].pc.MadeReady? && s.scans == map[]
    case SeeLoss(m) => m in s.managers && s.managers[m].pc.Up?
    case SetDown(m) => m in s.managers && s.managers[m].pc.LossSeen?
    case SeeStop(m) => m in s.managers && s.managers[m].pc.Up? && s.managers[m].stop
    case Hangup(m) => m in s.managers && s.managers[m].pc.StopSeen?
    case Withdraw(m) => m in s.managers && (s.managers[m].pc.MadeDown? || s.managers[m].pc.Hungup?) && s.scans == map[]
    case BackoffOver(m) => InLoop(s, m, BackingOff)
    case BackoffStopped(m) => InLoop(s, m, BackingOff) && s.managers[m].stop
    case BeginClose(m) => m in s.managers && !s.managers[m].closing
    case CloseStop(m) => m in s.managers && s.managers[m].closing && !s.managers[m].stop
    case BeginSelect(id, r) => id !in s.scans
    case Look(id) => id in s.scans && s.scans[id].next < |s.table|
    case EndSelect(id) => id in s.scans && s.scans[id].next >= |s.table|
  }

  function Set(s: Sys, m: ManagerId, x: Manager): Sys {
    s.(managers := s.managers[m := x])
  }

  function Goto(s: Sys, m: ManagerId, pc: Pc): Sys
    requires m in s.managers
  {
    Set(s, m, s.managers[m].(pc := pc))
  }

  function Apply(s: Sys, a: Action): Sys
    requires Enabled(s, a)
  {
    match a
    case AddManager(m) => Set(s, m, Manager(Top, Down, 0, false, false))
    case TestStop(m) => Goto(s, m, if s.managers[m].stop then Exited else Starting)
    case SetConnecting(m) => Set(s, m, s.managers[m].(pc := Dialing, state := Connecting))
    case DialOk(m) => Goto(s, m, Dialed)
    case DialErr(m) => Goto(s, m, BackingOff)
    case TakeNumber(m) =>
      var g := s.managers[m].generation + 1;
      Set(s, m, s.managers[m].(pc := Numbered(g), generation := g))
    case SetReady(m) => Set(s, m, s.managers[m].(pc := MadeReady(s.managers[m].pc.g), state := Ready))
    case Publish(m, c) =>
      var g := s.managers[m].pc.g;
      Goto(s, m, Up(g)).(table := Upserted(s.table, m, c.(generation := g, ready := true)))
    case SeeLoss(m) => Goto(s, m, LossSeen(s.managers[m].pc.g))
    case SetDown(m) => Set(s, m, s.managers[m].(pc := MadeDown(s.managers[m].pc.g), state := Down))
    case SeeStop(m) => Goto(s, m, StopSeen(s.managers[m].pc.g))
    case Hangup(m) => Goto(s, m, Hungup(s.managers[m].pc.g))
    case Withdraw(m) =>
      var pc := s.managers[m].pc;
      Goto(s, m, if pc.MadeDown? then Top else Exited).(table := Removed(s.table, m, pc.g))
    case BackoffOver(m) => Goto(s, m, Top)
    case BackoffStopped(m) => Goto(s, m, Exited)
    case BeginClose(m) => Set(s, m, s.managers[m].(closing := true, state := Stopping))
    case CloseStop(m) => Set(s, m, s.managers[m].(stop := true))
    case BeginSelect(id, r) => s.(scans := s.scans[id := Scan(r, 0, {})])
    case Look(id) =>
      var x := s.scans[id];
      var m := s.table[x.next].manager;
      var seen := if m in s.managers && s.managers[m].state == Ready then {m} else {};
      s.(scans := s.scans[id := x.(next := x.next + 1, found := x.found + seen)])
    case EndSelect(id) => s.(scans := s.scans - {id})
  }

  // ---- the invariant ------------------------------------------------------------------------

  /** The loop is inside connection g: published, not yet withdrawn. */
  predicate Inside(pc: Pc, g: nat) {
    match pc
    case Up(h) => g == h
    case LossSeen(h) => g == h
    case MadeDown(h) => g == h
    case StopSeen(h) => g == h
    case Hungup(h) => g == h
    case _ => false
  }

  predicate HasGeneration(pc: Pc) {
    pc.Numbered? || pc.MadeReady? || pc.Up? || pc.LossSeen? || pc.MadeDown? || pc.StopSeen? || pc.Hungup?
  }

  ghost predicate ManagerOk(x: Manager) {
    && (HasGeneration(x.pc) ==> x.pc.g == x.generation)
    && (x.pc.MadeDown? ==> x.state != Ready)
  }

  ghost predicate ManagersOk(s: Sys) {
    forall m :: m in s.managers ==> ManagerOk(s.managers[m])
  }

  /** No entry is from the future, and a ready one belongs to the connection its manager is in. */
  ghost predicate EntryOk(s: Sys, m: ManagerId) {
    var e := EntryOf(s.table, m);
    e.Some? ==>
      && m in s.managers && e.value.generation <= s.managers[m].generation
      && (e.value.ready ==> Inside(s.managers[m].pc, e.value.generation))
  }

  ghost predicate TableOk(s: Sys) {
    Unique(s.table) && forall m :: EntryOk(s, m)
  }

  ghost predicate Inv(s: Sys) {
    ManagersOk(s) && TableOk(s)
  }

  // ---- every step keeps it ------------------------------------------------------------------

  lemma ManagerKept(s: Sys, a: Action, m: ManagerId)
    requires Enabled(s, a) && m in Apply(s, a).managers && (m in s.managers ==> ManagerOk(s.managers[m]))
    ensures ManagerOk(Apply(s, a).managers[m])
  {
  }

  lemma ManagersKept(s: Sys, a: Action)
    requires ManagersOk(s) && Enabled(s, a)
    ensures ManagersOk(Apply(s, a))
  {
    forall m | m in Apply(s, a).managers ensures ManagerOk(Apply(s, a).managers[m]) {
      ManagerKept(s, a, m);
    }
  }

  /** Outside publication a loop neither enters nor leaves a connection, and generations only grow. */
  lemma LoopKeepsPlace(s: Sys, a: Action, n: ManagerId, g: nat)
    requires Enabled(s, a) && !a.Publish? && !a.Withdraw? && n in s.managers
    ensures n in Apply(s, a).managers && s.managers[n].generation <= Apply(s, a).managers[n].generation
    ensures Inside(s.managers[n].pc, g) ==> Inside(Apply(s, a).managers[n].pc, g)
  {
  }

  lemma EntriesKeptByUpdates(s: Sys, a: Action, n: ManagerId)
    requires Inv(s) && Enabled(s, a) && (a.Publish? || a.Withdraw?)
    ensures EntryOk(Apply(s, a), n)
  {
    assert EntryOk(s, n) && EntryOk(s, a.m);
    if a.Publish? {
      UpsertedEntries(s.table, a.m, a.capability.(generation := s.managers[a.m].pc.g, ready := true), n);
    } else {
      RemovedEntries(s.table, a.m, s.managers[a.m].pc.g, n);
    }
  }

  lemma EntriesKeptByOthers(s: Sys, a: Action, n: ManagerId)
    requires EntryOk(s, n) && Enabled(s, a) && !a.Publish? && !a.Withdraw?
    ensures EntryOk(Apply(s, a), n)
  {
    assert Apply(s, a).table == s.table;
    var e := EntryOf(s.table, n);
    if e.Some? {
      LoopKeepsPlace(s, a, n, e.value.generation);
    }
  }

  lemma UniqueKept(s: Sys, a: Action)
    requires Unique(s.table) && Enabled(s, a)
    ensures Unique(Apply(s, a).table)
  {
    if a.Publish? {
      UpdatesKeepUnique(s.table, a.m, a.capability.(generation := s.managers[a.m].pc.g, ready := true), 0);
    } else if a.Withdraw? {
      UpdatesKeepUnique(s.table, a.m, Capability("", "", 0, false, false, {}), s.managers[a.m].pc.g);
    }
  }

  lemma StepKeepsInv(s: Sys, a: Action)
    requires Inv(s) && Enabled(s, a)
    ensures Inv(Apply(s, a))
  {
    ManagersKept(s, a);
    UniqueKept(s, a);
    forall n ensures EntryOk(Apply(s, a), n) {
      assert EntryOk(s, n);
      if a.Publish? || a.Withdraw? { EntriesKeptByUpdates(s, a, n); } else { EntriesKeptByOthers(s, a, n); }
    }
  }

  // ---- runs ---------------------------------------------------------------------------------

  ghost predicate Legal(run: seq<Action>)
    decreases |run|, 0
  {
    run == [] || (Legal(Init(run)) && Enabled(Exec(Init(run)), Last(run)))
  }

  ghost function Exec(run: seq<Action>): Sys
    requires Legal(run)
    decreases |run|, 1
  {
    if run == [] then Initial() else Apply(Exec(Init(run)), Last(run))
  }

  function Init(run: seq<Action>): seq<Action>
    requires run != []
  {
    run[..|run| - 1]
  }

  function Last(run: seq<Action>): Action
    requires run != []
  {
    run[|run| - 1]
  }

  lemma {:induction false} Reachable(run: seq<Action>)
    requires Legal(run)
    ensures Inv(Exec(run))
    decreases |run|
  {
    if run != [] {
      Reachable(Init(run));
      StepKeepsInv(Exec(Init(run)), Last(run));
    }
  }

  /** A finished selection routes to m. */
  ghost predicate Routes(s: Sys, id: nat, m: ManagerId) {
    && Enabled(s, EndSelect(id))
    && exists i: nat, t: nat :: Preferred(s.table, s.scans[id].request, s.scans[id].found, i, t)
        && s.table[i].manager == m
  }

  /**
    Theorem: in every interleaving, a selection routes only on the capabilities its manager published for
    its current generation, while the manager's loop is still inside that connection.
   */
  lemma RoutesAreCurrent(run: seq<Action>, id: nat, m: ManagerId)
    requires Legal(run) && Routes(Exec(run), id, m)
    ensures var e := Exec(run);
            && m in e.managers && EntryOf(e.table, m).Some? && EntryOf(e.table, m).value.ready
            && EntryOf(e.table, m).value.generation == e.managers[m].generation
            && Inside(e.managers[m].pc, e.managers[m].generation)
  {
    Reachable(run);
    var e := Exec(run);
    var i: nat, t: nat :| Preferred(e.table, e.scans[id].request, e.scans[id].found, i, t) && e.table[i].manager == m;
    EntryIsListed(e.table, m);
    assert EntryOk(e, m);
  }

  /** The peers a selection counts as ready had not yet acknowledged a loss when it looked at them. */
  lemma LooksAtLiveConnections(run: seq<Action>, id: nat)
    requires Legal(run) && Enabled(Exec(run), Look(id))
    requires var e := Exec(run); var p := e.table[e.scans[id].next];
             p.capability.ready && p.manager in e.managers && e.managers[p.manager].state == Ready
    ensures var e := Exec(run); var p := e.table[e.scans[id].next];
            Inside(e.managers[p.manager].pc, p.capability.generation) && !e.managers[p.manager].pc.MadeDown?
  {
    Reachable(run);
    var e := Exec(run);
    var p := e.table[e.scans[id].next];
    EntryIsListed(e.table, p.manager);
    assert EntryOk(e, p.manager);
  }

  // ---- what a selection has seen ----------------------------------------------------------------

  /** The look selection id is about to take is at m, and would find it as said. */
  ghost predicate Sees(s: Sys, id: nat, m: ManagerId, ready: bool) {
    && id in s.scans && s.scans[id].next < |s.table| && s.table[s.scans[id].next].manager == m
    && (ready <==> m in s.managers && s.managers[m].state == Ready)
  }

  /** Since it last began, selection id has looked at m and found it as said. */
  ghost predicate LookedAt(run: seq<Action>, id: nat, m: ManagerId, ready: bool)
    requires Legal(run)
    decreases |run|
  {
    && run != [] && !(Last(run).BeginSelect? && Last(run).id == id)
    && ((Last(run) == Look(id) && Sees(Exec(Init(run)), id, m, ready)) || LookedAt(Init(run), id, m, ready))
  }

  /** Theorem: in every interleaving, a selection counts a manager as ready if and only if it saw it Ready. */
  lemma {:induction false} FoundIsSeenReady(run: seq<Action>, id: nat, m: ManagerId)
    requires Legal(run) && id in Exec(run).scans
    ensures m in Exec(run).scans[id].found <==> LookedAt(run, id, m, true)
    decreases |run|
  {
    var s, a := Exec(Init(run)), Last(run);
    if !(a.BeginSelect? && a.id == id) {
      assert id in s.scans;
      FoundIsSeenReady(Init(run), id, m);
    }
  }

  lemma TableHeld(s: Sys, a: Action, id: nat)
    requires Enabled(s, a) && id in s.scans
    ensures Apply(s, a).table == s.table
  {
  }

  /** Theorem: a selection that may end has looked at every peer of the table. */
  lemma NobodySkipped(run: seq<Action>, id: nat, i: nat)
    requires Legal(run) && Enabled(Exec(run), EndSelect(id)) && i < |Exec(run).table|
    ensures var m := Exec(run).table[i].manager; LookedAt(run, id, m, true) || LookedAt(run, id, m, false)
  {
    LookedSoFar(run, id, i);
  }

  lemma {:induction false} LookedSoFar(run: seq<Action>, id: nat, i: nat)
    requires Legal(run) && id in Exec(run).scans && i < Exec(run).scans[id].next && i < |Exec(run).table|
    ensures var m := Exec(run).table[i].manager; LookedAt(run, id, m, true) || LookedAt(run, id, m, false)
    decreases |run|
  {
    var s, a := Exec(Init(run)), Last(run);
    TableHeld(s, a, id);
    if a == Look(id) && i == s.scans[id].next {
      var m := s.table[i].manager;
      assert Sees(s, id, m, m in s.managers && s.managers[m].state == Ready);
    } else {
      LookedSoFar(Init(run), id, i);
    }
  }

  // ---- what the table holds ---------------------------------------------------------------------

  /** How many connections m has opened. */
  function Dials(run: seq<Action>, m: ManagerId): nat {
    if run == [] then 0 else Dials(Init(run), m) + if Last(run) == TakeNumber(m) then 1 else 0
  }

  /** The capability m last published, and which of its connections it was for. */
  function LastPublished(run: seq<Action>, m: ManagerId): Option<(Capability, nat)> {
    if run == [] then None
    else if Last(run).Publish? && Last(run).m == m then Some((Last(run).capability, Dials(run, m)))
    else LastPublished(Init(run), m)
  }

  /** The number of the last connection, zero for a manager there is not yet. */
  function Number(s: Sys, m: ManagerId): nat {
    if m in s.managers then s.managers[m].generation else 0
  }

  lemma StepNumbers(s: Sys, a: Action, m: ManagerId)
    requires Enabled(s, a)
    ensures Number(Apply(s, a), m) == Number(s, m) + if a == TakeNumber(m) then 1 else 0
  {
  }

  lemma {:induction false} GenerationCounts(run: seq<Action>, m: ManagerId)
    requires Legal(run)
    ensures Number(Exec(run), m) == Dials(run, m)
    decreases |run|
  {
    if run != [] {
      GenerationCounts(Init(run), m);
      StepNumbers(Exec(Init(run)), Last(run), m);
    }
  }

  /**
    Theorem: in every interleaving a ready entry is the capability its manager published last, numbered
    with how many connections that manager has opened so far.
   */
  lemma {:induction false} ReadyEntryIsLastPublished(run: seq<Action>, m: ManagerId)
    requires Legal(run)
    ensures var e := EntryOf(Exec(run).table, m);
            e.Some? && e.value.ready ==>
              && LastPublished(run, m).Some? && LastPublished(run, m).value.1 == Dials(run, m)
              && e.value == LastPublished(run, m).value.0.(generation := Dials(run, m), ready := true)
    decreases |run|
  {
    Reachable(run);
    GenerationCounts(run, m);
    if run != [] {
      var s, a := Exec(Init(run)), Last(run);
      ReadyEntryIsLastPublished(Init(run), m);
      Reachable(Init(run));
      GenerationCounts(Init(run), m);
      assert EntryOk(s, m) && EntryOk(Exec(run), m);
      if a.Publish? {
        UpsertedEntries(s.table, a.m, a.capability.(generation := s.managers[a.m].pc.g, ready := true), m);
      } else if a.Withdraw? {
        RemovedEntries(s.table, a.m, s.managers[a.m].pc.g, m);
      }
    }
  }

  lemma ExitedStays(s: Sys, a: Action, m: ManagerId)
    requires InLoop(s, m, Exited) && Enabled(s, a)
    ensures InLoop(Apply(s, a), m, Exited)
  {
  }

  /** Theorem: after its loop has exited a manager is never routed to again, however Close raced with a dial. */
  lemma {:induction false} ExitedNeverRouted(run: seq<Action>, longer: seq<Action>, id: nat, m: ManagerId)
    requires Legal(longer) && run <= longer && Legal(run) && InLoop(Exec(run), m, Exited)
    ensures InLoop(Exec(longer), m, Exited) && !Routes(Exec(longer), id, m)
    decreases |longer|
  {
    if |run| < |longer| {
      assert run <= Init(longer);
      ExitedNeverRouted(run, Init(longer), id, m);
      ExitedStays(Exec(Init(longer)), Last(longer), m);
    } else {
      assert run == longer;
    }
    if Routes(Exec(longer), id, m) { RoutesAreCurrent(longer, id, m); }
  }

  /**
    Close during a dial that then succeeds: the loop exits with the manager still reporting Ready.
    Only the withdrawal from the table keeps it from being routed to.
   */
  lemma ReadyAfterExit(m: ManagerId, c: Capability) returns (run: seq<Action>)
    ensures Legal(run) && InLoop(Exec(run), m, Exited) && Exec(run).managers[m].state == Ready
  {
    run := ClosedWhileDialing(m);
    run := Extend(run, DialOk(m));
    run := Extend(run, TakeNumber(m));
    run := Extend(run, SetReady(m));
    run := PublishedAndWithdrawn(run, m, c);
  }

  // ---- the state an exited manager is left in -------------------------------------------------

  /** What a step writes into m's state field, if it does. */
  function Written(a: Action, m: ManagerId): Option<State> {
    match a
    case AddManager(n) => if n == m then Some(Down) else None
    case SetConnecting(n) => if n == m then Some(Connecting) else None
    case SetReady(n) => if n == m then Some(Ready) else None
    case SetDown(n) => if n == m then Some(Down) else None
    case BeginClose(n) => if n == m then Some(Stopping) else None
    case _ => None
  }

  /** run[j] writes m's state and no later step does. */
  ghost predicate LastWrite(run: seq<Action>, m: ManagerId, j: nat) {
    j < |run| && Written(run[j], m).Some? && forall k :: j < k < |run| ==> Written(run[k], m).None?
  }

  lemma StepWrites(s: Sys, a: Action, m: ManagerId)
    requires Enabled(s, a)
    ensures Written(a, m).Some? ==> m in Apply(s, a).managers && Apply(s, a).managers[m].state == Written(a, m).value
    ensures Written(a, m).None? ==> (m in Apply(s, a).managers <==> m in s.managers)
    ensures Written(a, m).None? && m in s.managers ==> Apply(s, a).managers[m].state == s.managers[m].state
  {
  }

  /** A manager's state is what its last write says. */
  lemma {:induction false} StateIsLastWrite(run: seq<Action>, m: ManagerId) returns (j: nat)
    requires Legal(run) && m in Exec(run).managers
    ensures LastWrite(run, m, j) && Exec(run).managers[m].state == Written(run[j], m).value
    decreases |run|
  {
    var a := Last(run);
    StepWrites(Exec(Init(run)), a, m);
    if Written(a, m).Some? {
      j := |run| - 1;
    } else {
      j := StateIsLastWrite(Init(run), m);
    }
  }

  /** Nobody sees the stop before it is given, nor is it given before Close has begun. */
  ghost predicate StopOk(x: Manager) {
    && (x.pc.Exited? || x.pc.StopSeen? || x.pc.Hungup? ==> x.stop)
    && (x.stop ==> x.closing)
  }

  lemma StopKept(s: Sys, a: Action, m: ManagerId)
    requires Enabled(s, a) && m in Apply(s, a).managers && (m in s.managers ==> StopOk(s.managers[m]))
    ensures StopOk(Apply(s, a).managers[m])
    ensures Apply(s, a).managers[m].closing <==> a == BeginClose(m) || (m in s.managers && s.managers[m].closing)
  {
  }

  lemma {:induction false} CloseBegan(run: seq<Action>, m: ManagerId) returns (i: nat)
    requires Legal(run) && m in Exec(run).managers
    ensures StopOk(Exec(run).managers[m])
    ensures Exec(run).managers[m].closing ==> i < |run| && run[i] == BeginClose(m)
    decreases |run|
  {
    var s, a := Exec(Init(run)), Last(run);
    i := |run| - 1;
    if m in s.managers {
      i := CloseBegan(Init(run), m);
      if a == BeginClose(m) {
        i := |run| - 1;
      }
    }
    StopKept(s, a, m);
  }

  /** A connection came up after Close had begun, and the loop wrote nothing more. */
  ghost predicate DialWonTheRace(run: seq<Action>, m: ManagerId) {
    exists i: nat, j: nat :: i < j && j < |run| && run[i] == BeginClose(m) && run[j] == SetReady(m)
        && LastWrite(run, m, j)
  }

  /** The loop wrote nothing once Close had begun. */
  ghost predicate CloseHadTheLastWord(run: seq<Action>, m: ManagerId) {
    exists i: nat :: i < |run| && run[i] == BeginClose(m) && LastWrite(run, m, i)
  }

  /**
    Theorem: a manager whose loop has exited is left Ready if and only if a dial succeeded after Close had
    begun and the loop wrote nothing afterwards, and left Stopping if and only if the loop wrote nothing at
    all after Close had begun.
   */
  lemma StateAfterExit(run: seq<Action>, m: ManagerId)
    requires Legal(run) && InLoop(Exec(run), m, Exited)
    ensures Exec(run).managers[m].state == Ready <==> DialWonTheRace(run, m)
    ensures Exec(run).managers[m].state == Stopping <==> CloseHadTheLastWord(run, m)
  {
    var j := StateIsLastWrite(run, m);
    var i := CloseBegan(run, m);
    if DialWonTheRace(run, m) {
      var h: nat, k: nat :| h < k && k < |run| && run[h] == BeginClose(m) && run[k] == SetReady(m)
          && LastWrite(run, m, k);
      assert k == j;
    }
    if CloseHadTheLastWord(run, m) {
      var k: nat :| k < |run| && run[k] == BeginClose(m) && LastWrite(run, m, k);
      assert k == j;
    }
    assert i <= j;
  }

  lemma ClosedWhileDialing(m: ManagerId) returns (run: seq<Action>)
    ensures Legal(run) && Exec(run) == Sys(map[m := Manager(Dialing, Stopping, 0, true, true)], [], map[])
  {
    run := Extend([], AddManager(m));
    run := Extend(run, TestStop(m));
    run := Extend(run, SetConnecting(m));
    run := Extend(run, BeginClose(m));
    run := Extend(run, CloseStop(m));
  }

  lemma PublishedAndWithdrawn(run: seq<Action>, m: ManagerId, c: Capability) returns (longer: seq<Action>)
    requires Legal(run) && m in Exec(run).managers && Exec(run).scans == map[]
    requires var x := Exec(run).managers[m]; x.pc.MadeReady? && x.state == Ready && x.stop
    ensures Legal(longer) && InLoop(Exec(longer), m, Exited) && Exec(longer).managers[m].state == Ready
  {
    longer := Extend(run, Publish(m, c));
    longer := Extend(longer, SeeStop(m));
    longer := Extend(longer, Hangup(m));
    longer := Extend(longer, Action.Withdraw(m));
  }

  lemma Extend(run: seq<Action>, a: Action) returns (longer: seq<Action>)
    requires Legal(run) && Enabled(Exec(run), a)
    ensures Legal(longer) && Exec(longer) == Apply(Exec(run), a)
  {
    longer := run + [a];
    assert Init(longer) == run && Last(longer) == a;
  }
}
