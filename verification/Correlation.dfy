/**
  Request/answer correlation on one Diameter connection: callers share a pending table keyed by the
  Hop-by-Hop identifier, each caller waits on its own one-slot channel, and the first loss of the
  connection drains the table (section 6.2.1 of RFC 6733; identifiers from its section 3).
  Every critical section of the mutex is one step; the drain, which sends while holding the mutex,
  is one step per entry with the mutex held throughout.
 */
module Correlation {
  import opened Domain

  const WRAP: nat := 0x1_0000_0000

  /** The identifier of the k-th allocation: a wrapping 32-bit counter. */
  function Hop(k: nat): nat { k % WRAP }

  type Caller = nat

  /**
    A message from the peer: request is its R bit; about is the allocation whose request an answer without
    the bit is for.
   */
  datatype Message = Message(hop: nat, about: nat, request: bool)

  datatype Error = Unavailable | ConnectionLost | Shutdown | WriteFailed | ContextDone

  /** What travels through a caller's channel. */
  datatype Item = Answer(msg: Message) | Loss(err: Error)

  /** How RoundTrip returns. Lost covers both ways a caller learns of the loss of the connection. */
  datatype Return = Answered(msg: Message) | Lost(err: Error) | Refused | GaveUp(err: Error)

  datatype Pc =
    | Allocated
    | Registered
    | Waiting
    | Removing(ret: Return)
    | LeavingClosed
    | AskingWhy
    | Done(ret: Return)

  /** One RoundTrip call: its allocation, its position, its channel's content and how often anyone sent on it. */
  datatype Call = Call(k: nat, pc: Pc, box: seq<Item>, sent: nat)

  /** failAll's once body: not begun, error stored, closed, draining under the mutex, finished. */
  datatype Once = Fresh | LossStored(err: Error) | Closing(err: Error) | Draining(err: Error) | Finished

  /** A delivery that has taken a channel out of the table and not yet sent on it. */
  datatype Flight = Flight(to: Caller, msg: Message)

  datatype Sys = Sys(seq_: nat, pending: map<nat, Caller>, calls: map<Caller, Call>, flights: seq<Flight>,
                     closed: bool, loss: Option<Error>, once: Once)

  function Initial(): Sys {
    Sys(0, map[], map[], [], false, None, Fresh)
  }

  /** StoreLoss is the failAll that finds its once body not begun, LateLoss any other, which does nothing. */
  datatype Action =
    | Allocate(c: Caller)
    | Register(c: Caller)
    | WriteOk(c: Caller)
    | WriteErr(c: Caller)
    | Receive(c: Caller)
    | Timeout(c: Caller)
    | SeeClosed(c: Caller)
    | Remove(c: Caller)
    | RemoveClosed(c: Caller)
    | ReadLoss(c: Caller)
    | Deliver(msg: Message)
    | Send(i: nat)
    | StoreLoss(err: Error)
    | LateLoss(err: Error)
    | CloseChannel
    | LockTable
    | DrainOne(hop: nat)
    | UnlockTable

  predicate At(s: Sys, c: Caller, pc: Pc) {
    c in s.calls && s.calls[c].pc == pc
  }

  /** The mutex is free: nobody holds it between steps except the drain. */
  predicate Free(s: Sys) {
    !s.once.Draining?
  }

  predicate HasRoom(s: Sys, c: Caller) {
    c in s.calls && |s.calls[c].box| == 0
  }

  predicate Enabled(s: Sys, a: Action) {
    match a
    case Allocate(c) => c !in s.calls
    case Register(c) => At(s, c, Allocated) && Free(s)
    case WriteOk(c) => At(s, c, Registered)
    case WriteErr(c) => At(s, c, Registered)
    case Receive(c) => At(s, c, Waiting) && !HasRoom(s, c)
    case Timeout(c) => At(s, c, Waiting)
    case SeeClosed(c) => At(s, c, Waiting) && s.closed
    case Remove(c) => c in s.calls && s.calls[c].pc.Removing? && Free(s)
    case RemoveClosed(c) => At(s, c, LeavingClosed) && Free(s)
    case ReadLoss(c) => At(s, c, AskingWhy) && Free(s)
    case Deliver(m) => Free(s)
    case Send(i) => i < |s.flights| && HasRoom(s, s.flights[i].to)
    case StoreLoss(e) => s.once == Fresh
    case LateLoss(e) => s.once != Fresh
    case CloseChannel => s.once.LossStored?
    case LockTable => s.once.Closing?
    case DrainOne(h) => s.once.Draining? && h in s.pending && HasRoom(s, s.pending[h])
    case UnlockTable => s.once.Draining? && s.pending == map[]
  }

  function Goto(s: Sys, c: Caller, pc: Pc): Sys
    requires c in s.calls
  {
    s.(calls := s.calls[c := s.calls[c].(pc := pc)])
  }

  function Put(s: Sys, c: Caller, item: Item): Sys
    requires c in s.calls
  {
    s.(calls := s.calls[c := s.calls[c].(box := s.calls[c].box + [item], sent := s.calls[c].sent + 1)])
  }

  function Forget(s: Sys, hop: nat): Sys {
    s.(pending := s.pending - {hop})
  }

  /** An answer somebody waits for; requests of the peer's own are not delivered to anybody. */
  predicate Expected(s: Sys, m: Message) {
    !m.request && m.hop in s.pending
  }

  function Received(item: Item): Return {
    match item
    case Answer(m) => Answered(m)
    case Loss(e) => Lost(e)
  }

  function Apply(s: Sys, a: Action): Sys
    requires Enabled(s, a)
  {
    match a
    case Allocate(c) => s.(seq_ := s.seq_ + 1, calls := s.calls[c := Call(s.seq_ + 1, Allocated, [], 0)])
    case Register(c) =>
      if s.closed then Goto(s, c, Done(Refused))
      else Goto(s, c, Registered).(pending := s.pending[Hop(s.calls[c].k) := c])
    case WriteOk(c) => Goto(s, c, Waiting)
    case WriteErr(c) => Goto(s, c, Removing(GaveUp(WriteFailed)))
    case Receive(c) =>
      var x := s.calls[c];
      s.(calls := s.calls[c := x.(pc := Done(Received(x.box[0])), box := x.box[1..])])
    case Timeout(c) => Goto(s, c, Removing(GaveUp(ContextDone)))
    case SeeClosed(c) => Goto(s, c, LeavingClosed)
    case Remove(c) => Forget(Goto(s, c, Done(s.calls[c].pc.ret)), Hop(s.calls[c].k))
    case RemoveClosed(c) => Forget(Goto(s, c, AskingWhy), Hop(s.calls[c].k))
    case ReadLoss(c) => Goto(s, c, Done(Lost(if s.loss.Some? then s.loss.value else Unavailable)))
    case Deliver(m) =>
      if Expected(s, m) then Forget(s, m.hop).(flights := s.flights + [Flight(s.pending[m.hop], m)]) else s
    case Send(i) => Put(s, s.flights[i].to, Answer(s.flights[i].msg)).(flights := s.flights[..i] + s.flights[i + 1..])
    case StoreLoss(e) => s.(once := LossStored(e), loss := Some(e))
    case LateLoss(e) => s
    case CloseChannel => s.(once := Closing(s.once.err), closed := true)
    case LockTable => s.(once := Draining(s.once.err))
    case DrainOne(h) => Put(Forget(s, h), s.pending[h], Loss(s.once.err))
    case UnlockTable => s.(once := Finished)
  }

  // ---- the invariant ------------------------------------------------------------------------

  /** c's own entry is in the table. */
  predicate InTable(s: Sys, c: Caller)
    requires c in s.calls
  {
    Hop(s.calls[c].k) in s.pending && s.pending[Hop(s.calls[c].k)] == c
  }

  ghost predicate ItemOk(s: Sys, k: nat, item: Item) {
    match item
    case Answer(m) => m.hop == Hop(k)
    case Loss(e) => s.loss == Some(e)
  }

  ghost predicate ReturnOk(s: Sys, k: nat, ret: Return) {
    match ret
    case Answered(m) => m.hop == Hop(k)
    case Lost(e) => s.loss == Some(e)
    case _ => true
  }

  /** A call owns one send: while its entry is in the table nobody has sent, afterwards at most one has. */
  ghost predicate CallOk(s: Sys, c: Caller)
    requires c in s.calls
  {
    var x := s.calls[c];
    && 1 <= x.k <= s.seq_
    && |x.box| <= x.sent <= 1
    && (InTable(s, c) ==> x.sent == 0)
    && (x.pc.Allocated? ==> x.sent == 0)
    && (x.pc.LeavingClosed? || x.pc.AskingWhy? ==> s.closed)
    && (|x.box| == 1 ==> ItemOk(s, x.k, x.box[0]))
    && (x.pc.Removing? ==> x.pc.ret.GaveUp?)
    && (x.pc.Done? ==> ReturnOk(s, x.k, x.pc.ret))
  }

  ghost predicate CallsOk(s: Sys) {
    forall c :: c in s.calls ==> CallOk(s, c)
  }

  ghost predicate TableOk(s: Sys) {
    && (forall h :: h in s.pending ==>
          && s.pending[h] in s.calls
          && Hop(s.calls[s.pending[h]].k) == h
          && var pc := s.calls[s.pending[h]].pc; !pc.Allocated? && !pc.AskingWhy? && !pc.Done?)
    && (s.once.Finished? ==> s.pending == map[])
  }

  ghost predicate FlightsOk(s: Sys) {
    && (forall i :: 0 <= i < |s.flights| ==>
          var c := s.flights[i].to;
          && c in s.calls && s.flights[i].msg.hop == Hop(s.calls[c].k)
          && s.calls[c].sent == 0 && !InTable(s, c) && !s.calls[c].pc.Allocated?)
    && (forall i, j :: 0 <= i < j < |s.flights| ==> s.flights[i].to != s.flights[j].to)
  }

  /** The loss is stored before the channel closes and never changes; the drain carries the same error. */
  ghost predicate LossOk(s: Sys) {
    && (s.once.Fresh? <==> s.loss == None)
    && (s.closed <==> s.once.Closing? || s.once.Draining? || s.once.Finished?)
    && (s.once.LossStored? || s.once.Closing? || s.once.Draining? ==> s.loss == Some(s.once.err))
  }

  /** Allocation numbers are never reused. */
  ghost predicate Numbered(s: Sys) {
    forall c, d :: c in s.calls && d in s.calls && c != d ==> s.calls[c].k != s.calls[d].k
  }

  ghost predicate Inv(s: Sys) {
    CallsOk(s) && TableOk(s) && FlightsOk(s) && LossOk(s) && Numbered(s)
  }

  // ---- runs ---------------------------------------------------------------------------------

  ghost predicate Legal(run: seq<Action>)
    decreases |run|, 0
  {
    run == [] || (Legal(Init(run)) && Enabled(Exec(Init(run)), Last(run)))
  }

  ghost function Exec(run: seq<Action>): Sys
    requires Legal(run)
    decreases |run|, 1
  {
    if run == [] then Initial() else Apply(Exec(Init(run)), Last(run))
  }

  function Init(run: seq<Action>): seq<Action>
    requires run != []
  {
    run[..|run| - 1]
  }

  function Last(run: seq<Action>): Action
    requires run != []
  {
    run[|run| - 1]
  }
}
