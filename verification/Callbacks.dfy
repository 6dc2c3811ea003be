/**
  The way from a finished request to its callback: the pipeline and the outbox side by side, joined by the
  completion hook, which inserts at most one delivery for the request it is called about.
 */
module Callbacks {
  import opened Domain
  import opened RequestStore
  import Outbox
  import Pipeline
  import PipelineSafety

  /** origin maps each delivery to the request whose completion it announces. */
  datatype Sys = Sys(pipeline: Pipeline.Sys, outbox: Outbox.Sys, origin: map<Id, Id>)

  /**
    Steps of the pipeline but the hook's, steps of the outbox but arrivals, and the hook itself. It inserts
    nothing without a subscription, when the store fails, or when the process dies first.
   */
  datatype Action =
    | Pipe(pipe: Pipeline.Action)
    | Deliver(step: Outbox.Action)
    | Hook(delivery: Option<Id>, now: string)

  function Initial(): Sys {
    Sys(Pipeline.Initial(), Outbox.Initial(), map[])
  }

  ghost predicate Enabled(s: Sys, a: Action) {
    match a
    case Pipe(b) => !b.Notify? && Pipeline.Enabled(s.pipeline, b)
    case Deliver(b) => !b.Arrive? && Outbox.Enabled(s.outbox, b)
    case Hook(d, now) =>
      && Pipeline.Enabled(s.pipeline, Pipeline.Notify)
      && (d.Some? ==> Outbox.Enabled(s.outbox, Outbox.Arrive(d.value, now)))
  }

  ghost function Apply(limit: nat, s: Sys, a: Action): Sys
    requires Enabled(s, a)
  {
    match a
    case Pipe(b) => s.(pipeline := Pipeline.Apply(s.pipeline, b))
    case Deliver(b) => s.(outbox := Outbox.Apply(limit, s.outbox, b))
    case Hook(None, _) => s.(pipeline := Pipeline.Apply(s.pipeline, Pipeline.Notify))
    case Hook(Some(d), now) =>
      Sys(Pipeline.Apply(s.pipeline, Pipeline.Notify),
          Outbox.Apply(limit, s.outbox, Outbox.Arrive(d, now)),
          s.origin[d := s.pipeline.pc.id])
  }

  ghost predicate Legal(limit: nat, run: seq<Action>)
    decreases |run|, 0
  {
    run == [] || (Legal(limit, run[..|run| - 1]) && Enabled(Exec(limit, run[..|run| - 1]), run[|run| - 1]))
  }

  ghost function Exec(limit: nat, run: seq<Action>): Sys
    requires Legal(limit, run)
    decreases |run|, 1
  {
    if run == [] then Initial() else Apply(limit, Exec(limit, run[..|run| - 1]), run[|run| - 1])
  }

  // ---- invariant ----------------------------------------------------------------------------

  /** The hook has been called about a request. */
  ghost predicate Noticed(p: Pipeline.Sys, request: Id) {
    !Pipeline.Unnoticed(p, request)
  }

  /** Deliveries come from the hook, and no two from the same request. */
  ghost predicate OriginOk(s: Sys) {
    && s.origin.Keys == s.outbox.table.Keys
    && (forall d :: d in s.origin ==> Noticed(s.pipeline, s.origin[d]))
    && (forall d, e :: d in s.origin && e in s.origin && s.origin[d] == s.origin[e] ==> d == e)
  }

  ghost predicate Inv(limit: nat, s: Sys) {
    Pipeline.Inv(s.pipeline) && Outbox.Inv(limit, s.outbox) && OriginOk(s)
  }

  lemma NoticeStays(p: Pipeline.Sys, b: Pipeline.Action, request: Id)
    requires Pipeline.Fits(p, b) && Noticed(p, request)
    ensures Noticed(Pipeline.Apply(p, b), request)
  {
    assert p.effects <= Pipeline.Apply(p, b).effects;
  }

  lemma DeliveriesStay(limit: nat, o: Outbox.Sys, b: Outbox.Action)
    requires Outbox.PcOk(o) && Outbox.Enabled(o, b) && !b.Arrive?
    ensures Outbox.Apply(limit, o, b).table.Keys == o.table.Keys
  {
  }

  lemma HookIsFirst(p: Pipeline.Sys)
    requires Pipeline.PcOk(p) && p.pc.Notifying?
    ensures !Noticed(p, p.pc.id) && Noticed(Pipeline.Apply(p, Pipeline.Notify), p.pc.id)
  {
    var e := Pipeline.Apply(p, Pipeline.Notify).effects;
    assert e[|e| - 1] == Pipeline.Notified(p.pc.id, p.pc.state, p.pc.code);
  }

  lemma NoticesStay(s: Sys, b: Pipeline.Action)
    requires OriginOk(s) && Pipeline.Fits(s.pipeline, b)
    ensures OriginOk(s.(pipeline := Pipeline.Apply(s.pipeline, b)))
  {
    forall d | d in s.origin ensures Noticed(Pipeline.Apply(s.pipeline, b), s.origin[d]) {
      NoticeStays(s.pipeline, b, s.origin[d]);
    }
  }

  /** A delivery for a request that had none. */
  lemma OriginGrows(s: Sys, d: Id, request: Id, outbox: Outbox.Sys)
    requires OriginOk(s) && d !in s.origin && outbox.table.Keys == s.outbox.table.Keys + {d}
    requires Noticed(s.pipeline, request) && forall e :: e in s.origin ==> s.origin[e] != request
    ensures OriginOk(Sys(s.pipeline, outbox, s.origin[d := request]))
  {
  }

  lemma OriginKeptByHook(limit: nat, s: Sys, a: Action)
    requires OriginOk(s) && Pipeline.PcOk(s.pipeline) && a.Hook? && Enabled(s, a)
    ensures OriginOk(Apply(limit, s, a))
  {
    var noticed := s.(pipeline := Pipeline.Apply(s.pipeline, Pipeline.Notify));
    HookIsFirst(s.pipeline);
    NoticesStay(s, Pipeline.Notify);
    if a.delivery.Some? {
      var outbox := Outbox.Apply(limit, s.outbox, Outbox.Arrive(a.delivery.value, a.now));
      OriginGrows(noticed, a.delivery.value, s.pipeline.pc.id, outbox);
    }
  }

  lemma OriginKept(limit: nat, s: Sys, a: Action)
    requires OriginOk(s) && Pipeline.PcOk(s.pipeline) && Outbox.PcOk(s.outbox) && Enabled(s, a)
    ensures OriginOk(Apply(limit, s, a))
  {
    match a
    case Pipe(b) => NoticesStay(s, b);
    case Deliver(b) => DeliveriesStay(limit, s.outbox, b);
    case Hook(_, _) => OriginKeptByHook(limit, s, a);
  }

  lemma PartsKept(limit: nat, s: Sys, a: Action)
    requires limit >= 1 && Pipeline.Inv(s.pipeline) && Outbox.Inv(limit, s.outbox) && Enabled(s, a)
    ensures Pipeline.Inv(Apply(limit, s, a).pipeline) && Outbox.Inv(limit, Apply(limit, s, a).outbox)
  {
    match a
    case Pipe(b) => PipelineSafety.StepKeepsInv(s.pipeline, b);
    case Deliver(b) => Outbox.StepKeepsInv(limit, s.outbox, b);
    case Hook(d, now) =>
      PipelineSafety.StepKeepsInv(s.pipeline, Pipeline.Notify);
      if d.Some? {
        Outbox.StepKeepsInv(limit, s.outbox, Outbox.Arrive(d.value, now));
      }
  }

  lemma {:induction false} Reachable(limit: nat, run: seq<Action>)
    requires limit >= 1 && Legal(limit, run)
    ensures Inv(limit, Exec(limit, run))
  {
    if run != [] {
      var before := run[..|run| - 1];
      Reachable(limit, before);
      OriginKept(limit, Exec(limit, before), run[|run| - 1]);
      PartsKept(limit, Exec(limit, before), run[|run| - 1]);
    }
  }

  /**
    Theorem: over any run a request gives rise to at most one delivery, which is posted at most MaxAttempts
    times plus once for every shutdown that interrupted a post of it.
   */
  lemma CallbackBound(limit: nat, run: seq<Action>, d: Id)
    requires limit >= 1 && Legal(limit, run) && d in Exec(limit, run).outbox.table
    ensures var s := Exec(limit, run);
            && d in s.origin && Noticed(s.pipeline, s.origin[d])
            && (forall e :: e in s.outbox.table && e in s.origin && s.origin[e] == s.origin[d] ==> e == d)
            && Outbox.Count(s.outbox.posts, d) <= limit + Outbox.Count(s.outbox.interrupts, d)
  {
    Reachable(limit, run);
    assert Outbox.BudgetOk(limit, Exec(limit, run).outbox, d);
  }
}
