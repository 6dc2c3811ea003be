/** The connection object: its fields updated in place by the bodies of its critical sections. */
module Transport {
  import opened Domain
  import opened Correlation
  import opened CorrelationProofs

  class TcpRoundTripper {
    var counter: nat
    var pending: map<nat, Caller>
    var calls: map<Caller, Call>
    var flights: seq<Flight>
    var closed: bool
    var lossErr: Option<Error>
    var once: Once

    function View(): Sys
      reads this
    {
      Sys(counter, pending, calls, flights, closed, lossErr, once)
    }

    constructor ()
      ensures View() == Initial()
    {
      counter, pending, calls, flights, closed, lossErr, once := 0, map[], map[], [], false, None, Fresh;
    }

    /** The head of RoundTrip: draw an identifier and make the channel. */
    method Allocate(c: Caller) returns (hop: nat)
      requires Enabled(View(), Correlation.Allocate(c))
      modifies this
      ensures View() == Apply(old(View()), Correlation.Allocate(c))
      ensures counter == old(counter) + 1 && hop == counter % 0x1_0000_0000
      ensures calls == old(calls)[c := Call(counter, Allocated, [], 0)] && pending == old(pending)
    {
      counter := counter + 1;
      calls := calls[c := Call(counter, Allocated, [], 0)];
      hop := counter % WRAP;
    }

    /** RoundTrip's critical section: refuse on a closed connection, else enter the table. */
    method Register(c: Caller) returns (entered: bool)
      requires Enabled(View(), Correlation.Register(c))
      modifies this
      ensures View() == Apply(old(View()), Correlation.Register(c))
      ensures entered == !closed
      ensures entered ==>
                && pending == old(pending)[calls[c].k % 0x1_0000_0000 := c]
                && calls == old(calls)[c := old(calls[c]).(pc := Registered)]
      ensures !entered ==> pending == old(pending) && calls == old(calls)[c := old(calls[c]).(pc := Done(Refused))]
    {
      if closed {
        calls := calls[c := calls[c].(pc := Done(Refused))];
        return false;
      }
      pending := pending[Hop(calls[c].k) := c];
      calls := calls[c := calls[c].(pc := Registered)];
      return true;
    }

    /** deliver's critical section: take the channel out of the table. */
    method Deliver(m: Message) returns (found: bool)
      requires Enabled(View(), Correlation.Deliver(m))
      modifies this
      ensures View() == Apply(old(View()), Correlation.Deliver(m))
      ensures found == (!m.request && m.hop in old(pending)) && calls == old(calls)
      ensures pending == if m.request then old(pending) else old(pending) - {m.hop}
      ensures flights == old(flights) + if found then [Flight(old(pending)[m.hop], m)] else []
    {
      if m.request {
        return false;
      }
      found := m.hop in pending;
      if found {
        flights := flights + [Flight(pending[m.hop], m)];
      }
      pending := pending - {m.hop};
      assert !found ==> pending == old(pending);
    }

    /** The rest of deliver: hand the answer over, off the mutex. */
    method Send(i: nat)
      requires Enabled(View(), Correlation.Send(i))
      modifies this
      ensures View() == Apply(old(View()), Correlation.Send(i))
      ensures calls[old(flights[i]).to].box == [Answer(old(flights[i]).msg)]
      ensures |flights| == |old(flights)| - 1 && pending == old(pending)
    {
      var f := flights[i];
      calls := calls[f.to := calls[f.to].(box := calls[f.to].box + [Answer(f.msg)], sent := calls[f.to].sent + 1)];
      flights := flights[..i] + flights[i + 1..];
    }

    /** The branch of RoundTrip's select that takes what the channel holds. */
    method Receive(c: Caller) returns (ret: Return)
      requires Inv(View()) && Enabled(View(), Correlation.Receive(c))
      modifies this
      ensures View() == Apply(old(View()), Correlation.Receive(c))
      ensures calls[c].pc == Done(ret) && calls[c].box == [] && pending == old(pending)
      ensures match old(calls[c]).box[0]
              case Answer(m) => ret == Answered(m) && m.hop == calls[c].k % 0x1_0000_0000
              case Loss(e) => ret == Lost(e) && lossErr == Some(e)
    {
      var x := calls[c];
      assert CallOk(View(), c);
      ret := match x.box[0]
        case Answer(m) => Answered(m)
        case Loss(e) => Lost(e);
      calls := calls[c := x.(pc := Done(ret), box := x.box[1..])];
    }

    /** remove(id), on the way out of RoundTrip. */
    method Remove(c: Caller)
      requires Enabled(View(), Correlation.Remove(c))
      modifies this
      ensures View() == Apply(old(View()), Correlation.Remove(c))
      ensures pending == old(pending) - {calls[c].k % 0x1_0000_0000}
      ensures calls == old(calls)[c := old(calls[c]).(pc := Done(old(calls[c]).pc.ret))]
    {
      pending := pending - {Hop(calls[c].k)};
      calls := calls[c := calls[c].(pc := Done(calls[c].pc.ret))];
    }

    /** closedError() */
    method ClosedError(c: Caller) returns (err: Error)
      requires Inv(View()) && Enabled(View(), ReadLoss(c))
      modifies this
      ensures View() == Apply(old(View()), ReadLoss(c))
      ensures lossErr == Some(err) && At(View(), c, Done(Lost(err)))
    {
      assert CallOk(View(), c);
      err := if lossErr.Some? then lossErr.value else Unavailable;
      calls := calls[c := calls[c].(pc := Done(Lost(err)))];
    }

    /**
      failAll: only the first call does anything. It stores the loss, closes, and hands the loss to every
      entry of the table exactly once; calls without an entry are left alone.
     */
    method FailAll(err: Error)
      requires Inv(View()) && (once.Fresh? || once.Finished?)
      modifies this
      ensures Inv(View()) && once.Finished?
      ensures old(once).Finished? ==> View() == old(View())
      ensures old(once).Fresh? ==> closed && lossErr == Some(err) && pending == map[]
      ensures old(once).Fresh? ==>
                calls == Drained(old(View()), err) && flights == old(flights) && counter == old(counter)
      ensures old(once).Fresh? ==> LossHandedOut(old(calls), old(pending), calls, err)
    {
      if once.Finished? {
        return;
      }
      ghost var before := View();
      Close(err);
      assert Drained(View(), err) == Drained(before, err);
      DrainedMeans(before, err);
      DrainTable(err);
    }

    /** The steps of failAll up to holding the mutex. */
    method Close(err: Error)
      requires Inv(View()) && once.Fresh?
      modifies this`lossErr, this`closed, this`once
      ensures Inv(View()) && once == Draining(err) && closed && lossErr == Some(err)
    {
      StoreKeeps(View(), err);
      lossErr, once := Some(err), LossStored(err);
      CloseKeeps(View(), err);
      closed, once := true, Closing(err);
      LockKeeps(View(), err);
      once := Draining(err);
    }

    /** The loop of failAll, mutex held. */
    method DrainTable(err: Error)
      requires Inv(View()) && once == Draining(err)
      modifies this`pending, this`calls, this`once
      ensures Inv(View()) && once.Finished? && pending == map[]
      ensures calls == Drained(old(View()), err)
    {
      ghost var goal := Drained(View(), err);
      DrainAll(err, goal);
      Unlock(err, goal);
    }

    method DrainAll(err: Error, ghost goal: map<Caller, Call>)
      requires InDrain(View(), err, goal)
      modifies this`pending, this`calls
      ensures InDrain(View(), err, goal) && pending == map[]
    {
      while pending.Keys != {}
        invariant InDrain(View(), err, goal)
        decreases pending.Keys
      {
        var h :| h in pending.Keys;
        DrainEntry(h, err, goal);
      }
    }

    method DrainEntry(h: nat, err: Error, ghost goal: map<Caller, Call>)
      requires InDrain(View(), err, goal) && h in pending
      modifies this`pending, this`calls
      ensures InDrain(View(), err, goal) && pending == old(pending) - {h}
    {
      DrainStepKeeps(View(), h, err, goal);
      var c := pending[h];
      pending := pending - {h};
      calls := calls[c := Handed(calls[c], err)];
    }

    method Unlock(err: Error, ghost goal: map<Caller, Call>)
      requires InDrain(View(), err, goal) && pending == map[]
      modifies this`once
      ensures Inv(View()) && once.Finished? && calls == goal
    {
      DrainedEmpty(View(), err);
      StepKeepsInv(View(), UnlockTable);
      once := Finished;
    }
  }

  lemma StoreKeeps(s: Sys, err: Error)
    requires Inv(s) && s.once.Fresh?
    ensures Inv(s.(loss := Some(err), once := LossStored(err)))
  {
    StepKeepsInv(s, StoreLoss(err));
  }

  lemma CloseKeeps(s: Sys, err: Error)
    requires Inv(s) && s.once == LossStored(err)
    ensures Inv(s.(closed := true, once := Closing(err)))
  {
    StepKeepsInv(s, CloseChannel);
  }

  lemma LockKeeps(s: Sys, err: Error)
    requires Inv(s) && s.once == Closing(err)
    ensures Inv(s.(once := Draining(err)))
  {
    StepKeepsInv(s, LockTable);
  }

  /** The drain is under way and, once over, will have made the calls what goal says. */
  ghost predicate InDrain(s: Sys, err: Error, goal: map<Caller, Call>) {
    s.once == Draining(err) && Inv(s) && Drained(s, err) == goal
  }

  /** One entry taken out and its caller handed the loss. */
  function Emptied(s: Sys, h: nat, err: Error): Sys
    requires h in s.pending && s.pending[h] in s.calls
  {
    s.(pending := s.pending - {h}, calls := s.calls[s.pending[h] := Handed(s.calls[s.pending[h]], err)])
  }

  lemma DrainStepKeeps(s: Sys, h: nat, err: Error, goal: map<Caller, Call>)
    requires InDrain(s, err, goal) && h in s.pending
    ensures s.pending[h] in s.calls && InDrain(Emptied(s, h, err), err, goal)
  {
    DrainIsStep(s, h, err);
    StepKeepsInv(s, DrainOne(h));
    DrainStep(s, h);
  }

  lemma DrainIsStep(s: Sys, h: nat, err: Error)
    requires CallsOk(s) && TableOk(s) && s.once == Draining(err) && h in s.pending
    ensures s.pending[h] in s.calls && Enabled(s, DrainOne(h)) && Apply(s, DrainOne(h)) == Emptied(s, h, err)
  {
    assert CallOk(s, s.pending[h]);
  }

  function Handed(x: Call, err: Error): Call {
    x.(box := x.box + [Loss(err)], sent := x.sent + 1)
  }

  /** The calls once the rest of the table is drained: each one with an entry has the loss in its channel. */
  function Drained(s: Sys, err: Error): map<Caller, Call> {
    map c | c in s.calls :: if InTable(s, c) then Handed(s.calls[c], err) else s.calls[c]
  }

  /** Every call with an entry in the table has gained the loss in its channel; nothing else has changed. */
  ghost predicate LossHandedOut(before: map<Caller, Call>, table: map<nat, Caller>, after: map<Caller, Call>,
                                err: Error)
  {
    && after.Keys == before.Keys
    && forall c :: c in before ==>
         var h := before[c].k % 0x1_0000_0000;
         if h in table && table[h] == c
         then after[c] == before[c].(box := before[c].box + [Loss(err)], sent := before[c].sent + 1)
         else after[c] == before[c]
  }

  lemma DrainedMeans(s: Sys, err: Error)
    ensures LossHandedOut(s.calls, s.pending, Drained(s, err), err)
  {
  }

  lemma DrainedEmpty(s: Sys, err: Error)
    requires s.pending == map[]
    ensures Drained(s, err) == s.calls
  {
  }

  /** Draining one entry leaves the outcome of the whole drain as it was. */
  lemma DrainStep(s: Sys, h: nat)
    requires TableOk(s) && Enabled(s, DrainOne(h))
    ensures Drained(Apply(s, DrainOne(h)), s.once.err) == Drained(s, s.once.err)
  {
    var s' := Apply(s, DrainOne(h));
    var err := s.once.err;
    forall c | c in s.calls ensures Drained(s', err)[c] == Drained(s, err)[c] {
      if c != s.pending[h] {
        assert InTable(s', c) <==> InTable(s, c);
      }
    }
  }
}
