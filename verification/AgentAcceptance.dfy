/** Accepting a delivery receipt: the branches of the decision keep one invariant between them. */
module AgentAcceptance {
  import opened Common
  import opened AgentRecord
  import opened AgentReducers
  import opened AgentInvariant
  import opened AgentTransitions

  ghost predicate Paired(a: Agent, o: nat, e: nat) {
    o < |a.operations| && e < |a.exchanges| && a.operations[o].operationId == a.exchanges[e].operationId
  }

  ghost function Decision(a: Agent, o: nat, e: nat, r: Receipt): Verdict
    requires Paired(a, o, e)
  {
    DecideAcceptance(a, a.operations[o], a.exchanges[e], r)
  }

  ghost predicate Known(a: Agent, id: string) {
    TurnIndex(a.turns, id) < |a.turns|
  }

  /** What an acceptance implies: a new turn with none running, a settled turn, or the running turn. */
  lemma AcceptMeans(a: Agent, o: nat, e: nat, r: Receipt)
    requires RecordOk(a) && Paired(a, o, e) && Decision(a, o, e, r).Accept?
    ensures a.operations[o].state.Requested?
    ensures var settled := Decision(a, o, e, r).steeredIntoSettledTurn;
      if r.delivery.Started? then !settled && !Known(a, r.turnId) && a.activeTurnId.None?
      else if settled then
        && Known(a, r.turnId) && !a.turns[TurnIndex(a.turns, r.turnId)].state.InProgress?
        && a.agentState.Idle? && a.activeTurnId.None? && a.operations[o].kind.Message?
      else Known(a, r.turnId) && a.activeTurnId == Some(r.turnId) && a.operations[o].kind.Message?
  {
    hide PairingOk, TurnsMatch, ExchangeShape, PendingOk, WindowsOk, Runs;
    assert a.operations[o].kind.Start? ==> a.operations[o].preDispatch.agentState.Creating?;
  }

  lemma PendingSettles(a: Agent, o: nat, op: Operation)
    requires OnePending(a.operations) && o < |a.operations| && !op.state.Requested? && PendingPrompt(a.operations[o])
    ensures OnePending(a.operations[o := op]) && !HasPendingPrompt(a.operations[o := op])
  {
  }

  /** The first delivery into a turn. */
  lemma StartedOk(a: Agent, o: nat, e: nat, r: Receipt, now: nat)
    requires RecordOk(a) && Paired(a, o, e) && a.operations[o].state.Requested?
    requires r.delivery.Started? && !Known(a, r.turnId) && a.activeTurnId.None?
    ensures Keeps(a, WithAcceptance(a, o, e, r, false, now))
  {
    hide PairingOk, OperationShape, HasStop, HasPendingPrompt, ActivitiesOk, ExchangeShape, TurnsMatch;
    var a' := WithAcceptance(a, o, e, r, false, now);
    PairedPrompt(a, o, e);
    PairingSettled(a.operations, a.exchanges, o, e, a'.operations[o], a'.exchanges[e]);
    PendingSettles(a, o, a'.operations[o]);
    NewTurnMatches(a, e, a'.exchanges[e], a'.turns[|a.turns|]);
    assert a'.turns[|a.turns|].id == r.turnId;
    assert ActivitiesOk([], MAX_ACTIVITIES) by { EmptyWindow(); }
  }

  lemma EmptyWindow()
    ensures ActivitiesOk([], MAX_ACTIVITIES)
  {
  }

  lemma NewTurnMatches(a: Agent, e: nat, ex: Exchange, turn: Turn)
    requires ExchangeShape(a.exchanges) && TurnsMatch(a.turns, a.exchanges) && e < |a.exchanges|
    requires a.exchanges[e].turnId.None? && !Known(a, turn.id)
    requires ExchangeOk(ex) && ex.kind == a.exchanges[e].kind && StartsTurn(ex, turn.id)
    ensures ExchangeShape(a.exchanges[e := ex]) && TurnsMatch(a.turns + [turn], a.exchanges[e := ex])
  {
    var exs, turns := a.exchanges[e := ex], a.turns + [turn];
    assert turns[|a.turns|].id == turn.id;
    forall i | 0 <= i < |exs| && exs[i].turnId.Some? ensures HasTurn(turns, exs[i].turnId.value) {
      if i != e {
        var t :| 0 <= t < |a.turns| && a.turns[t].id == a.exchanges[i].turnId.value;
        assert turns[t].id == exs[i].turnId.value;
      }
    }
    forall t | 0 <= t < |turns| ensures HasStarter(exs, turns[t].id) {
      if t < |a.turns| {
        var i :| 0 <= i < |a.exchanges| && StartsTurn(a.exchanges[i], a.turns[t].id);
        assert StartsTurn(exs[i], turns[t].id);
      } else {
        assert StartsTurn(exs[e], turn.id);
      }
    }
    forall i | 0 <= i < |a.exchanges| && i != e ensures a.exchanges[i].turnId != Some(turn.id) {
      if a.exchanges[i].turnId.Some? {
        assert HasTurn(a.turns, a.exchanges[i].turnId.value);
      }
    }
  }

  /** A delivery into a known turn names it without starting it. */
  lemma SteeredMatches(a: Agent, e: nat, ex: Exchange, turns: seq<Turn>)
    requires ExchangeShape(a.exchanges) && TurnsMatch(a.turns, a.exchanges) && e < |a.exchanges|
    requires a.exchanges[e].turnId.None? && ex.turnId.Some? && Known(a, ex.turnId.value)
    requires ExchangeOk(ex) && ex.kind == a.exchanges[e].kind && ex.delivery == Some(Steered)
    requires |turns| == |a.turns| && forall t :: 0 <= t < |turns| ==> turns[t].id == a.turns[t].id
    ensures ExchangeShape(a.exchanges[e := ex]) && TurnsMatch(turns, a.exchanges[e := ex])
  {
    var exs := a.exchanges[e := ex];
    assert turns[TurnIndex(a.turns, ex.turnId.value)].id == ex.turnId.value;
    forall i | 0 <= i < |exs| && exs[i].turnId.Some? ensures HasTurn(turns, exs[i].turnId.value) {
      if i != e {
        var t :| 0 <= t < |a.turns| && a.turns[t].id == a.exchanges[i].turnId.value;
        assert turns[t].id == exs[i].turnId.value;
      }
    }
    forall t | 0 <= t < |turns| ensures HasStarter(exs, turns[t].id) {
      var i :| 0 <= i < |a.exchanges| && StartsTurn(a.exchanges[i], a.turns[t].id);
      assert StartsTurn(exs[i], turns[t].id);
    }
  }

  /** What holds of a steered acceptance whatever the clock says. */
  ghost predicate OkButForDeliveryTime(a: Agent) {
    && TurnHistoryOk(a) && ExchangesOk(a) && ExchangeTimesOk(a)
    && OperationShape(a.operations) && PairingOk(a.operations, a.exchanges) && PendingOk(a) && WindowsOk(a)
  }

  lemma SteeredKeepsRest(a: Agent, o: nat, e: nat, r: Receipt, settled: bool, now: nat)
    requires RecordOk(a) && Paired(a, o, e) && a.operations[o].state.Requested? && a.operations[o].kind.Message?
    requires r.delivery.Steered? && Known(a, r.turnId)
    requires if settled then a.agentState.Idle? && a.activeTurnId.None? else a.activeTurnId == Some(r.turnId)
    ensures var a' := WithAcceptance(a, o, e, r, settled, now); OkButForDeliveryTime(a') && Evolves(a, a')
  {
    hide PairingOk, OperationShape, HasStop, HasPendingPrompt, ActivitiesOk, ExchangeShape, TurnsMatch, TurnsFollowDeliveries;
    var a' := WithAcceptance(a, o, e, r, settled, now);
    PairedPrompt(a, o, e);
    PairingSettled(a.operations, a.exchanges, o, e, a'.operations[o], a'.exchanges[e]);
    PendingSettles(a, o, a'.operations[o]);
    SteeredMatches(a, e, a'.exchanges[e], a'.turns);
    if !settled {
      assert a'.turns == a.turns;
    }
  }

  /** A settled turn is moved to the acceptance time, so the delivery cannot outrun it. */
  lemma SettledSteerTimes(a: Agent, o: nat, e: nat, r: Receipt, now: nat)
    requires RecordOk(a) && Paired(a, o, e) && Known(a, r.turnId)
    ensures TurnsFollowDeliveries(WithAcceptance(a, o, e, r, true, now))
  {
    hide PairingOk, OperationShape, PendingOk, WindowsOk, ExchangeShape, TurnsMatch;
  }

  /** The running turn is not moved: the delivery is accepted after its last update unless they coincide. */
  lemma RunningSteerTimes(a: Agent, o: nat, e: nat, r: Receipt, now: nat)
    requires RecordOk(a) && Paired(a, o, e) && Known(a, r.turnId) && a.exchanges[e].turnId.None?
    ensures TurnsFollowDeliveries(WithAcceptance(a, o, e, r, false, now)) <==>
      a.turns[TurnIndex(a.turns, r.turnId)].updatedAt == Max(now, a.updatedAt)
  {
    hide PairingOk, OperationShape, PendingOk, WindowsOk, ExchangeShape, TurnsMatch, Runs;
    var a', t := WithAcceptance(a, o, e, r, false, now), TurnIndex(a.turns, r.turnId);
    assert a'.exchanges[e].turnId == Some(a'.turns[t].id);
  }

  /** A steer into the running turn is recordable only in the instant of the turn's last update. */
  ghost predicate SteerMissesItsTurn(a: Agent, o: nat, e: nat, r: Receipt, now: nat)
    requires Paired(a, o, e)
  {
    && Decision(a, o, e, r) == Accept(false) && r.delivery.Steered? && Known(a, r.turnId)
    && a.turns[TurnIndex(a.turns, r.turnId)].updatedAt < Max(now, a.updatedAt)
  }

  /**
   Every accepted receipt yields a record that keeps the invariant and undoes nothing, with exactly
   one exception: a steer into the running turn, unless that turn was last updated at the very
   timestamp of the acceptance. The history check then refuses the record and nothing is stored.
   */
  lemma AcceptanceOk(a: Agent, o: nat, e: nat, r: Receipt, now: nat)
    requires RecordOk(a) && Paired(a, o, e) && Decision(a, o, e, r).Accept?
    ensures var a' := WithAcceptance(a, o, e, r, Decision(a, o, e, r).steeredIntoSettledTurn, now);
      && (HistoryOk(a') <==> !SteerMissesItsTurn(a, o, e, r, now))
      && (HistoryOk(a') ==> Keeps(a, a'))
  {
    hide RecordOk, HistoryOk, Evolves, OkButForDeliveryTime, TurnsFollowDeliveries, DecideAcceptance, WithAcceptance, TurnIndex;
    AcceptMeans(a, o, e, r);
    var settled := Decision(a, o, e, r).steeredIntoSettledTurn;
    var a' := WithAcceptance(a, o, e, r, settled, now);
    if r.delivery.Started? {
      StartedOk(a, o, e, r, now);
      HistoryOfRecord(a');
    } else {
      SteeredKeepsRest(a, o, e, r, settled, now);
      RestAndTime(a');
      if settled {
        SettledSteerTimes(a, o, e, r, now);
      } else {
        SteerTimes(a, o, e, r, now);
      }
    }
  }

  lemma HistoryOfRecord(a: Agent)
    requires RecordOk(a)
    ensures HistoryOk(a)
  {
  }

  lemma RestAndTime(a: Agent)
    requires OkButForDeliveryTime(a)
    ensures (HistoryOk(a) <==> TurnsFollowDeliveries(a)) && (HistoryOk(a) ==> RecordOk(a))
  {
  }

  lemma SteerTimes(a: Agent, o: nat, e: nat, r: Receipt, now: nat)
    requires RecordOk(a) && Paired(a, o, e) && Known(a, r.turnId) && a.operations[o].state.Requested?
    ensures TurnsFollowDeliveries(WithAcceptance(a, o, e, r, false, now)) <==>
      !(a.turns[TurnIndex(a.turns, r.turnId)].updatedAt < Max(now, a.updatedAt))
  {
    PairedPrompt(a, o, e);
    RunningSteerTimes(a, o, e, r, now);
  }
}
