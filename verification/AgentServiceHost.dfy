/** The service object: it holds one owner's catalog and changes it only through the transitions. */
module AgentServiceHost {
  import opened AgentRecord
  import opened AgentSchema
  import opened AgentReducers
  import opened AgentService
  import opened AgentRuns

  class CodexAgentService {
    var catalog: Catalog

    constructor (restored: Catalog)
      requires CatalogOk(restored)
      ensures catalog == restored && CatalogOk(catalog)
    {
      catalog := restored;
    }

    /** Start, message or stop. Only `Committed` lets the caller dispatch. */
    method Begin(s: Step) returns (answer: BeginOutcome)
      requires CatalogOk(catalog) && (s.StepStart? || s.StepMessage? || s.StepStop?)
      modifies this
      ensures catalog == Next(old(catalog), s) && answer == Answer(old(catalog), s)
      ensures CatalogOk(catalog) && CatalogEvolves(old(catalog), catalog)
      ensures answer.Committed? ==> Unclaimed(old(catalog), s.i.operationId) && !Unclaimed(catalog, s.i.operationId)
      ensures answer.ReplayedOp? || answer.IndeterminateOp? ==> catalog == old(catalog)
    {
      hide CatalogOk, CatalogEvolves, Unclaimed, NewAgent, WithMessage, WithStop, HistoryOk, SchemaOk;
      StepSound(catalog, s);
      if !Unclaimed(catalog, s.i.operationId) {
        ClaimedAnswersReplay(catalog, s, s.i.operationId);
      }
      if Answer(catalog, s).Committed? {
        CommittedClaims(catalog, s, s.i.operationId);
      }
      match s {
        case StepStart(i, target, env) =>
          var (next, result) := BeginStart(catalog, i, target, env);
          catalog, answer := next, result;
        case StepMessage(i, env) =>
          var (next, result) := BeginMessage(catalog, i, env);
          catalog, answer := next, result;
        case StepStop(i, env) =>
          var (next, result) := BeginStop(catalog, i, env);
          catalog, answer := next, result;
      }
    }

    /** One daemon event or receipt. */
    method Apply(s: Step) returns (disposition: Disposition)
      requires CatalogOk(catalog)
      requires s.StepAccept? || s.StepReject? || s.StepInterrupt? || s.StepEvent? || s.StepReconcile?
      modifies this
      ensures catalog == Next(old(catalog), s) && disposition == Reaction(old(catalog), s)
      ensures CatalogOk(catalog) && CatalogEvolves(old(catalog), catalog)
      ensures disposition.Ignored? || disposition.FailedRecord? ==> catalog == old(catalog)
    {
      hide CatalogOk, CatalogEvolves, AcceptDelivery, ApplyRejection, ApplyInterruptOutcome, ApplyEvent, ApplyReconciliation;
      StepSound(catalog, s);
      AnswersFollowTheWrite(catalog, s);
      match s {
        case StepAccept(agentId, operationId, r, now, env) =>
          var (next, outcome) := AcceptDelivery(catalog, agentId, operationId, r, now, env);
          catalog, disposition := next, DispositionOf(outcome);
        case StepReject(agentId, rejected, now, env) =>
          var (next, result) := ApplyRejection(catalog, agentId, rejected, now, env);
          catalog, disposition := next, result;
        case StepInterrupt(agentId, operationId, threadId, turnId, delivered, fence, now, env) =>
          var (next, result) :=
            ApplyInterruptOutcome(catalog, agentId, operationId, threadId, turnId, delivered, fence, now, env);
          catalog, disposition := next, result;
        case StepEvent(ev, now, env) =>
          var (next, result) := ApplyEvent(catalog, ev, now, env);
          catalog, disposition := next, result;
        case StepReconcile(agentId, threadId, target, turn, turnRuns, fence, now, env) =>
          var (next, result) := ApplyReconciliation(catalog, agentId, threadId, target, turn, turnRuns, fence, now, env);
          catalog, disposition := next, result;
      }
    }

    /** Gives up on a delivery: a prompt still requested becomes indeterminate. */
    method Abandon(agentId: string, operationId: string, now: nat, env: Env)
      requires CatalogOk(catalog)
      modifies this
      ensures catalog == Next(old(catalog), StepAbandon(agentId, operationId, now, env))
      ensures CatalogOk(catalog) && CatalogEvolves(old(catalog), catalog)
    {
      hide CatalogOk, CatalogEvolves, AbandonDelivery;
      StepSound(catalog, StepAbandon(agentId, operationId, now, env));
      catalog := AbandonDelivery(catalog, agentId, operationId, now, env);
    }
  }
}
