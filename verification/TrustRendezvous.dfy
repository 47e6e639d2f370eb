/** The rendezvous table with its index by target owner, kept in step with every change. */
module TrustRendezvous {
  import opened Common
  import opened RendezvousTable

  type Index = map<string, set<string>>

  /** The index lists exactly the live rendezvous of each target, and keeps no empty entry. */
  ghost predicate IndexExact(table: Table, index: Index) {
    && (forall t :: t in index ==> index[t] == IdsFor(table, t) && index[t] != {})
    && (forall id :: id in table ==> table[id].targetOwner in index)
  }

  function PutIndex(index: Index, target: string, id: string): Index {
    index[target := (if target in index then index[target] else {}) + {id}]
  }

  function DropIndex(index: Index, target: string, id: string): Index {
    if target !in index then index
    else if index[target] - {id} == {} then index - {target}
    else index[target := index[target] - {id}]
  }

  lemma DropKeepsIndex(table: Table, index: Index, id: string)
    requires IndexExact(table, index) && id in table
    ensures IndexExact(table - {id}, DropIndex(index, table[id].targetOwner, id))
  {
    var t := table[id].targetOwner;
    assert IdsFor(table - {id}, t) == IdsFor(table, t) - {id};
    forall u | u in index && u != t ensures IdsFor(table - {id}, u) == IdsFor(table, u) {
    }
    forall other | other in table - {id} ensures table[other].targetOwner in DropIndex(index, t, id) {
      if table[other].targetOwner == t {
        assert other in IdsFor(table, t) - {id};
      }
    }
  }

  lemma PutKeepsIndex(table: Table, index: Index, id: string, r: Rendezvous)
    requires IndexExact(table, index) && id !in table
    ensures IndexExact(table[id := r], PutIndex(index, r.targetOwner, id))
  {
    var table' := table[id := r];
    assert IdsFor(table', r.targetOwner) == IdsFor(table, r.targetOwner) + {id};
    forall u | u in index && u != r.targetOwner ensures IdsFor(table', u) == IdsFor(table, u) {
    }
    if r.targetOwner !in index {
      assert IdsFor(table, r.targetOwner) == {};
    }
  }

  lemma UpdateKeepsIndex(table: Table, index: Index, id: string, r: Rendezvous)
    requires IndexExact(table, index) && id in table && r.targetOwner == table[id].targetOwner
    ensures IndexExact(table[id := r], index)
  {
    forall u | u in index ensures IdsFor(table[id := r], u) == IdsFor(table, u) {
    }
  }

  lemma IndexedCount(table: Table, index: Index, target: string)
    requires IndexExact(table, index)
    ensures IdsFor(table, target) == if target in index then index[target] else {}
  {
  }

  class Coordinator {
    const limits: Limits
    var rendezvous: Table
    var byTarget: Index

    constructor (limits: Limits)
      ensures Valid() && rendezvous == map[] && this.limits == limits
    {
      this.limits := limits;
      rendezvous, byTarget := map[], map[];
    }

    /** The index lists exactly the live rendezvous of each target; the bounds hold. */
    ghost predicate Valid()
      reads this
    {
      IndexExact(rendezvous, byTarget) && Bounded(rendezvous, limits)
    }

    method Drop(id: string)
      requires IndexExact(rendezvous, byTarget)
      modifies this
      ensures IndexExact(rendezvous, byTarget) && rendezvous == old(rendezvous) - {id}
    {
      hide IndexExact;
      if id in rendezvous {
        var t := rendezvous[id].targetOwner;
        DropKeepsIndex(rendezvous, byTarget, id);
        rendezvous, byTarget := rendezvous - {id}, DropIndex(byTarget, t, id);
      } else {
        assert rendezvous - {id} == rendezvous;
      }
    }

    /** Drops everything that has outlived its time, and nothing else. */
    method Sweep(now: int)
      requires IndexExact(rendezvous, byTarget)
      modifies this
      ensures IndexExact(rendezvous, byTarget) && rendezvous == Young(old(rendezvous), now, limits.ttlMs)
    {
      hide IndexExact;
      var todo := rendezvous.Keys;
      while todo != {}
        invariant IndexExact(rendezvous, byTarget) && todo <= rendezvous.Keys <= old(rendezvous).Keys
        invariant forall id :: id in rendezvous ==> rendezvous[id] == old(rendezvous)[id]
        invariant forall id :: id in old(rendezvous) && id !in todo ==>
          (id in rendezvous <==> old(rendezvous)[id].createdAt > now - limits.ttlMs)
        decreases |todo|
      {
        var id :| id in todo;
        todo := todo - {id};
        if rendezvous[id].createdAt <= now - limits.ttlMs {
          Drop(id);
        }
      }
    }

    method CommitSide(id: string, side: Side, commitment: string) returns (reply: Reply)
      requires IndexExact(rendezvous, byTarget) && id in rendezvous
      modifies this
      ensures IndexExact(rendezvous, byTarget)
      ensures (rendezvous, reply) == CommitIn(old(rendezvous), id, side, commitment, limits.maxAttempts)
    {
      hide IndexExact;
      var r := rendezvous[id];
      var slot, peer := r.At(side), CommitmentOf(r.At(Peer(side)));
      if slot.Some? && slot.value.commitment == commitment {
        assert rendezvous[id := r] == rendezvous;
        return Reply(true, peer, None);
      }
      r := r.(attempts := r.attempts + 1);
      if r.attempts > limits.maxAttempts {
        Drop(id);
        return REFUSED;
      }
      if slot.None? {
        r := r.With(side, Slot(commitment, None));
        reply := Reply(true, peer, None);
      } else {
        reply := REFUSED;
      }
      UpdateKeepsIndex(rendezvous, byTarget, id, r);
      rendezvous := rendezvous[id := r];
    }

    method HandleArm(id: string, initiatorOwner: string, targetOwner: string, commitment: string, now: int)
      returns (reply: Reply)
      requires IndexExact(rendezvous, byTarget)
      modifies this
      ensures IndexExact(rendezvous, byTarget)
      ensures (rendezvous, reply) ==
        ArmIn(old(rendezvous), id, initiatorOwner, targetOwner, commitment, now, limits)
    {
      hide IndexExact, CommitIn;
      if id !in rendezvous {
        if |rendezvous| >= limits.maxRendezvous {
          return REFUSED;
        }
        IndexedCount(rendezvous, byTarget, targetOwner);
        if targetOwner in byTarget {
          NoEmptyEntry(rendezvous, byTarget, targetOwner);
        }
        if targetOwner in byTarget && |byTarget[targetOwner]| >= limits.maxPerTarget {
          return REFUSED;
        }
        var r := Rendezvous(now, initiatorOwner, targetOwner, 0, None, None);
        PutKeepsIndex(rendezvous, byTarget, id, r);
        rendezvous, byTarget := rendezvous[id := r], PutIndex(byTarget, targetOwner, id);
      }
      if rendezvous[id].initiatorOwner != initiatorOwner || rendezvous[id].targetOwner != targetOwner {
        return REFUSED;
      }
      reply := CommitSide(id, Initiator, commitment);
    }

    method HandleJoin(id: string, joiner: string, commitment: string) returns (reply: Reply)
      requires IndexExact(rendezvous, byTarget)
      modifies this
      ensures IndexExact(rendezvous, byTarget)
      ensures (rendezvous, reply) == JoinIn(old(rendezvous), id, joiner, commitment, limits)
    {
      hide IndexExact, CommitIn;
      if id !in rendezvous {
        return REFUSED;
      }
      if rendezvous[id].targetOwner != joiner {
        return REFUSED;
      }
      reply := CommitSide(id, Target, commitment);
    }

    method HandleReveal(id: string, side: Side, secret: string) returns (reply: Reply)
      requires IndexExact(rendezvous, byTarget)
      modifies this`rendezvous
      ensures IndexExact(rendezvous, byTarget)
      ensures (rendezvous, reply) == RevealIn(old(rendezvous), id, side, secret)
    {
      hide IndexExact;
      if id !in rendezvous {
        return REFUSED;
      }
      var r := rendezvous[id];
      var slot := r.At(side);
      assert rendezvous[id := r] == rendezvous;
      if slot.None? {
        return REFUSED;
      }
      if slot.value.secret.None? {
        r := r.With(side, slot.value.(secret := Some(secret)));
        UpdateKeepsIndex(rendezvous, byTarget, id, r);
        rendezvous := rendezvous[id := r];
      }
      return Reply(true, None, RevealOf(r.At(Peer(side))));
    }

    /** One frame: the indexed table does exactly what the plain table would. */
    method Handle(call: Call) returns (reply: Reply)
      requires Valid()
      modifies this
      ensures Valid() && (rendezvous, reply) == Step(old(rendezvous), call, limits)
    {
      hide IndexExact, Bounded, ArmIn, JoinIn, RevealIn;
      StepBounded(rendezvous, call, limits);
      Sweep(call.now);
      match call.op {
        case Arm(id, initiatorOwner, targetOwner, commitment) =>
          reply := HandleArm(id, initiatorOwner, targetOwner, commitment, call.armedAt);
        case Join(id, joiner, commitment) =>
          reply := HandleJoin(id, joiner, commitment);
        case Reveal(id, side, secret) =>
          reply := HandleReveal(id, side, secret);
        case Cancel(id) =>
          Drop(id);
          reply := Reply(true, None, None);
      }
    }

    /** The waiting rendezvous of one target, read off the index: exactly what a scan of the table finds. */
    method Pending(target: string, now: int) returns (out: set<(string, string)>)
      requires Valid()
      modifies this
      ensures Valid() && rendezvous == Young(old(rendezvous), now, limits.ttlMs)
      ensures out == set id | id in IdsFor(rendezvous, target) && Waiting(rendezvous[id]) :: (rendezvous[id].initiatorOwner, id)
    {
      hide IndexExact, Bounded;
      AttemptsBounded(rendezvous, limits);
      SmallerIsBounded(rendezvous, Young(rendezvous, now, limits.ttlMs), limits);
      Sweep(now);
      IndexedCount(rendezvous, byTarget, target);
      out := {};
      if target !in byTarget {
        return;
      }
      var todo := byTarget[target];
      while todo != {}
        invariant todo <= IdsFor(rendezvous, target)
        invariant out == set id | id in IdsFor(rendezvous, target) - todo && Waiting(rendezvous[id])
                               :: (rendezvous[id].initiatorOwner, id)
        decreases |todo|
      {
        var id :| id in todo;
        todo := todo - {id};
        if Waiting(rendezvous[id]) {
          out := out + {(rendezvous[id].initiatorOwner, id)};
        }
      }
    }
  }

  lemma NoEmptyEntry(table: Table, index: Index, target: string)
    requires IndexExact(table, index) && target in index
    ensures index[target] != {}
  {
  }
}
