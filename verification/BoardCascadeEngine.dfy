/** The cascade as it runs: a mutable state table, a stack and a change log. */
module BoardCascadeEngine {
  import opened Common
  import opened BoardCascade

  lemma FinishNone(b: Board, st: States, to: State)
    requires Fits(b, st)
    ensures Finish(st, [], to) == st && Pushes([]) == [] && Finishes(b, st, [], to) == []
  {
  }

  /** Appending one unfinished child appends one finish. */
  lemma FinishOneMore(b: Board, st: States, u: seq<Id>, k: Id, to: State)
    requires Fits(b, st) && k in st && k !in u && forall x :: x in u ==> x in st
    ensures Finish(st, u + [k], to) == Finish(st, u, to)[k := to]
    ensures Finish(st, u, to)[k] == st[k]
    ensures Pushes(u + [k]) == Pushes(u) + [Step(k, false)]
    ensures Finishes(b, st, u + [k], to)
         == Finishes(b, st, u, to) + [Change(k, b.entries[k].title, st[k], to, ParentFinished)]
  {
  }

  lemma RunUnfolds(b: Board, c: Config, fuel: nat)
    requires WellFormed(b) && Fits(b, c.state)
    ensures Run(b, c, fuel) == if fuel == 0 || c.queue == [] then c else Run(b, Take(b, c), fuel - 1)
  {
    hide Take;
  }

  class TaskBoard {
    const shape: Board
    var state: States

    constructor (shape: Board, state: States)
      ensures this.shape == shape && this.state == state
    {
      this.shape := shape;
      this.state := state;
    }

    /** Groups the live entries under the parent they name, present or not, in table order. */
    method LiveChildren() returns (children: map<Id, seq<Id>>)
      requires WellFormed(shape)
      ensures forall p :: (p in children <==> Kids(shape, p) != []) && (p in children ==> children[p] == Kids(shape, p))
    {
      children := map[];
      for i := 0 to |shape.order|
        invariant forall p :: p in children <==> KidsAmong(shape, shape.order[..i], p) != []
        invariant forall p :: p in children ==> children[p] == KidsAmong(shape, shape.order[..i], p)
      {
        var id := shape.order[i];
        assert shape.order[..i + 1][..i] == shape.order[..i];
        if Live(shape, id) && shape.entries[id].parent.Some? {
          var p := shape.entries[id].parent.value;
          children := children[p := (if p in children then children[p] else []) + [id]];
        }
      }
      assert shape.order[..|shape.order|] == shape.order;
    }

    /** One finished entry finishes its unfinished live children. */
    method PushDown(kids: seq<Id>, to: State, queue: seq<Step>, changes: seq<Change>)
      returns (queue': seq<Step>, changes': seq<Change>)
      requires WellFormed(shape) && Fits(shape, state) && Terminal(to)
      requires Distinct(kids) && forall k :: k in kids ==> k in state
      modifies this
      ensures Fits(shape, state)
      ensures var u := Unfinished(old(state), kids);
        && state == Finish(old(state), u, to)
        && queue' == queue + Pushes(u)
        && changes' == changes + Finishes(shape, old(state), u, to)
    {
      hide Finish, Finishes, Pushes;
      FinishNone(shape, state, to);
      queue', changes' := queue, changes;
      for i := 0 to |kids|
        invariant Fits(shape, state)
        invariant var u := Unfinished(old(state), kids[..i]);
          && state == Finish(old(state), u, to)
          && queue' == queue + Pushes(u)
          && changes' == changes + Finishes(shape, old(state), u, to)
      {
        var k := kids[i];
        assert kids[..i + 1][..i] == kids[..i];
        assert k !in kids[..i];
        FinishOneMore(shape, old(state), Unfinished(old(state), kids[..i]), k, to);
        if !Terminal(state[k]) {
          changes' := changes' + [Change(k, shape.entries[k].title, state[k], to, ParentFinished)];
          state := state[k := to];
          queue' := queue' + [Step(k, false)];
        }
      }
      assert kids[..|kids|] == kids;
    }

    /** Takes the top step off the stack. */
    method TakeStep(children: map<Id, seq<Id>>, stack: seq<Step>, log: seq<Change>)
      returns (queue: seq<Step>, changes: seq<Change>)
      requires WellFormed(shape) && Fits(shape, state) && stack != []
      requires forall p :: (p in children <==> Kids(shape, p) != []) && (p in children ==> children[p] == Kids(shape, p))
      modifies this
      ensures Config(state, queue, changes) == Take(shape, Config(old(state), stack, log))
    {
      var step := stack[|stack| - 1];
      queue, changes := stack[..|stack| - 1], log;
      if !Live(shape, step.id) {
        return;
      }
      if step.derive {
        var settled := SettledState(shape, state, step.id);
        if settled.None? || settled.value == state[step.id] {
          return;
        }
        var reason := if Terminal(settled.value) then ChildrenFinished else ChildReopened;
        changes := changes + [Change(step.id, shape.entries[step.id].title, state[step.id], settled.value, reason)];
        state := state[step.id := settled.value];
        queue := queue + [Step(step.id, false)];
        return;
      }
      if Terminal(state[step.id]) {
        var kids := if step.id in children then children[step.id] else [];
        queue, changes := PushDown(kids, state[step.id], queue, changes);
      } else {
        FinishNone(shape, state, state[step.id]);
      }
      queue := queue + ParentStep(shape, step.id);
    }

    /** The loop over the stack, cut off at the ceiling. */
    method ApplyCascade(written: seq<Id>, orphaned: seq<Id>) returns (changes: seq<Change>)
      requires WellFormed(shape) && Fits(shape, state)
      modifies this
      ensures Fits(shape, state)
      ensures state == Cascade(shape, old(state), written, orphaned).state
      ensures changes == Cascade(shape, old(state), written, orphaned).changes
    {
      hide Take, Run, WellFormed, Fits, Kids, Live;
      var children := LiveChildren();
      changes := [];
      var queue := Seeds(written, orphaned);
      var steps, ceiling := 0, |shape.entries| * 4 + 16;
      while queue != [] && steps < ceiling
        invariant steps <= ceiling && Fits(shape, state)
        invariant Run(shape, Config(state, queue, changes), ceiling - steps)
               == Cascade(shape, old(state), written, orphaned)
        decreases ceiling - steps
      {
        RunUnfolds(shape, Config(state, queue, changes), ceiling - steps);
        steps := steps + 1;
        queue, changes := TakeStep(children, queue, changes);
      }
      RunUnfolds(shape, Config(state, queue, changes), ceiling - steps);
    }
  }
}
