/** The change log accounts for the cascade: replayed, it gives the new states, and each line is justified. */
module BoardCascadeLog {
  import opened Common
  import opened BoardCascade

  /** The states after the changes of a log, taken in order. */
  function Replay(st: States, log: seq<Change>): States {
    if log == [] then st else Replay(st, log[..|log| - 1])[log[|log| - 1].id := log[|log| - 1].to]
  }

  /** What the rule named by a change asks of the states right before it. */
  ghost predicate Justified(b: Board, st: States, ch: Change)
    requires WellFormed(b) && Fits(b, st)
  {
    && Live(b, ch.id) && ch.title == b.entries[ch.id].title && ch.from == st[ch.id]
    && match ch.reason
       case ChildrenFinished =>
         && !Terminal(ch.from)
         && (exists k :: IsKid(b, ch.id, k)) && (forall k :: IsKid(b, ch.id, k) ==> Terminal(st[k]))
         && (ch.to == Done <==> exists k :: IsKid(b, ch.id, k) && st[k] == Done)
         && (ch.to == Cancelled <==> forall k :: IsKid(b, ch.id, k) ==> st[k] == Cancelled)
       case ChildReopened =>
         Terminal(ch.from) && ch.to == Open && exists k :: IsKid(b, ch.id, k) && !Terminal(st[k])
       case ParentFinished =>
         && !Terminal(ch.from) && Terminal(ch.to)
         && exists p :: Live(b, p) && IsKid(b, p, ch.id) && st[p] == ch.to
  }

  /** Every line of the log, read against the states the lines before it produced, is justified. */
  ghost predicate Accounted(b: Board, st: States, log: seq<Change>)
    requires WellFormed(b) && Fits(b, st)
    ensures Accounted(b, st, log) ==> Fits(b, Replay(st, log))
    decreases |log|
  {
    log != [] ==>
      var n := |log| - 1;
      Accounted(b, st, log[..n]) && Justified(b, Replay(st, log[..n]), log[n])
  }

  lemma AppendOne(b: Board, st: States, log: seq<Change>, ch: Change)
    requires WellFormed(b) && Fits(b, st) && Accounted(b, st, log) && Justified(b, Replay(st, log), ch)
    ensures Accounted(b, st, log + [ch]) && Replay(st, log + [ch]) == Replay(st, log)[ch.id := ch.to]
  {
    hide Justified;
    assert (log + [ch])[..|log|] == log;
  }

  lemma DeriveIsJustified(b: Board, st: States, id: Id)
    requires WellFormed(b) && Fits(b, st) && Live(b, id) && SettledState(b, st, id).Some?
    ensures var to := SettledState(b, st, id).value;
      Justified(b, st, Change(id, b.entries[id].title, st[id], to,
                              if Terminal(to) then ChildrenFinished else ChildReopened))
  {
    hide KidsAmong;
    var kids := Kids(b, id);
    assert kids[0] in kids && IsKid(b, id, kids[0]);
    assert forall k :: k in kids <==> IsKid(b, id, k);
  }

  /** The lines for a finished entry's unfinished children, one by one. */
  lemma {:induction false} FinishesAccounted(b: Board, st: States, log: seq<Change>, id: Id, u: seq<Id>)
    requires WellFormed(b) && Fits(b, st) && Accounted(b, st, log)
    requires var now := Replay(st, log);
      && Live(b, id) && Terminal(now[id]) && Distinct(u)
      && forall k :: k in u ==> IsKid(b, id, k) && !Terminal(now[k])
    ensures var now := Replay(st, log);
      && Accounted(b, st, log + Finishes(b, now, u, now[id]))
      && Replay(st, log + Finishes(b, now, u, now[id])) == Finish(now, u, now[id])
    decreases |u|
  {
    hide Justified, Replay, Accounted;
    var now := Replay(st, log);
    var to := now[id];
    if u == [] {
      assert log + Finishes(b, now, u, to) == log;
      assert Finish(now, u, to) == now;
    } else {
      var n := |u| - 1;
      var k := u[n];
      assert k in u && IsKid(b, id, k) && k !in u[..n];
      FinishesAccounted(b, st, log, id, u[..n]);
      var log' := log + Finishes(b, now, u[..n], to);
      var ch := Change(k, b.entries[k].title, now[k], to, ParentFinished);
      assert log + Finishes(b, now, u, to) == log' + [ch];
      assert Finish(now, u, to) == Finish(now, u[..n], to)[k := to];
      FinishIsJustified(b, Finish(now, u[..n], to), id, k, to);
      AppendOne(b, st, log', ch);
    }
  }

  lemma FinishIsJustified(b: Board, st: States, id: Id, k: Id, to: State)
    requires WellFormed(b) && Fits(b, st) && Live(b, id) && IsKid(b, id, k)
    requires Terminal(to) && st[id] == to && !Terminal(st[k])
    ensures Justified(b, st, Change(k, b.entries[k].title, st[k], to, ParentFinished))
  {
  }

  lemma TakeAccounts(b: Board, st: States, c: Config)
    requires WellFormed(b) && Fits(b, st) && c.queue != []
    requires Accounted(b, st, c.changes) && c.state == Replay(st, c.changes)
    ensures var r := Take(b, c);
      Accounted(b, st, r.changes) && r.state == Replay(st, r.changes)
  {
    hide Justified, Replay, Accounted, SettledState, KidsAmong;
    var step := c.queue[|c.queue| - 1];
    if Live(b, step.id) {
      if !step.derive {
        var u := Downward(b, c.state, step.id);
        if Terminal(c.state[step.id]) {
          FinishesAccounted(b, st, c.changes, step.id, u);
        } else {
          assert Finish(c.state, [], c.state[step.id]) == c.state;
          assert c.changes + Finishes(b, c.state, [], c.state[step.id]) == c.changes;
        }
      } else {
        var settled := SettledState(b, c.state, step.id);
        if settled.Some? {
          DeriveIsJustified(b, c.state, step.id);
          var reason := if Terminal(settled.value) then ChildrenFinished else ChildReopened;
          AppendOne(b, st, c.changes, Change(step.id, b.entries[step.id].title, c.state[step.id], settled.value, reason));
        }
      }
    }
  }

  lemma {:induction false} RunAccounts(b: Board, st: States, c: Config, fuel: nat)
    requires WellFormed(b) && Fits(b, st)
    requires Accounted(b, st, c.changes) && c.state == Replay(st, c.changes)
    ensures var r := Run(b, c, fuel);
      Accounted(b, st, r.changes) && r.state == Replay(st, r.changes)
    decreases fuel
  {
    hide Take, Accounted, Replay;
    if fuel != 0 && c.queue != [] {
      TakeAccounts(b, st, c);
      RunAccounts(b, st, Take(b, c), fuel - 1);
    }
  }

  /**
   On every board, cyclic or not and drained or not, the reported changes are exactly what
   happened: replaying them over the old states gives the new ones, each is justified by the rule
   it names, and trashed entries are never touched.
   */
  lemma CascadeIsAccounted(b: Board, st: States, written: seq<Id>, orphaned: seq<Id>)
    requires WellFormed(b) && Fits(b, st)
    ensures var r := Cascade(b, st, written, orphaned);
      && Accounted(b, st, r.changes) && r.state == Replay(st, r.changes)
      && forall id :: id in st && b.entries[id].trashedAt.Some? ==> r.state[id] == st[id]
  {
    hide Run;
    RunAccounts(b, st, Config(st, Seeds(written, orphaned), []), Ceiling(b));
    OnlyLiveChange(b, st, Cascade(b, st, written, orphaned).changes);
  }

  lemma {:induction false} OnlyLiveChange(b: Board, st: States, log: seq<Change>)
    requires WellFormed(b) && Fits(b, st) && Accounted(b, st, log)
    ensures forall id :: id in st && !Live(b, id) ==> Replay(st, log)[id] == st[id]
    decreases |log|
  {
    if log != [] {
      OnlyLiveChange(b, st, log[..|log| - 1]);
    }
  }
}
