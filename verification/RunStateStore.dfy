/**
 * The run-state row as the store keeps it.  Each public store operation is one read and one write,
 * between which any other caller may act; the two halves are separate methods here, and each write
 * is shown to be the step the claim protocol takes.
 */
module RunStateStore {
  import opened Options
  import P = ClaimProtocol

  datatype Entity = Entity(
    scope: Option<string>, active: Option<P.Holder>, action: Option<string>,
    dispatchedAt: Option<int>, trigger: Option<string>, outcome: Option<string>, completedAt: Option<int>, etag: nat)

  const BLANK := Entity(None, None, None, None, None, None, None, 0)

  class SchedulerStateStore {
    var row: Option<Entity>
    var next: nat

    constructor ()
      ensures row == None && next == 0
    {
      row, next := None, 0;
    }

    /** What the protocol sees of the row. */
    function View(): Option<P.Row>
      reads this
    {
      if row.None? then None else Some(P.Row(row.value.active, row.value.etag))
    }

    /** The protocol's world agrees with the store, and its caller is at pc. */
    ghost predicate At(w: P.World, c: nat, pc: P.Pc)
      reads this
    {
      w.row == View() && w.next == next && c in w.callers && w.callers[c] == pc
    }

    /** The first half of every operation. */
    method Get() returns (entity: Option<Entity>)
      ensures entity == row
    {
      entity := row;
    }

    /** Every accepted write gives the row an etag it never had. */
    method Write(entity: Entity)
      modifies this
      ensures row == Some(entity.(etag := old(next))) && next == old(next) + 1
    {
      row, next := Some(entity.(etag := next)), next + 1;
    }

    /** The second half of try_claim when the read found no row: create, if there still is none. */
    method ClaimByCreate(token: nat, scope: string, action: string, trigger: string, now: int) returns (won: bool)
      modifies this
      ensures won == old(row).None?
      ensures won ==> row == Some(Entity(Some(scope), Some(P.Placeholder(token)), Some(action), Some(now),
          Some(trigger), None, None, old(next)))
      ensures !won ==> row == old(row) && next == old(next)
      ensures forall w, c | old(At(w, c, P.ClaimCreate(token))) ::
                won == P.StepCaller(w, c).callers[c].Launch? && P.StepCaller(w, c).row == View()
    {
      won := row.None?;
      if won {
        Write(Entity(Some(scope), Some(P.Placeholder(token)), Some(action), Some(now), Some(trigger), None, None, 0));
      }
    }

    /** The second half when it found one: refuse if it was taken, else replace it if its etag is unchanged. */
    method ClaimByUpdate(read: Entity, token: nat, scope: string, action: string, trigger: string, now: int)
      returns (won: bool)
      modifies this
      ensures won == (read.active.None? && old(row).Some? && old(row).value.etag == read.etag)
      ensures won ==> row == Some(Entity(Some(scope), Some(P.Placeholder(token)), Some(action), Some(now),
          Some(trigger),
                                         read.outcome, read.completedAt, old(next)))
      ensures !won ==> row == old(row) && next == old(next)
      ensures forall w, c | read.active.None? && old(At(w, c, P.ClaimUpdate(token, read.etag))) ::
                won == P.StepCaller(w, c).callers[c].Launch? && P.StepCaller(w, c).row == View()
    {
      if read.active.Some? { return false; }
      var entity := read.(scope := Some(scope), active := Some(P.Placeholder(token)), action := Some(action),
                          dispatchedAt := Some(now), trigger := Some(trigger));
      won := row.Some? && row.value.etag == read.etag;
      if won { Write(entity); }
    }

    /** MERGE: only the instance id is written, whatever the row holds by now. */
    method SetActiveInstance(token: nat, id: nat)
      modifies this
      ensures row == Some((if old(row).Some? then old(row).value
          else BLANK).(active := Some(P.Instance(id)), etag := old(next)))
      ensures forall w, c | old(At(w, c, P.SetActive(token, id))) :: P.StepCaller(w, c).row == View()
    {
      Write((if row.Some? then row.value else BLANK).(active := Some(P.Instance(id))));
    }

    /** REPLACE without the instance and action: clears the row whatever it holds by now. */
    method ClearActive(read: Entity, outcome: Option<string>, completedAt: Option<int>, target: P.Holder,
        after: P.After)
      modifies this
      ensures row == Some(Entity(read.scope, None, None, read.dispatchedAt, read.trigger,
                                 if outcome.Some? then outcome else read.outcome,
                                 if completedAt.Some? then completedAt else read.completedAt, old(next)))
      ensures forall w, c | old(At(w, c, P.ClearWrite(target, after))) :: P.StepCaller(w, c).row == View()
    {
      Write(Entity(read.scope, None, None, read.dispatchedAt, read.trigger,
                   if outcome.Some? then outcome else read.outcome,
                   if completedAt.Some? then completedAt else read.completedAt, 0));
    }

    /** A clear that read before a claim undoes the claim, and puts the older dispatch time back. */
    method ClearOverAClaim(token: nat, scope: string, now: int) returns (before: Option<int>, after: Option<int>)
      requires row.Some? && row.value.active.None?
      modifies this
      ensures before == Some(now) && after == old(row).value.dispatchedAt && row.Some? && row.value.active.None?
    {
      var cleaner := Get();
      var claimer := Get();
      var won := ClaimByUpdate(claimer.value, token, scope, "refresh", "scheduled", now);
      before := row.value.dispatchedAt;
      ClearActive(cleaner.value, None, None, P.Placeholder(token), P.ThenStop);
      after := row.value.dispatchedAt;
    }
  }
}
