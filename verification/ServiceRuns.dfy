/** Inside every run, the calls of the service take effect: what was booked is there, what was edited or cancelled has changed. */
module ServiceRuns {
  import opened Prelude
  import opened Reservations
  import opened Conflicts
  import opened ReservationService
  import opened Scheduler
  import opened Protocol
  import opened RowHistory
  import opened ServiceRules
  import Runs

  /**
   In every run, a batch that keeps the rules is stored row by row as asked, and whatever follows, its rows stay in the
   table with their card, share and group; a batch that does not changes nothing.
   */
  lemma BookingIsStored(run: seq<Step>, k: nat, i: nat)
    requires k < |run| && run[k].CreateBatch? && i < |run[k].create.items|
    ensures var s, t := After(INIT, run[..k]).store, After(INIT, run[..k + 1]).store;
      var req, item := run[k].create, run[k].create.items[i];
      if BatchKeepsRules(req, s.rows, run[k].world) then
        && |t.rows| == |s.rows| + |req.items| && t.rows[..|s.rows|] == s.rows
        && var r := t.rows[|s.rows| + i];
        && ItemOf(r) == item && r.userId == req.userId && r.groupId == req.groupId && r.status == Scheduled
        && (r.script.Some? <==> req.script.Some? && (i == 0 || req.shareScript))
        && |s.rows| + i < |After(INIT, run).store.rows|
        && var last := After(INIT, run).store.rows[|s.rows| + i];
        && last.gpuId == item.gpuId && last.memoryMb == item.memoryMb && last.sharePct == item.sharePct && last.groupId == req.groupId
      else t == s
  {
    hide After, BatchKeepsRules;
    var sys, req := After(INIT, run[..k]), run[k].create;
    Runs.PrefixStep(run, k);
    CreateAcceptsExactly(req, sys.store.rows, run[k].world);
    assert Next(sys, run[k]).store == Create(sys.store, req, run[k].world);
    hide Next;
    if CreateAccepts(req, sys.store.rows, run[k].world) {
      BatchIsStored(sys.store, req, i);
      hide Inserted;
      Runs.RunEvolves(run, k + 1, |sys.store.rows| + i);
    }
  }

  /** In every run, an edit by the owner of a scheduled row that keeps the rules leaves the row as asked, and only that row. */
  lemma EditTakesEffect(run: seq<Step>, k: nat, e: Row)
    requires k < |run| && run[k].ModifyOne?
    requires var s, id, req := After(INIT, run[..k]).store, run[k].id, run[k].edit;
      && id < |s.rows| && MayEdit(s.rows[id], req) && EditedAs(s.rows[id], e, req) && DbChecks(e)
      && EditKeepsRules(s.rows, id, e, req, run[k].world)
    ensures var s, t := After(INIT, run[..k]).store, After(INIT, run[..k + 1]).store;
      t == Store(s.rows[run[k].id := e], s.audit + [Modified(run[k].id)], s.sent)
  {
    hide After, EditKeepsRules, DbChecks;
    var sys, id, req := After(INIT, run[..k]), run[k].id, run[k].edit;
    Runs.PrefixStep(run, k);
    assert Next(sys, run[k]).store == Modify(sys.store, id, req, run[k].world, run[k].policy).0;
    hide Next, Modify;
    EditSucceedsExactly(sys.store, id, req, run[k].world, run[k].policy);
  }

  /** In every run, a cancel of a live row by its owner or an admin cancels it, and any other changes nothing. */
  lemma CancelTakesEffect(run: seq<Step>, k: nat)
    requires k < |run| && run[k].CancelOne?
    ensures var s, t, id := After(INIT, run[..k]).store, After(INIT, run[..k + 1]).store, run[k].id;
      if id < |s.rows| && Live(s.rows[id]) && (run[k].canAdmin || s.rows[id].userId == run[k].actorId)
      then t == Store(s.rows[id := s.rows[id].(status := Cancelled)], s.audit + [Cancel(id)], s.sent)
      else t == s
  {
    hide After;
    Runs.PrefixStep(run, k);
    CancelSucceedsExactly(After(INIT, run[..k]).store, run[k].id, run[k].actorId, run[k].canAdmin);
    hide CallStep, Tick;
  }

  /** In every run, a group cancel by the owner of the group's first live row or an admin cancels all its live rows, unless a script of it runs. */
  lemma GroupCancelTakesEffect(run: seq<Step>, k: nat)
    requires k < |run| && run[k].CancelMany?
    ensures var s, t, groupId := After(INIT, run[..k]).store, After(INIT, run[..k + 1]).store, run[k].groupId;
      if (exists i: nat :: Leads(s.rows, groupId, i) && (run[k].canAdmin || s.rows[i].userId == run[k].actorId))
         && !exists i :: 0 <= i < |s.rows| && s.rows[i].groupId == groupId && s.rows[i].status == Active
                         && s.rows[i].scriptStatus == Some(ScriptRunning)
      then |t.rows| == |s.rows| && forall i :: 0 <= i < |s.rows| ==> CancelledWith(s.rows[i], t.rows[i], groupId)
      else t == s
  {
    hide After, Leads, CancelledWith;
    var sys := After(INIT, run[..k]);
    Runs.PrefixStep(run, k);
    assert Next(sys, run[k]).store == CancelRows(sys.store, run[k].groupId, run[k].actorId, run[k].canAdmin).0;
    hide Next, CancelRows, InGroup;
    GroupCancelExactly(sys.store, run[k].groupId, run[k].actorId, run[k].canAdmin);
  }
}
