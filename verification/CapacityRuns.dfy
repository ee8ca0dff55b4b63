/** Over every run, no card is ever promised to more than it can hold. */
module CapacityRuns {
  import opened Prelude
  import opened Reservations
  import opened Conflicts
  import opened ReservationService
  import opened Admission
  import opened Scheduler
  import opened Protocol
  import Runs

  lemma ThinsTransitive(a: seq<Row>, b: seq<Row>, c: seq<Row>)
    requires Thins(a, b) && Thins(b, c)
    ensures Thins(a, c)
  {
    forall i | 0 <= i < |a|
      ensures ThinsRow(a[i], c[i])
    {
      assert ThinsRow(a[i], b[i]) && ThinsRow(b[i], c[i]);
    }
  }

  lemma VisitThins(phase: Phase, s: Store, v: nat, m: Moment)
    ensures Thins(s.rows, Visit(phase, s, v, m).rows)
  {
  }

  lemma {:induction false} PhaseThins(phase: Phase, s: Store, order: seq<nat>, m: Moment)
    ensures Thins(s.rows, RunPhase(phase, s, order, m).rows)
  {
    if order != [] {
      var n := |order| - 1;
      PhaseThins(phase, s, order[..n], m);
      var before := RunPhase(phase, s, order[..n], m);
      VisitThins(phase, before, order[n], m);
      ThinsTransitive(s.rows, before.rows, Visit(phase, before, order[n], m).rows);
    }
  }

  lemma TickThins(s: Store, o: Orders, m: Moment)
    ensures Thins(s.rows, Tick(s, o, m).rows)
  {
    var s1 := RunPhase(Promote, s, o.promote, m);
    var s2 := RunPhase(Close, s1, o.close, m);
    var s3 := RunPhase(Dispatch, s2, o.dispatch, m);
    PhaseThins(Promote, s, o.promote, m);
    PhaseThins(Close, s1, o.close, m);
    PhaseThins(Dispatch, s2, o.dispatch, m);
    PhaseThins(Watch, s3, o.watch, m);
    ThinsTransitive(s.rows, s1.rows, s2.rows);
    ThinsTransitive(s.rows, s2.rows, s3.rows);
    ThinsTransitive(s.rows, s3.rows, RunPhase(Watch, s3, o.watch, m).rows);
  }

  lemma CallStepThins(sys: System, step: Step)
    requires IsCallStep(step)
    ensures Thins(sys.store.rows, Next(sys, step).store.rows)
  {
    hide CallStep, StoreStep;
    Runs.CallStepStore(sys, step);
  }

  lemma StoreStepThins(s: Store, step: Step)
    requires !step.CreateBatch? && !step.ModifyOne?
    ensures Thins(s.rows, StoreStep(s, step).rows)
  {
    hide Tick, OrdersCover;
    if step.TickAt? {
      TickThins(s, step.orders, step.moment);
    }
  }

  lemma OtherStepsThin(sys: System, step: Step)
    requires !step.CreateBatch? && !step.ModifyOne?
    ensures Thins(sys.store.rows, Next(sys, step).store.rows)
  {
    hide CallStep, StoreStep, Thins;
    if IsCallStep(step) {
      CallStepThins(sys, step);
    } else {
      StoreStepThins(sys.store, step);
    }
  }

  /** Card sizes stay what they are. */
  predicate FixedCards(step: Step, cards: map<nat, Option<nat>>) {
    match step
    case CreateBatch(_, world) => world.cards == cards
    case ModifyOne(_, _, world, _) => world.cards == cards
    case _ => true
  }

  /** The peaks inside the windows the step writes fit; other steps write no window. */
  ghost predicate StepFits(sys: System, step: Step, cards: map<nat, Option<nat>>) {
    var after := Next(sys, step).store.rows;
    match step
    case CreateBatch(req, world) =>
      CreateAccepts(req, sys.store.rows, world) ==>
        forall i, k :: 0 <= i < |after| && 0 <= k < |req.items| ==> PeakFits(after, i, req.items[k], cards)
    case ModifyOne(id, _, _, _) => EditPeaksFit(after, id, cards)
    case _ => true
  }

  /** One step keeps every card safe exactly when the peaks it writes fit. */
  lemma StepKeepsCapacityExactly(sys: System, step: Step, cards: map<nat, Option<nat>>)
    requires CapacitySafe(sys.store.rows, cards) && FixedCards(step, cards)
    ensures CapacitySafe(Next(sys, step).store.rows, cards) <==> StepFits(sys, step, cards)
  {
    match step
    case CreateBatch(req, world) =>
      if CreateAccepts(req, sys.store.rows, world) {
        CreateCapacityExact(sys.store, req, world);
      }
    case ModifyOne(id, req, world, policy) => ModifyCapacityExact(sys.store, id, req, world, policy);
    case _ =>
      OtherStepsThin(sys, step);
      ThinKeepsSafe(sys.store.rows, Next(sys, step).store.rows, cards);
  }

  lemma StartsSafe(cards: map<nat, Option<nat>>)
    ensures CapacitySafe(INIT.store.rows, cards)
  {
  }

  lemma {:induction false} FittingStepsKeepSafe(run: seq<Step>, k: nat, cards: map<nat, Option<nat>>)
    requires k <= |run|
    requires forall j :: 0 <= j < |run| ==> FixedCards(run[j], cards) && StepFits(After(INIT, run[..j]), run[j], cards)
    ensures CapacitySafe(After(INIT, run[..k]).store.rows, cards)
    decreases k
  {
    hide CapacitySafe, StepFits, Next;
    StartsSafe(cards);
    if k > 0 {
      FittingStepsKeepSafe(run, k - 1, cards);
      Runs.PrefixStep(run, k - 1);
      StepKeepsCapacityExactly(After(INIT, run[..k - 1]), run[k - 1], cards);
    }
  }

  /** Every card is safe at every instant after every step of a run exactly when each step's own peaks fit. */
  lemma RunKeepsCapacityExactly(run: seq<Step>, cards: map<nat, Option<nat>>)
    requires forall k :: 0 <= k < |run| ==> FixedCards(run[k], cards)
    ensures (forall k :: 0 <= k <= |run| ==> CapacitySafe(After(INIT, run[..k]).store.rows, cards))
            <==> forall k :: 0 <= k < |run| ==> StepFits(After(INIT, run[..k]), run[k], cards)
  {
    hide CapacitySafe, StepFits, Next, After;
    if forall k :: 0 <= k < |run| ==> StepFits(After(INIT, run[..k]), run[k], cards) {
      forall k | 0 <= k <= |run|
        ensures CapacitySafe(After(INIT, run[..k]).store.rows, cards)
      {
        FittingStepsKeepSafe(run, k, cards);
      }
    }
    if forall k :: 0 <= k <= |run| ==> CapacitySafe(After(INIT, run[..k]).store.rows, cards) {
      forall k | 0 <= k < |run|
        ensures StepFits(After(INIT, run[..k]), run[k], cards)
      {
        Runs.PrefixStep(run, k);
        assert CapacitySafe(After(INIT, run[..k]).store.rows, cards) && CapacitySafe(After(INIT, run[..k + 1]).store.rows, cards);
        StepKeepsCapacityExactly(After(INIT, run[..k]), run[k], cards);
      }
    }
  }

  /**
   What is enough for the callers to owe: card sizes stay as they are, the items of one batch keep apart on each
   card, and a refused edit that is nevertheless committed wrote no peak that does not fit.
   */
  ghost predicate Disciplined(sys: System, step: Step, cards: map<nat, Option<nat>>) {
    match step
    case CreateBatch(req, world) => world.cards == cards && ItemsApart(req.items)
    case ModifyOne(id, req, world, policy) =>
      && world.cards == cards
      && (policy == CommitDirty && Modify(sys.store, id, req, world, policy).1.Some? ==>
            EditPeaksFit(Next(sys, step).store.rows, id, cards))
    case _ => true
  }

  lemma DisciplineFits(sys: System, step: Step, cards: map<nat, Option<nat>>)
    requires CapacitySafe(sys.store.rows, cards) && Disciplined(sys, step, cards)
    ensures FixedCards(step, cards) && StepFits(sys, step, cards)
  {
    StepKeepsCapacityExactly(sys, step, cards);
    match step
    case CreateBatch(req, world) =>
      if CreateAccepts(req, sys.store.rows, world) {
        CreateKeepsCapacity(sys.store, req, world);
      }
    case ModifyOne(id, req, world, policy) =>
      if policy == RollBack || Modify(sys.store, id, req, world, policy).1.None? {
        ModifyKeepsCapacity(sys.store, id, req, world, policy);
      }
    case _ =>
  }

  /** At every instant of every card, after every disciplined run, the live stack fits. */
  lemma {:induction false} RunKeepsCapacity(run: seq<Step>, cards: map<nat, Option<nat>>)
    requires forall k :: 0 <= k < |run| ==> Disciplined(After(INIT, run[..k]), run[k], cards)
    ensures CapacitySafe(After(INIT, run).store.rows, cards)
  {
    hide CapacitySafe, StepFits, Next, Disciplined;
    StartsSafe(cards);
    if run != [] {
      var n := |run| - 1;
      forall k | 0 <= k < n
        ensures Disciplined(After(INIT, run[..n][..k]), run[..n][k], cards)
      {
        assert run[..n][..k] == run[..k];
      }
      RunKeepsCapacity(run[..n], cards);
      DisciplineFits(After(INIT, run[..n]), run[n], cards);
      StepKeepsCapacityExactly(After(INIT, run[..n]), run[n], cards);
    }
  }
}
