/** The subscription table as it is updated in place, and what each update keeps of the promise. */
module BundleStore {
  import opened Options
  import opened PlanBundle
  import opened BundlePromise
  import opened BundleEffects

  lemma TransferHandsOver(rows: seq<Subscription>, from: nat, to: nat, now: int)
    requires Sound(rows)
    ensures var (after, outcome, moved) := Transfer(rows, from, to, now);
            moved ==> !HoldsBusinessPlan(after, from) && HoldsBusinessPlan(after, to)
  {
    var (after, outcome, moved) := Transfer(rows, from, to, now);
    if moved {
      var k := FindActive(rows, from, Business).value;
      TransferConserves(rows, from, to, now);
      assert IsActive(after[k], to, Business);
      assert forall i :: 0 <= i < |rows| && IsActive(rows[i], rows[k].user, rows[k].kind) ==> i == k;
    }
  }

  /** The owner now holds a personal plan that covers the given one, and nothing else changed. */
  ghost predicate Brings(rows: seq<Subscription>, after: seq<Subscription>, owner: nat, least: Held) {
    OneActive(rows) && KindsFit(rows) ==>
      && OneActive(after) && KindsFit(after) && OnlyPersonal(rows, after, owner)
      && HeldBy(after, owner).Some? && Covers(HeldBy(after, owner).value, least)
  }

  lemma EnsureBrings(rows: seq<Subscription>, owner: nat, plan: PlanCode, endsAt: Option<int>, now: int)
    ensures var (after, outcome) := Ensure(rows, owner, plan, endsAt, now);
            outcome.Done? && IsBusiness(plan) ==> Brings(rows, after, owner, Held(plan, endsAt))
  {
    if OneActive(rows) && KindsFit(rows) && IsBusiness(plan) { EnsureChanges(rows, owner, plan, endsAt, now); }
  }

  class SubscriptionStore {
    var rows: seq<Subscription>

    constructor ()
      ensures rows == [] && Sound(rows)
    {
      rows := [];
    }

    method Find(user: nat, kind: Kind) returns (found: Option<nat>)
      ensures found == FindActive(rows, user, kind)
    {
      var n := |rows|;
      assert rows[..n] == rows;
      while n > 0
        invariant n <= |rows| && FindActive(rows[..n], user, kind) == FindActive(rows, user, kind)
      {
        n := n - 1;
        if IsActive(rows[n], user, kind) { return Some(n); }
        assert rows[..n + 1][..n] == rows[..n];
      }
      return None;
    }

    method EnsureBundle(owner: nat, plan: PlanCode, businessEndsAt: Option<int>, now: int) returns (outcome: Outcome)
      modifies this
      ensures (rows, outcome) == Ensure(old(rows), owner, plan, businessEndsAt, now)
      ensures outcome.Refused? || !IsBusiness(plan) ==> rows == old(rows)
      ensures outcome.Done? && IsBusiness(plan) ==> Brings(old(rows), rows, owner, Held(plan, businessEndsAt))
    {
      EnsureBrings(rows, owner, plan, businessEndsAt, now);
      var bundled := BundledPersonalPlan(plan);
      if bundled.None? { return Done; }
      var current := Find(owner, Personal);
      if current.None? {
        var s := Subscription(bundled.value, Personal, owner, Active, now, businessEndsAt);
        if !ValidPeriod(s) { return Refused; }
        rows := rows + [s];
        return Done;
      }
      var row := rows[current.value];
      var targetPlan := row.plan;
      if Tier(bundled.value) > Tier(row.plan) {
        targetPlan := bundled.value;
      }
      var targetEnds := row.endsAt;
      if row.endsAt.None? {
      } else if businessEndsAt.None? {
        targetEnds := None;
      } else if businessEndsAt.value > row.endsAt.value {
        targetEnds := businessEndsAt;
      }
      if targetPlan == row.plan && targetEnds == row.endsAt {
        assert rows[current.value := row] == rows;
        return Done;
      }
      rows := rows[current.value := row.(plan := targetPlan, endsAt := targetEnds)];
      return Done;
    }

    method TransferPlan(from: nat, to: nat, now: int) returns (outcome: Outcome, moved: bool)
      modifies this
      ensures (rows, outcome, moved) == Transfer(old(rows), from, to, now)
      ensures !moved ==> rows == old(rows)
      ensures old(Sound(rows)) ==>
                Sound(rows) && (moved ==> !HoldsBusinessPlan(rows, from) && HoldsBusinessPlan(rows, to))
    {
      if Sound(rows) {
        TransferSound(rows, from, to, now);
        TransferHandsOver(rows, from, to, now);
      }
      var before := rows;
      var held := Find(to, Business);
      if held.Some? { return Refused, false; }
      var plan := Find(from, Business);
      if plan.None? { return Done, false; }
      var row := rows[plan.value];
      rows := rows[plan.value := row.(user := to)];
      outcome := EnsureBundle(to, row.plan, row.endsAt, now);
      moved := outcome.Done?;
      if !moved { rows := before; }
    }

    /** UPDATE … SET status='canceled' over the active subscriptions of a user and a kind. */
    method CancelActive(user: nat, kind: Kind, at: int)
      modifies this
      ensures rows == Cancel(old(rows), user, kind, at)
    {
      ghost var was := rows;
      for k := 0 to |rows|
        invariant |rows| == |was|
        invariant forall j :: 0 <= j < |was| ==> rows[j] == if j < k then Cancelled(was[j], user, kind, at) else was[j]
      {
        if IsActive(rows[k], user, kind) {
          rows := rows[k := rows[k].(status := Canceled, endsAt := Some(Max(rows[k].startsAt + 1, at)))];
        }
      }
    }

    method GrantPlan(user: nat, kind: Kind, plan: PlanCode, startsAt: int, endsAt: int, now: int)
      returns (outcome: Outcome)
      modifies this
      ensures (rows, outcome) == Grant(old(rows), user, kind, plan, startsAt, endsAt, now)
      ensures outcome.Refused? ==> rows == old(rows)
      ensures old(Sound(rows)) ==>
                (Sound(rows) <==> old(IsCareful(rows, Step.GrantPlan(user, kind, plan, startsAt, endsAt, now))))
      ensures outcome.Done? ==>
                IsTable(old(rows)) ==> IsGranted(old(rows), rows, user, kind, plan, startsAt, endsAt, now)
    {
      if Sound(rows) { GrantKeepsExactly(rows, user, kind, plan, startsAt, endsAt, now); }
      ghost var (after, done) := Grant(rows, user, kind, plan, startsAt, endsAt, now);
      if done.Done? { GrantGives(rows, user, kind, plan, startsAt, endsAt, now, after); }
      var before := rows;
      if !(if kind.Business? then IsBusiness(plan) else IsPersonal(plan)) { return Refused; }
      var running := FindRunning(rows, user, plan, now);
      var s := if running.Some? then rows[running.value].(endsAt := Some(endsAt))
               else Subscription(plan, kind, user, Active, startsAt, Some(endsAt));
      if !ValidPeriod(s) { return Refused; }
      if running.Some? {
        rows := rows[running.value := s];
        outcome := EnsureBundle(user, plan, Some(endsAt), now);
      } else {
        CancelActive(user, kind, startsAt);
        rows := rows + [s];
        outcome := EnsureBundle(user, plan, Some(endsAt), startsAt);
      }
      if outcome.Refused? { rows := before; }
    }

    method FindToWithdraw(user: nat, kind: Kind, now: int) returns (found: Option<nat>)
      ensures found == FindCurrent(rows, user, kind, now)
    {
      var n := |rows|;
      assert rows[..n] == rows;
      while n > 0
        invariant n <= |rows| && FindCurrent(rows[..n], user, kind, now) == FindCurrent(rows, user, kind, now)
      {
        n := n - 1;
        if IsCurrent(rows[n], user, kind, now) { return Some(n); }
        assert rows[..n + 1][..n] == rows[..n];
      }
      return None;
    }

    method WithdrawPlan(user: nat, kind: Kind, now: int) returns (outcome: Outcome)
      modifies this
      ensures (rows, outcome) == Withdraw(old(rows), user, kind, now)
      ensures outcome.Refused? ==> rows == old(rows)
      ensures old(Sound(rows)) ==> (Sound(rows) <==> old(IsCareful(rows, Step.WithdrawPlan(user, kind, now))))
      ensures old(Sound(rows)) && outcome.Done? ==> FindActive(rows, user, kind).None?
    {
      if Sound(rows) {
        StepKeepsExactly(rows, Step.WithdrawPlan(user, kind, now));
        if Withdraw(rows, user, kind, now).1.Done? { WithdrawKeeps(rows, user, kind, now); }
      }
      var found := FindToWithdraw(user, kind, now);
      if found.None? { return Refused; }
      var s := rows[found.value].(status := Canceled, endsAt := Some(now));
      if !ValidPeriod(s) { return Refused; }
      rows := rows[found.value := s];
      return Done;
    }
  }
}
