/** What a grant, a transfer and a withdrawal leave, and exactly when they are refused. */
module BundleEffects {
  import opened Options
  import opened PlanBundle
  import opened BundlePromise

  /** The subscription of the plan is active and has not run out. */
  predicate RunsAt(s: Subscription, user: nat, plan: PlanCode, now: int) {
    s.user == user && s.plan == plan && s.status == Active && (s.endsAt.None? || s.endsAt.value > now)
  }

  predicate IsKindOf(plan: PlanCode, kind: Kind) {
    kind.Business? <==> plan.BusinessStart? || plan.BusinessPlus? || plan.BusinessPro?
  }

  /** What the database enforces: one active plan of a kind for a user, and plans of their own kind. */
  ghost predicate IsTable(rows: seq<Subscription>) {
    OneActive(rows) && KindsFit(rows)
  }

  lemma KindIsOfPlan(plan: PlanCode, kind: Kind)
    ensures IsKindOf(plan, kind) <==> if kind.Business? then IsBusiness(plan) else IsPersonal(plan)
  {}

  lemma RunningIsOne(rows: seq<Subscription>, user: nat, plan: PlanCode, now: int, k: nat)
    requires IsTable(rows) && k < |rows| && RunsAt(rows[k], user, plan, now)
    ensures FindRunning(rows, user, plan, now) == Some(k)
  {
    RunningIsFound(rows, user, plan, now, k);
    var o := FindRunning(rows, user, plan, now).value;
    KindIsOfPlan(plan, rows[k].kind);
    KindIsOfPlan(plan, rows[o].kind);
    assert IsActive(rows[o], rows[k].user, rows[k].kind);
  }

  lemma {:induction false} RunningIsFound(rows: seq<Subscription>, user: nat, plan: PlanCode, now: int, k: nat)
    requires k < |rows| && RunsAt(rows[k], user, plan, now)
    ensures FindRunning(rows, user, plan, now).Some?
  {
    if k < |rows| - 1 { RunningIsFound(rows[..|rows| - 1], user, plan, now, k); }
  }

  lemma NoneRunning(rows: seq<Subscription>, user: nat, plan: PlanCode, now: int)
    requires forall k :: 0 <= k < |rows| ==> !RunsAt(rows[k], user, plan, now)
    ensures FindRunning(rows, user, plan, now).None?
  {
    assert forall k :: 0 <= k < |rows| ==> (IsRunning(rows[k], user, plan, now) <==> RunsAt(rows[k], user, plan, now));
  }

  // ----- grants -----

  /** The user holds a personal plan that covers the given one. */
  predicate HoldsCover(rows: seq<Subscription>, user: nat, least: Held) {
    HeldBy(rows, user).Some? && Covers(HeldBy(rows, user).value, least)
  }

  /** The running row now ends at endsAt. It is still the active one, no other row of its kind is touched,
      and no row but the user's personal ones is. */
  ghost predicate Renews(
    rows: seq<Subscription>, after: seq<Subscription>, user: nat, kind: Kind, k: nat, endsAt: int)
  {
    && k < |rows| <= |after|
    && after[k] == rows[k].(endsAt := Some(endsAt)) && FindActive(after, user, kind) == Some(k)
    && (forall j :: 0 <= j < |rows| && j != k && (kind.Personal? || !IsActive(rows[j], user, Personal)) ==>
          after[j] == rows[j])
    && forall j :: |rows| <= j < |after| ==> kind.Business? && IsActive(after[j], user, Personal)
  }

  /** What the user held of the kind is cancelled, and a new row begins; no other row is touched but the
      user's personal ones. */
  ghost predicate Replaces(rows: seq<Subscription>, after: seq<Subscription>, user: nat, s: Subscription) {
    && |rows| < |after| && after[|rows|] == s && FindActive(after, user, s.kind) == Some(|rows|)
    && (forall j :: 0 <= j < |rows| && IsActive(rows[j], user, s.kind) ==>
          && after[j].status == Canceled && after[j] == rows[j].(status := Canceled, endsAt := after[j].endsAt)
          && after[j].endsAt == Some(if rows[j].startsAt + 1 > s.startsAt then rows[j].startsAt + 1 else s.startsAt))
    && (forall j :: 0 <= j < |rows| && !IsActive(rows[j], user, s.kind) && !IsActive(rows[j], user, Personal) ==>
          after[j] == rows[j])
    && forall j :: |rows| < j < |after| ==> s.kind.Business? && IsActive(after[j], user, Personal)
  }

  lemma ExtendedIsTable(rows: seq<Subscription>, user: nat, kind: Kind, k: nat, s: Subscription)
    requires IsTable(rows) && k < |rows| && IsActive(rows[k], user, kind)
    requires s == rows[k].(endsAt := s.endsAt)
    ensures IsTable(rows[k := s]) && FindActive(rows[k := s], user, kind) == Some(k)
  {
    var after := rows[k := s];
    forall i, j | 0 <= i < |after| && 0 <= j < |after| && after[i].status.Active?
                  && IsActive(after[j], after[i].user, after[i].kind)
      ensures i == j
    {
      assert rows[i].status.Active? && IsActive(rows[j], rows[i].user, rows[i].kind);
    }
    ActiveIsFound(after, k, user, kind);
  }

  lemma ReplacedIsTable(rows: seq<Subscription>, s: Subscription)
    requires IsTable(rows) && s.status == Active && IsKindOf(s.plan, s.kind)
    ensures var ready := Cancel(rows, s.user, s.kind, s.startsAt) + [s];
            IsTable(ready) && FindActive(ready, s.user, s.kind) == Some(|rows|)
  {
    CancelKeeps(rows, s.user, s.kind, s.startsAt);
    KindIsOfPlan(s.plan, s.kind);
    AddKeeps(Cancel(rows, s.user, s.kind, s.startsAt), s);
    ActiveIsFound(Cancel(rows, s.user, s.kind, s.startsAt) + [s], |rows|, s.user, s.kind);
  }

  /** Bringing the personal plan along leaves a business plan where it is. */
  lemma EnsureKeepsActive(
    ready: seq<Subscription>, user: nat, plan: PlanCode, endsAt: Option<int>, at: int, k: nat, after: seq<Subscription>)
    requires IsTable(ready) && k < |ready| && IsActive(ready[k], user, Business) && IsBusiness(plan)
    requires Ensure(ready, user, plan, endsAt, at) == (after, Done)
    ensures OnlyPersonal(ready, after, user) && after[k] == ready[k] && FindActive(after, user, Business) == Some(k)
    ensures HoldsCover(after, user, Held(plan, endsAt))
  {
    EnsureChanges(ready, user, plan, endsAt, at);
    ActiveIsFound(after, k, user, Business);
  }

  lemma RenewalIs(
    rows: seq<Subscription>, user: nat, kind: Kind, plan: PlanCode, startsAt: int, endsAt: int, now: int, k: nat,
    after: seq<Subscription>)
    requires IsTable(rows) && k < |rows| && RunsAt(rows[k], user, plan, now)
    requires Grant(rows, user, kind, plan, startsAt, endsAt, now) == (after, Done)
    ensures Renews(rows, after, user, kind, k, endsAt)
    ensures kind.Business? ==> HoldsCover(after, user, Held(plan, Some(endsAt)))
  {
    RunningIsOne(rows, user, plan, now, k);
    KindIsOfPlan(plan, kind);
    KindIsOfPlan(plan, rows[k].kind);
    var s := rows[k].(endsAt := Some(endsAt));
    ExtendedIsTable(rows, user, kind, k, s);
    if kind.Business? {
      EnsureKeepsActive(rows[k := s], user, plan, Some(endsAt), now, k, after);
    }
  }

  lemma ReplacementIs(
    rows: seq<Subscription>, user: nat, kind: Kind, plan: PlanCode, startsAt: int, endsAt: int, now: int,
    after: seq<Subscription>)
    requires IsTable(rows) && forall k :: 0 <= k < |rows| ==> !RunsAt(rows[k], user, plan, now)
    requires Grant(rows, user, kind, plan, startsAt, endsAt, now) == (after, Done)
    ensures Replaces(rows, after, user, Subscription(plan, kind, user, Active, startsAt, Some(endsAt)))
    ensures kind.Business? ==> HoldsCover(after, user, Held(plan, Some(endsAt)))
  {
    NoneRunning(rows, user, plan, now);
    KindIsOfPlan(plan, kind);
    var s := Subscription(plan, kind, user, Active, startsAt, Some(endsAt));
    var ready := Cancel(rows, user, kind, startsAt) + [s];
    ReplacedIsTable(rows, s);
    if kind.Business? {
      EnsureKeepsActive(ready, user, plan, Some(endsAt), startsAt, |rows|, after);
    }
  }

  /** A grant renews the running row of the plan or replaces what was held of its kind, and its user holds a
      personal plan that covers a business plan. */
  ghost predicate IsGranted(
    rows: seq<Subscription>, after: seq<Subscription>, user: nat, kind: Kind, plan: PlanCode, startsAt: int,
    endsAt: int, now: int)
  {
    && (forall k :: 0 <= k < |rows| && RunsAt(rows[k], user, plan, now) ==>
          Renews(rows, after, user, kind, k, endsAt))
    && ((forall k :: 0 <= k < |rows| ==> !RunsAt(rows[k], user, plan, now)) ==>
          Replaces(rows, after, user, Subscription(plan, kind, user, Active, startsAt, Some(endsAt))))
    && (kind.Business? ==> HoldsCover(after, user, Held(plan, Some(endsAt))))
  }

  lemma GrantGives(
    rows: seq<Subscription>, user: nat, kind: Kind, plan: PlanCode, startsAt: int, endsAt: int, now: int,
    after: seq<Subscription>)
    requires Grant(rows, user, kind, plan, startsAt, endsAt, now) == (after, Done)
    ensures IsTable(rows) ==> IsGranted(rows, after, user, kind, plan, startsAt, endsAt, now)
  {
    if IsTable(rows) {
      forall k | 0 <= k < |rows| && RunsAt(rows[k], user, plan, now)
        ensures Renews(rows, after, user, kind, k, endsAt)
        ensures kind.Business? ==> HoldsCover(after, user, Held(plan, Some(endsAt)))
      {
        RenewalIs(rows, user, kind, plan, startsAt, endsAt, now, k, after);
      }
      if forall k :: 0 <= k < |rows| ==> !RunsAt(rows[k], user, plan, now) {
        ReplacementIs(rows, user, kind, plan, startsAt, endsAt, now, after);
      }
    }
  }

  predicate IsEmptyPeriod(startsAt: int, endsAt: Option<int>) {
    endsAt.Some? && endsAt.value <= startsAt
  }

  predicate Lacks(rows: seq<Subscription>, user: nat, kind: Kind) {
    forall j :: 0 <= j < |rows| ==> !(rows[j].user == user && rows[j].kind == kind && rows[j].status == Active)
  }

  lemma LacksIsNone(rows: seq<Subscription>, user: nat, kind: Kind)
    ensures Lacks(rows, user, kind) <==> FindActive(rows, user, kind).None?
  {}

  /** The personal plan is refused only when it would be a new row with an empty period. */
  lemma EnsureRefuses(rows: seq<Subscription>, owner: nat, plan: PlanCode, endsAt: Option<int>, now: int)
    ensures Ensure(rows, owner, plan, endsAt, now).1.Refused? <==>
            IsBusiness(plan) && Lacks(rows, owner, Personal) && IsEmptyPeriod(now, endsAt)
  {
    LacksIsNone(rows, owner, Personal);
  }

  /** A new personal row has the tier of the business plan and its end, and starts now. */
  lemma EnsureAdds(
    rows: seq<Subscription>, owner: nat, plan: PlanCode, endsAt: Option<int>, now: int, after: seq<Subscription>)
    requires IsBusiness(plan) && Lacks(rows, owner, Personal) && Ensure(rows, owner, plan, endsAt, now) == (after, Done)
    ensures |after| == |rows| + 1 && after[..|rows|] == rows
    ensures var s := after[|rows|];
            && s == Subscription(s.plan, Personal, owner, Active, now, endsAt)
            && IsPersonal(s.plan) && Tier(s.plan) == Tier(plan)
  {
    LacksIsNone(rows, owner, Personal);
  }

  /** A grant is refused for a plan of another kind, for an empty period, and for the renewal of a business
      plan into the past when its holder has no personal plan to go with it. */
  lemma GrantRefuses(
    rows: seq<Subscription>, user: nat, kind: Kind, plan: PlanCode, startsAt: int, endsAt: int, now: int)
    requires IsTable(rows)
    ensures var (after, outcome) := Grant(rows, user, kind, plan, startsAt, endsAt, now);
            && (outcome.Refused? ==> after == rows)
            && (outcome.Refused? <==>
                || !IsKindOf(plan, kind)
                || (exists k :: && 0 <= k < |rows| && RunsAt(rows[k], user, plan, now)
                                && (|| IsEmptyPeriod(rows[k].startsAt, Some(endsAt))
                                    || (kind.Business? && Lacks(rows, user, Personal) && endsAt <= now)))
                || ((forall k :: 0 <= k < |rows| ==> !RunsAt(rows[k], user, plan, now)) && endsAt <= startsAt))
  {
    KindIsOfPlan(plan, kind);
    if k :| 0 <= k < |rows| && RunsAt(rows[k], user, plan, now) {
      RunningIsOne(rows, user, plan, now, k);
      forall o | 0 <= o < |rows| && RunsAt(rows[o], user, plan, now) ensures o == k {
        RunningIsOne(rows, user, plan, now, o);
      }
      var ready := rows[k := rows[k].(endsAt := Some(endsAt))];
      EnsureRefuses(ready, user, plan, Some(endsAt), now);
      if IsKindOf(plan, kind) { RenewalLacks(rows, user, plan, kind, k, Some(endsAt)); }
    } else {
      NoneRunning(rows, user, plan, now);
      var s := Subscription(plan, kind, user, Active, startsAt, Some(endsAt));
      EnsureRefuses(Cancel(rows, user, kind, startsAt) + [s], user, plan, Some(endsAt), startsAt);
    }
  }

  lemma RenewalLacks(rows: seq<Subscription>, user: nat, plan: PlanCode, kind: Kind, k: nat, endsAt: Option<int>)
    requires k < |rows|
    ensures Lacks(rows, user, Personal) <==> Lacks(rows[k := rows[k].(endsAt := endsAt)], user, Personal)
  {
    var after := rows[k := rows[k].(endsAt := endsAt)];
    assert forall j :: 0 <= j < |rows| ==>
             rows[j].user == after[j].user && rows[j].kind == after[j].kind && rows[j].status == after[j].status;
  }

  // ----- transfers -----

  /** A transfer is refused exactly when the receiver holds a business plan, or when the plan has run out
      and the receiver holds no personal plan; otherwise it moves the plan, if there is one. */
  lemma TransferDecides(rows: seq<Subscription>, from: nat, to: nat, now: int)
    requires IsTable(rows)
    ensures var (after, outcome, moved) := Transfer(rows, from, to, now);
            && (moved <==> outcome.Done? && !Lacks(rows, from, Business))
            && (outcome.Refused? <==>
                || !Lacks(rows, to, Business)
                || (exists k :: && 0 <= k < |rows| && IsActive(rows[k], from, Business)
                                && IsEmptyPeriod(now, rows[k].endsAt) && Lacks(rows, to, Personal)))
  {
    LacksIsNone(rows, from, Business);
    LacksIsNone(rows, to, Business);
    var found := FindActive(rows, from, Business);
    if found.Some? && Lacks(rows, to, Business) {
      var k := found.value;
      var moved := rows[k := rows[k].(user := to)];
      EnsureRefuses(moved, to, rows[k].plan, rows[k].endsAt, now);
      assert forall j :: 0 <= j < |rows| && j != k ==> moved[j] == rows[j];
      assert Lacks(moved, to, Personal) <==> Lacks(rows, to, Personal);
      forall j | 0 <= j < |rows| && IsActive(rows[j], from, Business) ensures j == k {
        assert IsActive(rows[j], rows[k].user, rows[k].kind);
      }
    }
  }

  // ----- withdrawals -----

  /** The active plan has begun, and has not run out. */
  predicate IsUnderWay(s: Subscription, user: nat, kind: Kind, now: int) {
    && s.user == user && s.kind == kind && s.status == Active && s.startsAt <= now
    && (s.endsAt.None? || s.endsAt.value > now)
  }

  lemma UnderWayIsOne(rows: seq<Subscription>, user: nat, kind: Kind, now: int, k: nat)
    requires IsTable(rows) && k < |rows| && IsUnderWay(rows[k], user, kind, now)
    ensures FindCurrent(rows, user, kind, now) == Some(k)
  {
    assert IsCurrent(rows[k], user, kind, now);
    var o := FindCurrent(rows, user, kind, now).value;
    assert IsActive(rows[o], rows[k].user, rows[k].kind);
  }

  /** A plan that is under way ends now, and nothing else changes; one that began this moment stays. */
  lemma WithdrawalIs(rows: seq<Subscription>, user: nat, kind: Kind, now: int, k: nat)
    requires IsTable(rows) && k < |rows| && IsUnderWay(rows[k], user, kind, now)
    ensures Withdraw(rows, user, kind, now) ==
            if rows[k].startsAt == now then (rows, Refused)
            else (rows[k := rows[k].(status := Canceled, endsAt := Some(now))], Done)
  {
    UnderWayIsOne(rows, user, kind, now, k);
  }

  lemma NothingToWithdraw(rows: seq<Subscription>, user: nat, kind: Kind, now: int)
    requires forall k :: 0 <= k < |rows| ==> !IsUnderWay(rows[k], user, kind, now)
    ensures Withdraw(rows, user, kind, now) == (rows, Refused)
  {
    assert forall k :: 0 <= k < |rows| ==>
             (IsCurrent(rows[k], user, kind, now) <==> IsUnderWay(rows[k], user, kind, now));
  }
}
