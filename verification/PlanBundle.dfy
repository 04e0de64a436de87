/** A business plan comes with a personal plan of its tier: the merge of the two, the transfer of a
    business plan, and the promise that every run of them keeps. */
module PlanBundle {
  import opened Options

  datatype PlanCode =
    | Free | PersonalStart | PersonalPlus | PersonalPro | BusinessStart | BusinessPlus | BusinessPro
    | Other(code: string)

  datatype Kind = Personal | Business

  datatype Status = Active | Canceled | Expired

  /** A subscription is known by its place in the table. */
  datatype Subscription = Subscription(
    plan: PlanCode, kind: Kind, user: nat, status: Status, startsAt: int, endsAt: Option<int>)

  function Tier(plan: PlanCode): nat {
    match plan
    case PersonalStart => 1
    case BusinessStart => 1
    case PersonalPlus => 2
    case BusinessPlus => 2
    case PersonalPro => 3
    case BusinessPro => 3
    case _ => 0
  }

  function BundledPersonalPlan(plan: PlanCode): (bundled: Option<PlanCode>)
    ensures bundled.Some? ==> Tier(bundled.value) == Tier(plan) > 0 && IsPersonal(bundled.value)
  {
    match plan
    case BusinessStart => Some(PersonalStart)
    case BusinessPlus => Some(PersonalPlus)
    case BusinessPro => Some(PersonalPro)
    case _ => None
  }

  predicate IsPersonal(plan: PlanCode) {
    plan.Free? || plan.PersonalStart? || plan.PersonalPlus? || plan.PersonalPro? || plan.Other?
  }

  predicate IsBusiness(plan: PlanCode) {
    BundledPersonalPlan(plan).Some?
  }

  // ----- the join of two plans -----

  /** No end is the latest end. */
  predicate NoLater(a: Option<int>, b: Option<int>) {
    b.None? || (a.Some? && a.value <= b.value)
  }

  function Later(a: Option<int>, b: Option<int>): Option<int> {
    if NoLater(a, b) then b else a
  }

  datatype Held = Held(plan: PlanCode, endsAt: Option<int>)

  /** a is at least as strong as b, and ends no earlier. */
  predicate Covers(a: Held, b: Held) {
    Tier(b.plan) <= Tier(a.plan) && NoLater(b.endsAt, a.endsAt)
  }

  /** The personal plan after a business plan was granted to its holder. */
  function Merged(held: Option<Held>, bundled: PlanCode, endsAt: Option<int>): Held {
    match held
    case None => Held(bundled, endsAt)
    case Some(h) =>
      Held(if Tier(bundled) > Tier(h.plan) then bundled else h.plan, Later(endsAt, h.endsAt))
  }

  // ----- the operations -----

  datatype Outcome = Done | Refused

  predicate IsActive(s: Subscription, user: nat, kind: Kind) {
    s.user == user && s.kind == kind && s.status.Active?
  }

  /** The active subscription of a user and a kind. */
  function FindActive(rows: seq<Subscription>, user: nat, kind: Kind): (found: Option<nat>)
    ensures found.Some? ==> found.value < |rows| && IsActive(rows[found.value], user, kind)
    ensures found.None? ==> forall k :: 0 <= k < |rows| ==> !IsActive(rows[k], user, kind)
  {
    if rows == [] then None
    else if IsActive(rows[|rows| - 1], user, kind) then Some(|rows| - 1)
    else FindActive(rows[..|rows| - 1], user, kind)
  }

  predicate ValidPeriod(s: Subscription) {
    s.endsAt.Some? ==> s.startsAt < s.endsAt.value
  }

  function HeldOf(s: Subscription): Held {
    Held(s.plan, s.endsAt)
  }

  /** The rows once the owner's active personal plan covers the given business plan. */
  function Ensure(rows: seq<Subscription>, owner: nat, plan: PlanCode, endsAt: Option<int>, now: int):
    (seq<Subscription>, Outcome)
  {
    match BundledPersonalPlan(plan)
    case None => (rows, Done)
    case Some(bundled) =>
      match FindActive(rows, owner, Personal)
      case None =>
        var s := Subscription(bundled, Personal, owner, Active, now, endsAt);
        if ValidPeriod(s) then (rows + [s], Done) else (rows, Refused)
      case Some(k) =>
        var merged := Merged(Some(HeldOf(rows[k])), bundled, endsAt);
        (rows[k := rows[k].(plan := merged.plan, endsAt := merged.endsAt)], Done)
  }

  predicate HoldsBusinessPlan(rows: seq<Subscription>, user: nat) {
    FindActive(rows, user, Business).Some?
  }

  /** The rows with the sender's active business plan under the other user's name, whether one moved, and
      no change for a user who holds one already. */
  function Transfer(rows: seq<Subscription>, from: nat, to: nat, now: int): (seq<Subscription>, Outcome, bool) {
    if HoldsBusinessPlan(rows, to) then (rows, Refused, false)
    else
      match FindActive(rows, from, Business)
      case None => (rows, Done, false)
      case Some(k) =>
        var (after, outcome) := Ensure(rows[k := rows[k].(user := to)], to, rows[k].plan, rows[k].endsAt, now);
        if outcome.Done? then (after, Done, true) else (rows, Refused, false)
  }

  predicate IsRunning(s: Subscription, user: nat, plan: PlanCode, now: int) {
    s.user == user && s.plan == plan && s.status.Active? && (s.endsAt.Some? ==> now < s.endsAt.value)
  }

  function FindRunning(rows: seq<Subscription>, user: nat, plan: PlanCode, now: int): (found: Option<nat>)
    ensures found.Some? ==> found.value < |rows| && IsRunning(rows[found.value], user, plan, now)
  {
    if rows == [] then None
    else if IsRunning(rows[|rows| - 1], user, plan, now) then Some(|rows| - 1)
    else FindRunning(rows[..|rows| - 1], user, plan, now)
  }

  function Max(a: int, b: int): int {
    if a < b then b else a
  }

  function Cancelled(s: Subscription, user: nat, kind: Kind, at: int): Subscription {
    if IsActive(s, user, kind) then s.(status := Canceled, endsAt := Some(Max(s.startsAt + 1, at))) else s
  }

  function Cancel(rows: seq<Subscription>, user: nat, kind: Kind, at: int): seq<Subscription> {
    seq(|rows|, k requires 0 <= k < |rows| => Cancelled(rows[k], user, kind, at))
  }

  /** Extends the user's running subscription of the plan, or replaces what they hold of its kind, and
      then brings the personal plan along. */
  function Grant(rows: seq<Subscription>, user: nat, kind: Kind, plan: PlanCode, startsAt: int, endsAt: int, now: int):
    (seq<Subscription>, Outcome)
  {
    if !(if kind.Business? then IsBusiness(plan) else IsPersonal(plan)) then (rows, Refused)
    else
      match FindRunning(rows, user, plan, now)
      case Some(k) =>
        var s := rows[k].(endsAt := Some(endsAt));
        if !ValidPeriod(s) then (rows, Refused)
        else
          var (after, outcome) := Ensure(rows[k := s], user, plan, Some(endsAt), now);
          (if outcome.Done? then after else rows, outcome)
      case None =>
        var s := Subscription(plan, kind, user, Active, startsAt, Some(endsAt));
        if !ValidPeriod(s) then (rows, Refused)
        else
          var (after, outcome) := Ensure(Cancel(rows, user, kind, startsAt) + [s], user, plan, Some(endsAt), startsAt);
          (if outcome.Done? then after else rows, outcome)
  }

  /** The subscription of a user and a kind that runs at a time. */
  function FindCurrent(rows: seq<Subscription>, user: nat, kind: Kind, now: int): (found: Option<nat>)
    ensures found.Some? ==> found.value < |rows| && IsCurrent(rows[found.value], user, kind, now)
    ensures found.None? ==> forall k :: 0 <= k < |rows| ==> !IsCurrent(rows[k], user, kind, now)
  {
    if rows == [] then None
    else if IsCurrent(rows[|rows| - 1], user, kind, now) then Some(|rows| - 1)
    else FindCurrent(rows[..|rows| - 1], user, kind, now)
  }

  predicate IsCurrent(s: Subscription, user: nat, kind: Kind, now: int) {
    IsActive(s, user, kind) && s.startsAt <= now && (s.endsAt.Some? ==> now < s.endsAt.value)
  }

  /** Ends the running subscription of a user and a kind now. */
  function Withdraw(rows: seq<Subscription>, user: nat, kind: Kind, now: int): (seq<Subscription>, Outcome) {
    match FindCurrent(rows, user, kind, now)
    case None => (rows, Refused)
    case Some(k) =>
      var s := rows[k].(status := Canceled, endsAt := Some(now));
      if ValidPeriod(s) then (rows[k := s], Done) else (rows, Refused)
  }
}
