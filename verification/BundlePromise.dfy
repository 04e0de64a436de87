/** The promise behind the bundle, over every run of grants, transfers and withdrawals, and the order in
    which grants come. */
module BundlePromise {
  import opened Options
  import opened PlanBundle

  // ----- the promise -----

  ghost predicate OneActive(rows: seq<Subscription>) {
    forall i, j ::
      (&& 0 <= i < |rows| && 0 <= j < |rows| && rows[i].status.Active?
       && IsActive(rows[j], rows[i].user, rows[i].kind)) ==>
        i == j
  }

  ghost predicate KindsFit(rows: seq<Subscription>) {
    forall k :: 0 <= k < |rows| ==>
      if rows[k].kind.Business? then IsBusiness(rows[k].plan) else IsPersonal(rows[k].plan)
  }

  /** Whoever holds the business plan of row k holds a personal plan that covers it. */
  ghost predicate IsCovered(rows: seq<Subscription>, k: nat)
    requires k < |rows|
  {
    var found := FindActive(rows, rows[k].user, Personal);
    found.Some? && Covers(HeldOf(rows[found.value]), HeldOf(rows[k]))
  }

  predicate IsBusinessRow(s: Subscription) {
    s.kind.Business? && s.status.Active?
  }

  ghost predicate Promise(rows: seq<Subscription>) {
    forall k :: 0 <= k < |rows| && IsBusinessRow(rows[k]) ==> IsCovered(rows, k)
  }

  ghost predicate PromiseBut(rows: seq<Subscription>, user: nat) {
    forall k :: 0 <= k < |rows| && IsBusinessRow(rows[k]) && rows[k].user != user ==> IsCovered(rows, k)
  }

  ghost predicate Sound(rows: seq<Subscription>) {
    OneActive(rows) && KindsFit(rows) && Promise(rows)
  }

  lemma ActiveIsFound(rows: seq<Subscription>, k: nat, user: nat, kind: Kind)
    requires OneActive(rows) && k < |rows| && IsActive(rows[k], user, kind)
    ensures FindActive(rows, user, kind) == Some(k)
  {
    var found := FindActive(rows, user, kind);
    if found.Some? {
      assert IsActive(rows[found.value], rows[k].user, rows[k].kind);
    }
  }

  /** Rows that are the same for a user and a kind give the same answer. */
  lemma {:induction false} FindSame(a: seq<Subscription>, b: seq<Subscription>, user: nat, kind: Kind)
    requires |a| <= |b| && forall k :: 0 <= k < |a| ==> (IsActive(a[k], user, kind) <==> IsActive(b[k], user, kind))
    requires forall k :: |a| <= k < |b| ==> !IsActive(b[k], user, kind)
    ensures FindActive(a, user, kind) == FindActive(b, user, kind)
    decreases |b|
  {
    if |b| > |a| {
      FindSame(a, b[..|b| - 1], user, kind);
    } else if a != [] && !IsActive(a[|a| - 1], user, kind) {
      FindSame(a[..|a| - 1], b[..|b| - 1], user, kind);
    }
  }

  // ----- Ensure -----

  lemma MergedCovers(held: Held, bundled: PlanCode, endsAt: Option<int>)
    ensures var m := Merged(Some(held), bundled, endsAt);
            Covers(m, held) && Tier(bundled) <= Tier(m.plan) && NoLater(endsAt, m.endsAt)
  {}

  /** Only the owner's active personal row changes, or one is added, and it never gets weaker or shorter. */
  ghost predicate OnlyPersonal(rows: seq<Subscription>, after: seq<Subscription>, owner: nat) {
    && |rows| <= |after| <= |rows| + 1
    && (forall k :: 0 <= k < |rows| && !IsActive(rows[k], owner, Personal) ==> after[k] == rows[k])
    && (forall k :: 0 <= k < |rows| && IsActive(rows[k], owner, Personal) ==>
          && IsActive(after[k], owner, Personal) && after[k].startsAt == rows[k].startsAt
          && Covers(HeldOf(after[k]), HeldOf(rows[k])))
    && (forall k :: |rows| <= k < |after| ==> IsActive(after[k], owner, Personal))
  }

  lemma EnsureChanges(rows: seq<Subscription>, owner: nat, plan: PlanCode, endsAt: Option<int>, now: int)
    requires IsBusiness(plan) && OneActive(rows) && KindsFit(rows)
    ensures var (after, outcome) := Ensure(rows, owner, plan, endsAt, now);
            outcome.Done? ==>
              && OnlyPersonal(rows, after, owner) && OneActive(after) && KindsFit(after)
              && FindActive(after, owner, Personal).Some?
              && Covers(HeldOf(after[FindActive(after, owner, Personal).value]), Held(plan, endsAt))
  {
    var (after, outcome) := Ensure(rows, owner, plan, endsAt, now);
    if outcome.Done? {
      var found := FindActive(rows, owner, Personal);
      if found.Some? {
        var k := found.value;
        MergedCovers(HeldOf(rows[k]), BundledPersonalPlan(plan).value, endsAt);
        EnsureOneRow(rows, k, after, owner);
        ActiveIsFound(after, k, owner, Personal);
      } else {
        assert IsActive(after[|rows|], owner, Personal);
        ActiveIsFound(after, |rows|, owner, Personal);
      }
    }
  }

  lemma EnsureOneRow(rows: seq<Subscription>, k: nat, after: seq<Subscription>, owner: nat)
    requires OneActive(rows) && KindsFit(rows) && k < |rows| == |after| && IsActive(rows[k], owner, Personal)
    requires after == rows[k := after[k]] && IsPersonal(after[k].plan)
    requires IsActive(after[k], owner, Personal) && Covers(HeldOf(after[k]), HeldOf(rows[k]))
    requires after[k].startsAt == rows[k].startsAt
    ensures OnlyPersonal(rows, after, owner) && OneActive(after) && KindsFit(after)
  {
    forall j | 0 <= j < |rows| && IsActive(rows[j], owner, Personal) ensures j == k {
      ActiveIsFound(rows, j, owner, Personal);
      ActiveIsFound(rows, k, owner, Personal);
    }
    forall i, j | 0 <= i < |after| && 0 <= j < |after| && after[i].status.Active?
                  && IsActive(after[j], after[i].user, after[i].kind)
      ensures i == j
    {
      assert rows[i].status.Active? && IsActive(rows[j], rows[i].user, rows[i].kind);
    }
  }

  lemma CoveredStays(rows: seq<Subscription>, after: seq<Subscription>, owner: nat, k: nat)
    requires OnlyPersonal(rows, after, owner) && k < |rows| && IsBusinessRow(rows[k]) && rows[k].user != owner
    requires IsCovered(rows, k)
    ensures IsCovered(after, k)
  {
    FindSame(rows, after, rows[k].user, Personal);
  }

  /** With the owner's business plan in place, Ensure makes the promise whole. */
  lemma EnsureSound(rows: seq<Subscription>, owner: nat, plan: PlanCode, endsAt: Option<int>, now: int)
    requires IsBusiness(plan) && OneActive(rows) && KindsFit(rows) && PromiseBut(rows, owner)
    requires forall k :: 0 <= k < |rows| && IsActive(rows[k], owner, Business) ==> HeldOf(rows[k]) == Held(plan, endsAt)
    ensures var (after, outcome) := Ensure(rows, owner, plan, endsAt, now); outcome.Done? ==> Sound(after)
  {
    var (after, outcome) := Ensure(rows, owner, plan, endsAt, now);
    if outcome.Done? {
      EnsureChanges(rows, owner, plan, endsAt, now);
      forall k | 0 <= k < |after| && IsBusinessRow(after[k]) ensures IsCovered(after, k) {
        assert k < |rows| && after[k] == rows[k];
        if rows[k].user != owner { CoveredStays(rows, after, owner, k); }
      }
    }
  }

  // ----- Transfer -----

  lemma MoveKeeps(rows: seq<Subscription>, k: nat, to: nat)
    requires Sound(rows) && k < |rows| && IsBusinessRow(rows[k]) && !HoldsBusinessPlan(rows, to)
    ensures var moved := rows[k := rows[k].(user := to)];
            OneActive(moved) && KindsFit(moved) && PromiseBut(moved, to)
  {
    var moved := rows[k := rows[k].(user := to)];
    forall i, j | 0 <= i < |moved| && 0 <= j < |moved| && moved[i].status.Active?
                  && IsActive(moved[j], moved[i].user, moved[i].kind)
      ensures i == j
    {
      assert !IsActive(rows[i], to, Business) && !IsActive(rows[j], to, Business);
      assert i != k && j != k ==> IsActive(rows[j], rows[i].user, rows[i].kind);
    }
    forall j | 0 <= j < |moved| && IsBusinessRow(moved[j]) && moved[j].user != to ensures IsCovered(moved, j) {
      assert IsCovered(rows, j);
      FindSame(rows, moved, rows[j].user, Personal);
    }
  }

  lemma TransferSound(rows: seq<Subscription>, from: nat, to: nat, now: int)
    requires Sound(rows)
    ensures Sound(Transfer(rows, from, to, now).0)
  {
    var (after, outcome, moved) := Transfer(rows, from, to, now);
    if moved {
      var k := FindActive(rows, from, Business).value;
      MoveKeeps(rows, k, to);
      var given := rows[k := rows[k].(user := to)];
      forall j | 0 <= j < |given| && IsActive(given[j], to, Business) ensures j == k {
        assert !IsActive(rows[j], to, Business);
      }
      EnsureSound(given, to, rows[k].plan, rows[k].endsAt, now);
    }
  }

  /** A transfer moves the subscription itself: same row, plan and end; every other business plan stays
      where it is, and nobody's personal plan gets weaker or shorter. */
  lemma TransferConserves(rows: seq<Subscription>, from: nat, to: nat, now: int)
    requires Sound(rows) && Transfer(rows, from, to, now).2
    ensures var after := Transfer(rows, from, to, now).0;
            var found := FindActive(rows, from, Business);
            && found.Some? && |rows| <= |after| && after[found.value] == rows[found.value].(user := to)
            && (forall k :: 0 <= k < |rows| && rows[k].kind.Business? && k != found.value ==> after[k] == rows[k])
            && (forall k :: |rows| <= k < |after| ==> after[k].kind.Personal?)
            && (forall k :: 0 <= k < |rows| && rows[k].kind.Personal? && rows[k].status.Active? ==>
                  after[k].user == rows[k].user && after[k].status.Active? && Covers(HeldOf(after[k]), HeldOf(rows[k])))
  {
    var k := FindActive(rows, from, Business).value;
    MoveKeeps(rows, k, to);
    EnsureChanges(rows[k := rows[k].(user := to)], to, rows[k].plan, rows[k].endsAt, now);
  }

  // ----- grants -----

  lemma CancelKeeps(rows: seq<Subscription>, user: nat, kind: Kind, at: int)
    requires OneActive(rows) && KindsFit(rows)
    ensures var after := Cancel(rows, user, kind, at);
            && OneActive(after) && KindsFit(after) && FindActive(after, user, kind) == None
            && forall k :: 0 <= k < |rows| && !IsActive(rows[k], user, kind) ==> after[k] == rows[k]
  {
    var after := Cancel(rows, user, kind, at);
    forall i, j | 0 <= i < |after| && 0 <= j < |after| && after[i].status.Active?
                  && IsActive(after[j], after[i].user, after[i].kind)
      ensures i == j
    {
      assert rows[i].status.Active? && IsActive(rows[j], rows[i].user, rows[i].kind);
    }
    forall k | 0 <= k < |after| ensures !IsActive(after[k], user, kind) {}
  }

  lemma AddKeeps(rows: seq<Subscription>, s: Subscription)
    requires OneActive(rows) && KindsFit(rows) && FindActive(rows, s.user, s.kind).None?
    requires if s.kind.Business? then IsBusiness(s.plan) else IsPersonal(s.plan)
    ensures OneActive(rows + [s]) && KindsFit(rows + [s])
  {
    var more := rows + [s];
    forall i, j | 0 <= i < |more| && 0 <= j < |more| && more[i].status.Active?
                  && IsActive(more[j], more[i].user, more[i].kind)
      ensures i == j
    {
      if i < |rows| { assert !IsActive(rows[i], s.user, s.kind); }
      if j < |rows| { assert !IsActive(rows[j], s.user, s.kind); }
    }
  }

  /** The other users' rows are as before. */
  ghost predicate OthersStay(rows: seq<Subscription>, after: seq<Subscription>, user: nat) {
    && |rows| <= |after|
    && (forall k :: 0 <= k < |rows| && rows[k].user != user ==> after[k] == rows[k])
    && (forall k :: 0 <= k < |rows| && rows[k].user == user ==> after[k].user == user)
    && forall k :: |rows| <= k < |after| ==> after[k].user == user
  }

  lemma OthersCovered(rows: seq<Subscription>, after: seq<Subscription>, user: nat)
    requires Promise(rows) && OthersStay(rows, after, user)
    ensures PromiseBut(after, user)
  {
    forall k | 0 <= k < |after| && IsBusinessRow(after[k]) && after[k].user != user ensures IsCovered(after, k) {
      assert IsCovered(rows, k);
      FindSame(rows, after, rows[k].user, Personal);
    }
  }

  /** Before Ensure, a grant of a business plan leaves its user with just that business plan. */
  lemma GrantReady(
    rows: seq<Subscription>, user: nat, plan: PlanCode, startsAt: int, endsAt: int, now: int, ready: seq<Subscription>)
    requires Sound(rows) && IsBusiness(plan)
    requires ready == match FindRunning(rows, user, plan, now)
                      case Some(k) => rows[k := rows[k].(endsAt := Some(endsAt))]
                      case None => Cancel(rows, user, Business, startsAt)
                                   + [Subscription(plan, Business, user, Active, startsAt, Some(endsAt))]
    ensures OneActive(ready) && KindsFit(ready) && PromiseBut(ready, user)
    ensures forall k :: 0 <= k < |ready| && IsActive(ready[k], user, Business) ==>
              HeldOf(ready[k]) == Held(plan, Some(endsAt))
  {
    var found := FindRunning(rows, user, plan, now);
    if found.Some? {
      var k := found.value;
      assert rows[k].kind.Business?;
      forall i, j | 0 <= i < |ready| && 0 <= j < |ready| && ready[i].status.Active?
                    && IsActive(ready[j], ready[i].user, ready[i].kind)
        ensures i == j
      {
        assert rows[i].status.Active? && IsActive(rows[j], rows[i].user, rows[i].kind);
      }
      forall j | 0 <= j < |ready| && IsActive(ready[j], user, Business) ensures j == k {
        assert IsActive(rows[j], rows[k].user, rows[k].kind);
      }
    } else {
      CancelKeeps(rows, user, Business, startsAt);
      var cancelled := Cancel(rows, user, Business, startsAt);
      AddKeeps(cancelled, ready[|rows|]);
    }
    OthersCovered(rows, ready, user);
  }

  lemma GrantSound(rows: seq<Subscription>, user: nat, plan: PlanCode, startsAt: int, endsAt: int, now: int)
    requires Sound(rows)
    ensures Sound(Grant(rows, user, Business, plan, startsAt, endsAt, now).0)
  {
    if IsBusiness(plan) {
      match FindRunning(rows, user, plan, now)
      case Some(k) =>
        var ready := rows[k := rows[k].(endsAt := Some(endsAt))];
        GrantReady(rows, user, plan, startsAt, endsAt, now, ready);
        EnsureSound(ready, user, plan, Some(endsAt), now);
      case None =>
        var ready := Cancel(rows, user, Business, startsAt)
                     + [Subscription(plan, Business, user, Active, startsAt, Some(endsAt))];
        GrantReady(rows, user, plan, startsAt, endsAt, now, ready);
        EnsureSound(ready, user, plan, Some(endsAt), startsAt);
    }
  }

  // ----- grants of a personal plan -----

  /** The user now holds the plan up to the end; business plans and other users are as before. */
  ghost predicate HasPersonal(
    rows: seq<Subscription>, after: seq<Subscription>, user: nat, plan: PlanCode, endsAt: int)
  {
    && OneActive(after) && KindsFit(after) && OthersStay(rows, after, user)
    && (forall k :: 0 <= k < |rows| && rows[k].kind.Business? ==> after[k] == rows[k])
    && (forall k :: |rows| <= k < |after| ==> after[k].kind.Personal?)
    && FindActive(after, user, Personal).Some?
    && HeldOf(after[FindActive(after, user, Personal).value]) == Held(plan, Some(endsAt))
  }

  lemma PersonalExtended(rows: seq<Subscription>, user: nat, plan: PlanCode, k: nat, endsAt: int)
    requires Sound(rows) && k < |rows| && IsActive(rows[k], user, Personal) && rows[k].plan == plan
    ensures HasPersonal(rows, rows[k := rows[k].(endsAt := Some(endsAt))], user, plan, endsAt)
  {
    var after := rows[k := rows[k].(endsAt := Some(endsAt))];
    forall i, j | 0 <= i < |after| && 0 <= j < |after| && after[i].status.Active?
                  && IsActive(after[j], after[i].user, after[i].kind)
      ensures i == j
    {
      assert rows[i].status.Active? && IsActive(rows[j], rows[i].user, rows[i].kind);
    }
    ActiveIsFound(after, k, user, Personal);
  }

  lemma PersonalReplaced(
    rows: seq<Subscription>, user: nat, plan: PlanCode, startsAt: int, endsAt: int, cancelled: seq<Subscription>,
    s: Subscription)
    requires Sound(rows) && IsPersonal(plan) && cancelled == Cancel(rows, user, Personal, startsAt)
    requires s == Subscription(plan, Personal, user, Active, startsAt, Some(endsAt))
    ensures HasPersonal(rows, cancelled + [s], user, plan, endsAt)
  {
    CancelKeeps(rows, user, Personal, startsAt);
    AddKeeps(cancelled, s);
    ActiveIsFound(cancelled + [s], |rows|, user, Personal);
  }

  /** What a grant of a personal plan leaves its user with. */
  lemma PersonalGrantGives(rows: seq<Subscription>, user: nat, plan: PlanCode, startsAt: int, endsAt: int, now: int)
    requires Sound(rows) && Grant(rows, user, Personal, plan, startsAt, endsAt, now).1.Done?
    ensures HasPersonal(rows, Grant(rows, user, Personal, plan, startsAt, endsAt, now).0, user, plan, endsAt)
  {
    match FindRunning(rows, user, plan, now)
    case Some(k) => PersonalExtended(rows, user, plan, k, endsAt);
    case None =>
      PersonalReplaced(
        rows, user, plan, startsAt, endsAt, Cancel(rows, user, Personal, startsAt),
        Subscription(plan, Personal, user, Active, startsAt, Some(endsAt)));
  }

  /** A grant of a personal plan keeps the promise exactly when it covers the business plan, if any, that
      its user holds: the grant itself does not look. */
  lemma PersonalGrantKeepsPromise(
    rows: seq<Subscription>, user: nat, plan: PlanCode, startsAt: int, endsAt: int, now: int)
    requires Sound(rows) && Grant(rows, user, Personal, plan, startsAt, endsAt, now).1.Done?
    ensures var business := FindActive(rows, user, Business);
            Promise(Grant(rows, user, Personal, plan, startsAt, endsAt, now).0) <==>
            (business.Some? ==> Covers(Held(plan, Some(endsAt)), HeldOf(rows[business.value])))
  {
    var after := Grant(rows, user, Personal, plan, startsAt, endsAt, now).0;
    var business := FindActive(rows, user, Business);
    PersonalGrantGives(rows, user, plan, startsAt, endsAt, now);
    OthersCovered(rows, after, user);
    if Promise(after) && business.Some? {
      assert IsBusinessRow(after[business.value]) && IsCovered(after, business.value);
    }
    if business.Some? ==> Covers(Held(plan, Some(endsAt)), HeldOf(rows[business.value])) {
      forall k | 0 <= k < |after| && IsBusinessRow(after[k]) ensures IsCovered(after, k) {
        if after[k].user == user { ActiveIsFound(rows, k, user, Business); }
      }
    }
  }

  /** A grant of a personal plan may leave the holder of a stronger business plan without its cover. */
  lemma WeakGrantBreaksPromise()
    ensures var (held, done) := Grant([], 0, Business, BusinessPro, 0, 100, 0);
            var (after, granted) := Grant(held, 0, Personal, PersonalStart, 1, 100, 1);
            done.Done? && granted.Done? && Sound(held) && !Promise(after)
  {
    GrantSound([], 0, BusinessPro, 0, 100, 0);
    var (held, done) := Grant([], 0, Business, BusinessPro, 0, 100, 0);
    var business := Subscription(BusinessPro, Business, 0, Active, 0, Some(100));
    assert Cancel([], 0, Business, 0) + [business] == [business];
    assert FindActive([business], 0, Personal) == None && FindActive([business][..0], 0, Personal) == None;
    assert held == [business, Subscription(PersonalPro, Personal, 0, Active, 0, Some(100))];
    ActiveIsFound(held, 0, 0, Business);
    PersonalGrantKeepsPromise(held, 0, PersonalStart, 1, 100, 1);
  }

  // ----- withdrawal -----

  /** Once a plan is withdrawn its user holds none of its kind. */
  lemma WithdrawKeeps(rows: seq<Subscription>, user: nat, kind: Kind, now: int)
    requires OneActive(rows) && KindsFit(rows) && Withdraw(rows, user, kind, now).1.Done?
    ensures var after := Withdraw(rows, user, kind, now).0;
            && OneActive(after) && KindsFit(after) && OthersStay(rows, after, user) && |after| == |rows|
            && FindActive(after, user, kind).None?
            && forall k :: 0 <= k < |rows| && rows[k].kind != kind ==> after[k] == rows[k]
  {
    var after, k := Withdraw(rows, user, kind, now).0, FindCurrent(rows, user, kind, now).value;
    forall i, j | 0 <= i < |after| && 0 <= j < |after| && after[i].status.Active?
                  && IsActive(after[j], after[i].user, after[i].kind)
      ensures i == j
    {
      assert rows[i].status.Active? && IsActive(rows[j], rows[i].user, rows[i].kind);
    }
    forall j | 0 <= j < |after| ensures !IsActive(after[j], user, kind) {
      assert IsActive(rows[k], user, kind);
      if IsActive(rows[j], user, kind) { assert IsActive(rows[j], rows[k].user, rows[k].kind); }
    }
  }

  /** Withdrawing a personal plan keeps the promise exactly when its user holds no business plan. */
  lemma WithdrawKeepsPromise(rows: seq<Subscription>, user: nat, kind: Kind, now: int)
    requires Sound(rows) && Withdraw(rows, user, kind, now).1.Done?
    ensures Promise(Withdraw(rows, user, kind, now).0) <==> (kind.Personal? ==> !HoldsBusinessPlan(rows, user))
  {
    var after := Withdraw(rows, user, kind, now).0;
    WithdrawKeeps(rows, user, kind, now);
    OthersCovered(rows, after, user);
    if kind.Personal? {
      var business := FindActive(rows, user, Business);
      if business.Some? { assert IsBusinessRow(after[business.value]) && !IsCovered(after, business.value); }
    }
    if kind.Personal? ==> !HoldsBusinessPlan(rows, user) {
      assert forall k :: 0 <= k < |after| ==> !IsActive(after[k], user, Business);
    }
  }

  // ----- whole runs -----

  datatype Step =
    | GrantPlan(user: nat, kind: Kind, plan: PlanCode, startsAt: int, endsAt: int, now: int)
    | Move(from: nat, to: nat, now: int)
    | WithdrawPlan(user: nat, kind: Kind, now: int)

  function Next(rows: seq<Subscription>, step: Step): seq<Subscription> {
    match step
    case GrantPlan(user, kind, plan, startsAt, endsAt, now) => Grant(rows, user, kind, plan, startsAt, endsAt, now).0
    case Move(from, to, now) => Transfer(rows, from, to, now).0
    case WithdrawPlan(user, kind, now) => Withdraw(rows, user, kind, now).0
  }

  function After(rows: seq<Subscription>, steps: seq<Step>): seq<Subscription>
    decreases |steps|
  {
    if steps == [] then rows else After(Next(rows, steps[0]), steps[1..])
  }

  /** Whoever holds a business plan is granted no personal plan that does not cover it, and loses none. */
  predicate IsCareful(rows: seq<Subscription>, step: Step) {
    match step
    case GrantPlan(user, Personal, plan, startsAt, endsAt, now) =>
      var business := FindActive(rows, user, Business);
      Grant(rows, user, Personal, plan, startsAt, endsAt, now).1.Done? && business.Some? ==>
        Covers(Held(plan, Some(endsAt)), HeldOf(rows[business.value]))
    case WithdrawPlan(user, Personal, now) =>
      Withdraw(rows, user, Personal, now).1.Done? ==> !HoldsBusinessPlan(rows, user)
    case _ => true
  }

  predicate AllCareful(rows: seq<Subscription>, steps: seq<Step>)
    decreases |steps|
  {
    steps != [] ==> IsCareful(rows, steps[0]) && AllCareful(Next(rows, steps[0]), steps[1..])
  }

  /** The tables are sound after every step. */
  ghost predicate StaySound(rows: seq<Subscription>, steps: seq<Step>)
    decreases |steps|
  {
    Sound(rows) && (steps != [] ==> StaySound(Next(rows, steps[0]), steps[1..]))
  }

  lemma GrantKeepsExactly(
    rows: seq<Subscription>, user: nat, kind: Kind, plan: PlanCode, startsAt: int, endsAt: int, now: int)
    requires Sound(rows)
    ensures var step := GrantPlan(user, kind, plan, startsAt, endsAt, now);
            Sound(Next(rows, step)) <==> IsCareful(rows, step)
  {
    if kind.Business? {
      GrantSound(rows, user, plan, startsAt, endsAt, now);
    } else if Grant(rows, user, Personal, plan, startsAt, endsAt, now).1.Done? {
      PersonalGrantGives(rows, user, plan, startsAt, endsAt, now);
      PersonalGrantKeepsPromise(rows, user, plan, startsAt, endsAt, now);
    }
  }

  lemma StepKeepsExactly(rows: seq<Subscription>, step: Step)
    requires Sound(rows)
    ensures Sound(Next(rows, step)) <==> IsCareful(rows, step)
  {
    match step
    case GrantPlan(user, kind, plan, startsAt, endsAt, now) =>
      GrantKeepsExactly(rows, user, kind, plan, startsAt, endsAt, now);
    case Move(from, to, now) => TransferSound(rows, from, to, now);
    case WithdrawPlan(user, kind, now) =>
      if Withdraw(rows, user, kind, now).1.Done? {
        WithdrawKeeps(rows, user, kind, now);
        WithdrawKeepsPromise(rows, user, kind, now);
      }
  }

  /** In a run of grants, transfers and withdrawals each user has at most one active plan of a kind, and
      every holder of a business plan a personal plan that covers it, after every step exactly when every
      step is careful. */
  lemma {:induction false} PromiseIsKept(rows: seq<Subscription>, steps: seq<Step>)
    requires Sound(rows)
    ensures StaySound(rows, steps) <==> AllCareful(rows, steps)
    ensures AllCareful(rows, steps) ==> Sound(After(rows, steps))
    decreases |steps|
  {
    if steps != [] {
      StepKeepsExactly(rows, steps[0]);
      if IsCareful(rows, steps[0]) { PromiseIsKept(Next(rows, steps[0]), steps[1..]); }
    }
  }

  lemma NothingIsSound()
    ensures Sound([])
  {}

  // ----- the order of grants -----

  /** A business plan granted to one person: its code and its end. */
  datatype Granted = Granted(plan: PlanCode, endsAt: Option<int>)

  function Bundle(g: Granted): Held
    requires IsBusiness(g.plan)
  {
    Held(BundledPersonalPlan(g.plan).value, g.endsAt)
  }

  predicate AreBusiness(grants: seq<Granted>) {
    forall k :: 0 <= k < |grants| ==> IsBusiness(grants[k].plan)
  }

  /** The personal plan after the grants, one after the other. */
  function AfterGrants(held: Option<Held>, grants: seq<Granted>): Option<Held>
    requires AreBusiness(grants)
  {
    if grants == [] then held
    else
      var last := grants[|grants| - 1];
      Some(Merged(AfterGrants(held, grants[..|grants| - 1]), Bundle(last).plan, last.endsAt))
  }

  /** Upper bounds of what was held and what was granted. */
  ghost predicate IsUpper(h: Held, held: Option<Held>, grants: seq<Granted>)
    requires AreBusiness(grants)
  {
    (held.Some? ==> Covers(h, held.value)) && forall k :: 0 <= k < |grants| ==> Covers(h, Bundle(grants[k]))
  }

  /** The plan is the one held, or came with one of the grants. */
  ghost predicate CameFrom(plan: PlanCode, held: Option<Held>, grants: seq<Granted>)
    requires AreBusiness(grants)
  {
    (held.Some? && plan == held.value.plan) || exists k :: 0 <= k < |grants| && plan == Bundle(grants[k]).plan
  }

  ghost predicate IsLeast(h: Held, held: Option<Held>, grants: seq<Granted>)
    requires AreBusiness(grants)
  {
    IsUpper(h, held, grants) && CameFrom(h.plan, held, grants) && forall u :: IsUpper(u, held, grants) ==> Covers(u, h)
  }

  lemma OneGrant(g: Granted)
    requires IsBusiness(g.plan)
    ensures IsLeast(Bundle(g), None, [g])
  {
    var grants := [g];
    assert Bundle(grants[0]) == Bundle(g);
  }

  /** The grants leave the least plan and end that cover what was held and what was granted. */
  lemma {:induction false} GrantsGiveLeast(held: Option<Held>, grants: seq<Granted>)
    requires AreBusiness(grants) && (held.Some? || grants != [])
    ensures AfterGrants(held, grants).Some? && IsLeast(AfterGrants(held, grants).value, held, grants)
  {
    if grants != [] {
      var front, last := grants[..|grants| - 1], grants[|grants| - 1];
      assert grants == front + [last];
      if front != [] || held.Some? {
        GrantsGiveLeast(held, front);
        LeastMore(held, front, last, AfterGrants(held, front).value);
      } else {
        assert AfterGrants(held, front).None?;
        OneGrant(last);
      }
    }
  }

  lemma LeastMore(held: Option<Held>, front: seq<Granted>, last: Granted, h: Held)
    requires AreBusiness(front) && IsBusiness(last.plan) && IsLeast(h, held, front)
    ensures IsLeast(Merged(Some(h), Bundle(last).plan, last.endsAt), held, front + [last])
  {
    var m, grants := Merged(Some(h), Bundle(last).plan, last.endsAt), front + [last];
    assert grants[|front|] == last;
    forall k | 0 <= k < |grants| ensures Covers(m, Bundle(grants[k])) {
      if k < |front| { assert Covers(h, Bundle(front[k])); }
    }
    if m.plan == h.plan {
      if !(held.Some? && h.plan == held.value.plan) {
        var k :| 0 <= k < |front| && h.plan == Bundle(front[k]).plan;
        assert m.plan == Bundle(grants[k]).plan;
      }
    } else {
      assert m.plan == Bundle(grants[|front|]).plan;
    }
    forall u | IsUpper(u, held, grants) ensures Covers(u, m) {
      forall k | 0 <= k < |front| ensures Covers(u, Bundle(front[k])) { assert grants[k] == front[k]; }
      assert IsUpper(u, held, front) && Covers(u, Bundle(grants[|front|]));
    }
  }

  /** Personal plans of one paid tier are one plan. */
  lemma TierNamesPlan(a: PlanCode, b: PlanCode)
    requires IsPersonal(a) && IsPersonal(b) && Tier(a) == Tier(b) > 0
    ensures a == b
  {}

  function AsSet(grants: seq<Granted>): set<Granted> {
    set g | g in grants
  }

  lemma NoneGranted(grants: seq<Granted>)
    ensures AsSet(grants) == {} <==> grants == []
  {
    if grants != [] { assert grants[0] in AsSet(grants); }
  }

  lemma SameUpper(u: Held, held: Option<Held>, a: seq<Granted>, b: seq<Granted>)
    requires AreBusiness(a) && AreBusiness(b) && AsSet(a) == AsSet(b) && IsUpper(u, held, a)
    ensures IsUpper(u, held, b)
  {
    forall k | 0 <= k < |b| ensures Covers(u, Bundle(b[k])) {
      assert b[k] in AsSet(a);
      var j :| 0 <= j < |a| && a[j] == b[k];
      assert Covers(u, Bundle(a[j]));
    }
  }

  lemma PlanIsPersonal(plan: PlanCode, held: Option<Held>, grants: seq<Granted>)
    requires AreBusiness(grants) && CameFrom(plan, held, grants) && (held.Some? ==> IsPersonal(held.value.plan))
    ensures IsPersonal(plan)
  {}

  /** The same grants, in any order and however often repeated, end in the same personal plan and end. */
  lemma OrderDoesNotMatter(held: Option<Held>, a: seq<Granted>, b: seq<Granted>)
    requires AreBusiness(a) && AreBusiness(b) && AsSet(a) == AsSet(b)
    requires held.Some? ==> IsPersonal(held.value.plan)
    ensures AfterGrants(held, a) == AfterGrants(held, b)
  {
    if a == [] || b == [] {
      NoneGranted(a);
      NoneGranted(b);
    } else {
      GrantsGiveLeast(held, a);
      GrantsGiveLeast(held, b);
      var x, y := AfterGrants(held, a).value, AfterGrants(held, b).value;
      SameUpper(x, held, a, b);
      SameUpper(y, held, b, a);
      PlanIsPersonal(x.plan, held, a);
      PlanIsPersonal(y.plan, held, b);
      assert Covers(x, Bundle(a[0]));
      TierNamesPlan(x.plan, y.plan);
    }
  }

  /** Granting the same again changes nothing. */
  lemma MergeIsIdempotent(held: Option<Held>, g: Granted)
    requires IsBusiness(g.plan)
    ensures var once := Merged(held, Bundle(g).plan, g.endsAt);
            Merged(Some(once), Bundle(g).plan, g.endsAt) == once
  {}

  /** What a user holds of a personal plan. */
  function HeldBy(rows: seq<Subscription>, user: nat): Option<Held> {
    var found := FindActive(rows, user, Personal);
    if found.None? then None else Some(HeldOf(rows[found.value]))
  }

  /** Ensure for one business plan after the other; whether none was refused. */
  function EnsureAll(rows: seq<Subscription>, owner: nat, grants: seq<Granted>, now: int): (seq<Subscription>, bool) {
    if grants == [] then (rows, true)
    else
      var last, (before, ok) := grants[|grants| - 1], EnsureAll(rows, owner, grants[..|grants| - 1], now);
      var (after, outcome) := Ensure(before, owner, last.plan, last.endsAt, now);
      (after, ok && outcome.Done?)
  }

  lemma EnsureMerges(rows: seq<Subscription>, owner: nat, g: Granted, now: int)
    requires IsBusiness(g.plan) && OneActive(rows) && KindsFit(rows)
    requires Ensure(rows, owner, g.plan, g.endsAt, now).1.Done?
    ensures var after := Ensure(rows, owner, g.plan, g.endsAt, now).0;
            && OneActive(after) && KindsFit(after)
            && HeldBy(after, owner) == Some(Merged(HeldBy(rows, owner), Bundle(g).plan, g.endsAt))
  {
    var after := Ensure(rows, owner, g.plan, g.endsAt, now).0;
    EnsureChanges(rows, owner, g.plan, g.endsAt, now);
    var found := FindActive(rows, owner, Personal);
    ActiveIsFound(after, if found.Some? then found.value else |rows|, owner, Personal);
  }

  lemma {:induction false} EnsureAllMerges(rows: seq<Subscription>, owner: nat, grants: seq<Granted>, now: int)
    requires AreBusiness(grants) && OneActive(rows) && KindsFit(rows) && EnsureAll(rows, owner, grants, now).1
    ensures var after := EnsureAll(rows, owner, grants, now).0;
            OneActive(after) && KindsFit(after) && HeldBy(after, owner) == AfterGrants(HeldBy(rows, owner), grants)
  {
    if grants != [] {
      var front := grants[..|grants| - 1];
      EnsureAllMerges(rows, owner, front, now);
      EnsureMerges(EnsureAll(rows, owner, front, now).0, owner, grants[|grants| - 1], now);
    }
  }

  lemma HeldIsPersonal(rows: seq<Subscription>, user: nat)
    requires KindsFit(rows)
    ensures HeldBy(rows, user).Some? ==> IsPersonal(HeldBy(rows, user).value.plan)
  {}

  /** Business plans granted in any order leave their holder with the same personal plan and end. */
  lemma EnsureOrderDoesNotMatter(rows: seq<Subscription>, owner: nat, a: seq<Granted>, b: seq<Granted>, now: int)
    requires AreBusiness(a) && AreBusiness(b) && AsSet(a) == AsSet(b) && OneActive(rows) && KindsFit(rows)
    requires EnsureAll(rows, owner, a, now).1 && EnsureAll(rows, owner, b, now).1
    ensures HeldBy(EnsureAll(rows, owner, a, now).0, owner) == HeldBy(EnsureAll(rows, owner, b, now).0, owner)
  {
    EnsureAllMerges(rows, owner, a, now);
    EnsureAllMerges(rows, owner, b, now);
    HeldIsPersonal(rows, owner);
    OrderDoesNotMatter(HeldBy(rows, owner), a, b);
  }
}
