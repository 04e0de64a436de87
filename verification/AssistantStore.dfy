/** The service's own transactions over its tables, its recovery pass, and what a repeated request gets. */
module AssistantStore {
  import opened Text
  import opened Options
  import opened AssistantRequests
  import opened AssistantRuns
  import opened AssistantInvariant
  import opened AssistantSystem

  const MAX_TEXT := 12000
  const MAX_LABELS := 100
  const MAX_LABEL := 180

  predicate ValidDetail(detail: string) {
    detail == "auto" || detail == "brief" || detail == "detailed"
  }

  predicate WellFormed(input: Input) {
    && Trim(input.text) != "" && |Trim(input.text)| <= MAX_TEXT && |Labels(input)| <= MAX_LABELS
    && input.clientMessageId != "" && input.idempotencyKey != ""
    && forall k :: 0 <= k < |Labels(input)| ==> |Labels(input)[k]| <= MAX_LABEL
  }

  /** The request as it is stored: trimmed, and as detailed as the chat is when it does not say. */
  function Resolved(chat: Chat, input: Input): Input {
    input.(
      text := Trim(input.text),
      responseDetail := if ValidDetail(input.responseDetail) then input.responseDetail else chat.responseDetail)
  }

  /** The run of a scope with an idempotency key. */
  function FindByKey(runs: seq<Run>, company: nat, actor: nat, key: string): (found: Option<nat>)
    ensures found.Some? ==> found.value < |runs| && HasKey(runs[found.value], company, actor, key)
    ensures found.None? ==> !KeyTaken(runs, company, actor, key)
  {
    if runs == [] then None
    else if HasKey(runs[|runs| - 1], company, actor, key) then Some(|runs| - 1)
    else FindByKey(runs[..|runs| - 1], company, actor, key)
  }

  /** chatEnabled stands for what the caller's subscription and role allow. */
  function CreateMessage(db: Tables, input: Input, chatEnabled: bool, now: nat): (Tables, Outcome) {
    if !WellFormed(input) then (db, Refused(InvalidInput))
    else if !Owned(db, input.user, input.chat) || db.chats[input.chat].company != input.company
    then (db, Refused(NotFound))
    else if !chatEnabled then (db, Refused(Forbidden))
    else
      var request := Resolved(db.chats[input.chat], input);
      var hash := RequestHash(request);
      match FindByKey(db.runs, input.company, input.user, input.idempotencyKey)
      case Some(r) => (db, if db.runs[r].requestHash == hash then Existing(r) else Refused(InvalidInput))
      case None => AddRequest(db, request, hash, now)
  }

  // ----- what a request needs, and what it leaves -----

  /** The text is there and not too long, nor are the labels, and both identifiers are there. */
  ghost predicate FitsLimits(input: Input) {
    && 0 < |Trim(input.text)| <= 12000 && |input.clientMessageId| > 0 && |input.idempotencyKey| > 0
    && (input.labels.Some? ==>
          && |input.labels.value| <= 100
          && forall l :: l in input.labels.value ==> |l| <= 180)
  }

  /** The chat is there, not deleted, and the user's own within the company. */
  ghost predicate IsOwnChat(chats: seq<Chat>, input: Input) {
    && input.chat < |chats| && chats[input.chat].owner == input.user && chats[input.chat].company == input.company
    && !chats[input.chat].deleted
  }

  ghost predicate IsRetry(runs: seq<Run>, input: Input) {
    exists r :: && 0 <= r < |runs| && runs[r].company == input.company && runs[r].actor == input.user
                && runs[r].idempotencyKey == input.idempotencyKey
  }

  /** A run of the chat is queued or under way. */
  ghost predicate IsBusy(runs: seq<Run>, chat: nat) {
    exists r :: && 0 <= r < |runs| && runs[r].chat == chat
                && runs[r].state in {Queued, Preparing, Retrieving, Generating, Validating}
  }

  ghost predicate IsResent(messages: seq<Message>, input: Input) {
    exists m :: && 0 <= m < |messages| && messages[m].chat == input.chat
                && messages[m].clientMessageId == Some(input.clientMessageId)
  }

  lemma LimitsAreForm(input: Input)
    ensures FitsLimits(input) <==> WellFormed(input)
  {
    assert Trim(input.text) != "" <==> |Trim(input.text)| > 0;
    if input.labels.Some? {
      assert forall l :: l in Labels(input) <==> exists k :: 0 <= k < |Labels(input)| && Labels(input)[k] == l;
    }
  }

  lemma BusyIsActive(runs: seq<Run>, chat: nat)
    ensures IsBusy(runs, chat) <==> HasActive(runs, chat)
  {
    assert forall s: RunState :: s in {Queued, Preparing, Retrieving, Generating, Validating} <==> IsActive(s);
  }

  lemma RetryIsTaken(runs: seq<Run>, input: Input)
    ensures IsRetry(runs, input) <==> KeyTaken(runs, input.company, input.user, input.idempotencyKey)
    ensures FindByKey(runs, input.company, input.user, input.idempotencyKey).Some? <==> IsRetry(runs, input)
  {
    var found := FindByKey(runs, input.company, input.user, input.idempotencyKey);
    if found.Some? { assert HasKey(runs[found.value], input.company, input.user, input.idempotencyKey); }
    if r :| && 0 <= r < |runs| && runs[r].company == input.company && runs[r].actor == input.user
            && runs[r].idempotencyKey == input.idempotencyKey {
      assert HasKey(runs[r], input.company, input.user, input.idempotencyKey);
    }
  }

  lemma ResentIsTaken(messages: seq<Message>, input: Input)
    ensures IsResent(messages, input) <==> ClientMessageTaken(messages, input.chat, input.clientMessageId)
  {}

  /** Which answer a request gets. */
  lemma RequestIsDecided(db: Tables, input: Input, chatEnabled: bool, now: nat)
    ensures var outcome := CreateMessage(db, input, chatEnabled, now).1;
            if !FitsLimits(input) then outcome == Refused(InvalidInput)
            else if !IsOwnChat(db.chats, input) then outcome == Refused(NotFound)
            else if !chatEnabled then outcome == Refused(Forbidden)
            else if IsRetry(db.runs, input) then outcome == Refused(InvalidInput) || outcome.Existing?
            else if IsBusy(db.runs, input.chat) then outcome == Refused(RunInProgress)
            else if IsResent(db.messages, input) then outcome == Refused(Conflict)
            else outcome == Created(|db.runs|)
  {
    LimitsAreForm(input);
    BusyIsActive(db.runs, input.chat);
    RetryIsTaken(db.runs, input);
    ResentIsTaken(db.messages, input);
  }

  /** A request that makes a run adds one message, in its words, and one run that is to be worked on. */
  lemma RequestIsStored(db: Tables, input: Input, chatEnabled: bool, now: nat, db': Tables, r: nat)
    requires CreateMessage(db, input, chatEnabled, now) == (db', Created(r))
    ensures r == |db.runs| && |db'.runs| == r + 1 && db.runs <= db'.runs
    ensures |db'.messages| == |db.messages| + 1 && db.messages <= db'.messages
    ensures db'.chats == db.chats && db'.answers == db.answers
    ensures var message := db'.messages[|db.messages|];
            && message.text == Trim(input.text) && message.role.User? && message.chat == input.chat
            && message.clientMessageId == Some(input.clientMessageId)
    ensures var run := db'.runs[r];
            && run.chat == input.chat && run.userMessage == |db.messages| && run.actor == input.user
            && run.company == input.company && run.idempotencyKey == input.idempotencyKey
            && run.receivedAt == now && run.state.Queued?
  {}

  /** A request that makes no run changes nothing. */
  lemma OtherwiseNothingIsStored(db: Tables, input: Input, chatEnabled: bool, now: nat)
    ensures var (db', outcome) := CreateMessage(db, input, chatEnabled, now); !outcome.Created? ==> db' == db
  {}

  /** The run remembers the request as it was sent, but for a detail that the chat decides. */
  lemma RequestIsRemembered(db: Tables, input: Input, chatEnabled: bool, now: nat, db': Tables, r: nat)
    requires CreateMessage(db, input, chatEnabled, now) == (db', Created(r))
    ensures input.chat < |db.chats| && r < |db'.runs|
    ensures db'.runs[r].requestHash ==
            RequestHash(
              if input.responseDetail in {"auto", "brief", "detailed"} then input
              else input.(responseDetail := db.chats[input.chat].responseDetail))
  {
    var request := Resolved(db.chats[input.chat], input);
    TrimmedStays(Trim(input.text));
    assert ValidDetail(input.responseDetail) <==> input.responseDetail in {"auto", "brief", "detailed"};
  }

  /** Once a chat is deleted, no request for it ever makes a run again, however the system goes on. */
  lemma DeletedStaysClosed(
    s: State, user: nat, db: Tables, steps: seq<Step>, s': State, input: Input, chatEnabled: bool, now: nat)
    requires DeleteChat(s.db, user, input.chat) == (db, None)
    requires CanRun(s.(db := db), steps) && s' == After(s.(db := db), steps)
    ensures CreateMessage(s'.db, input, chatEnabled, now) ==
            (s'.db, Refused(if FitsLimits(input) then NotFound else InvalidInput))
  {
    LimitsAreForm(input);
    RunExtends(s.(db := db), steps);
    assert db.chats[input.chat].deleted;
  }

  // ----- what a transaction keeps -----

  /** Whatever any number of workers keep, and every row written so far. */
  ghost predicate Keeps(db: Tables, db': Tables) {
    Extends(db, db') && (AlwaysHolds(db) ==> AlwaysHolds(db'))
  }

  /** Also the match of answers and runs, and the end of every run that has ended. */
  ghost predicate KeepsSound(db: Tables, db': Tables) {
    Keeps(db, db') && ClosedStay(db, db') && (Sound(db) ==> Sound(db'))
  }

  lemma NothingKeeps(db: Tables)
    ensures KeepsSound(db, db)
  {
    SameExtends(db, db);
  }

  lemma AddKeepsSound(db: Tables, input: Input, hash: Hash, now: nat, db': Tables)
    requires db' == AddRequest(db, input, hash, now).0
    ensures KeepsSound(db, db')
  {
    RequestExtends(db, input, hash, now, db');
    if AlwaysHolds(db) { RequestAlwaysHolds(db, input, hash, now, db'); }
    if Sound(db) { AddSound(db, input, hash, now, db'); }
  }

  lemma CreateKeepsSound(db: Tables, input: Input, chatEnabled: bool, now: nat, db': Tables)
    requires db' == CreateMessage(db, input, chatEnabled, now).0
    ensures KeepsSound(db, db')
  {
    NothingKeeps(db);
    if db' != db {
      var request := Resolved(db.chats[input.chat], input);
      AddKeepsSound(db, request, RequestHash(request), now, db');
    }
  }

  lemma ClaimKeepsSound(db: Tables, r: nat, now: nat, db': Tables)
    requires r < |db.runs| && db' == ClaimRun(db, r, now).0
    ensures KeepsSound(db, db')
  {
    ClaimExtends(db, r, now, db');
    if AlwaysHolds(db) { ClaimAlwaysHolds(db, r, now, db'); }
    if Sound(db) { ClaimSound(db, r, now, db'); }
  }

  lemma SaveKeeps(db: Tables, r: nat, db': Tables)
    requires r < |db.runs| && db' == SaveSnapshot(db, r)
    ensures Keeps(db, db') && (IsActive(db.runs[r].state) ==> KeepsSound(db, db'))
  {
    SaveExtends(db, r, db');
    if AlwaysHolds(db) { SaveAlwaysHolds(db, r, db'); }
    if Sound(db) && IsActive(db.runs[r].state) { SnapshotSound(db, r, db'); }
  }

  lemma CommitKeeps(db: Tables, r: nat, text: string, db': Tables)
    requires r < |db.runs| && db' == CommitAnswer(db, r, text)
    ensures Keeps(db, db') && (IsActive(db.runs[r].state) ==> KeepsSound(db, db'))
  {
    StateExtends(db, r, Completed, db');
    if AlwaysHolds(db) { CommitAlwaysHolds(db, r, text, db'); }
    if Sound(db) && IsActive(db.runs[r].state) { CommitSound(db, r, text, db'); }
  }

  lemma FailKeeps(db: Tables, r: nat, db': Tables)
    requires r < |db.runs| && db' == FailRun(db, r)
    ensures Keeps(db, db') && (IsActive(db.runs[r].state) ==> KeepsSound(db, db'))
  {
    FailExtends(db, r, db');
    if AlwaysHolds(db) { FailAlwaysHolds(db, r, db'); }
    if Sound(db) && IsActive(db.runs[r].state) { FailSound(db, r, db'); }
  }

  lemma DeleteKeepsSound(db: Tables, user: nat, chat: nat, db': Tables)
    requires db' == DeleteChat(db, user, chat).0
    ensures KeepsSound(db, db')
  {
    SameExtends(db, db');
    if AlwaysHolds(db) { ChatsAlwaysHold(db, db'); }
    if Sound(db) { DeleteSound(db, user, chat, db'); }
  }

  /** The snapshot of an active run takes effect; that of an ended run does where its chat has none active. */
  lemma SnapshotTakes(db: Tables, r: nat, db': Tables)
    requires r < |db.runs| && OneActive(db.runs) && db' == SaveSnapshot(db, r)
    ensures db'.runs[r].state.Generating? <==> IsActive(db.runs[r].state) || !HasActive(db.runs, db.runs[r].chat)
  {}

  /** When its active run ends, a chat is free for the next request. */
  lemma ChatIsFree(db: Tables, r: nat, db': Tables)
    requires r < |db.runs| && OneActive(db.runs) && IsActive(db.runs[r].state) && |db'.runs| == |db.runs|
    requires !IsActive(db'.runs[r].state) && forall o :: 0 <= o < |db.runs| && o != r ==> db'.runs[o] == db.runs[o]
    requires SameButState(db.runs[r], db'.runs[r])
    ensures !HasActive(db'.runs, db'.runs[r].chat)
  {}

  // ----- one pass of recovery -----

  /** What becomes of a listed run: its claim may fail, its question may fail before the snapshot, and
      after it the run is answered, fails, or is left as it is. */
  datatype Reply =
    | ClaimFails
    | FailsEarly
    | Drafts(saved: bool, ending: Ending)

  datatype Ending = Answers(text: string) | Fails | GivesUp

  predicate EndsAs(reply: Reply, before: RunState, after: RunState) {
    match reply
    case ClaimFails => after == before
    case FailsEarly => after.Failed?
    case Drafts(_, Answers(_)) => after.Completed?
    case Drafts(_, Fails) => after.Failed?
    case Drafts(_, GivesUp) => after.Retrieving? || after.Generating?
  }

  /** The system with one worker. */
  function Alone(db: Tables, worker: Worker, now: nat): State {
    State(db, [worker], now)
  }

  lemma AloneTakes(db: Tables, worker: Worker, now: nat, step: Step, db': Tables, worker': Worker)
    requires var s := Alone(db, worker, now); Enabled(s, step) && Next(s, step) == Working(s, db', 0, worker')
    ensures Leads(Alone(db, worker, now), [step], Alone(db', worker', now))
  {
    assert [worker][0 := worker'] == [worker'];
    StepLeads(Alone(db, worker, now), step, Alone(db', worker', now));
  }

  /** Only run r changes among the runs. */
  predicate OnlyRun(runs: seq<Run>, runs': seq<Run>, r: nat) {
    |runs'| == |runs| && forall o :: 0 <= o < |runs| && o != r ==> runs'[o] == runs[o]
  }

  /** The first k listed runs have ended as their replies say, and no other run has changed. */
  predicate PassedOver(runs: seq<Run>, runs': seq<Run>, pending: seq<nat>, replies: seq<Reply>, k: nat)
    requires k <= |pending| == |replies| && forall j :: 0 <= j < |pending| ==> pending[j] < |runs|
  {
    && |runs'| == |runs|
    && (forall r :: 0 <= r < |runs| && r !in pending[..k] ==> runs'[r] == runs[r])
    && forall j :: 0 <= j < k ==> EndsAs(replies[j], runs[pending[j]].state, runs'[pending[j]].state)
  }

  /** An answer to a run. */
  datatype Answer = Answer(run: nat, text: string)

  /** Message m is the answer to run r, word for word. */
  ghost predicate IsAnswerRow(db: Tables, m: nat, r: nat, text: string) {
    && m < |db.messages| && r < |db.runs| && m in db.answers && db.answers[m] == r
    && db.messages[m].text == text && db.messages[m].role.Assistant? && db.messages[m].chat == db.runs[r].chat
    && db.messages[m].clientMessageId.None?
  }

  /** The messages are the former ones and then the answers, one after the other. */
  ghost predicate NewAnswers(messages: seq<Message>, db: Tables, given: seq<Answer>) {
    && messages <= db.messages && |db.messages| == |messages| + |given|
    && forall n :: 0 <= n < |given| ==> IsAnswerRow(db, |messages| + n, given[n].run, given[n].text)
  }

  /** The answer is stored as it was given. */
  lemma CommitStores(db: Tables, r: nat, text: string, db': Tables)
    requires r < |db.runs| && db' == CommitAnswer(db, r, text)
    ensures NewAnswers(db.messages, db', [Answer(r, text)]) && db'.runs[r].state.Completed?
  {
    assert IsAnswerRow(db', |db.messages|, r, text);
  }

  function Given(r: nat, reply: Reply): seq<Answer> {
    if reply.Drafts? && reply.ending.Answers? then [Answer(r, reply.ending.text)] else []
  }

  /** The answers among the replies, in order. */
  function AllGiven(pending: seq<nat>, replies: seq<Reply>): seq<Answer>
    requires |pending| == |replies|
  {
    if pending == [] then []
    else
      var k := |pending| - 1;
      AllGiven(pending[..k], replies[..k]) + Given(pending[k], replies[k])
  }

  lemma GivenMore(pending: seq<nat>, replies: seq<Reply>, k: nat)
    requires k < |pending| == |replies|
    ensures AllGiven(pending[..k + 1], replies[..k + 1]) ==
            AllGiven(pending[..k], replies[..k]) + Given(pending[k], replies[k])
  {
    assert pending[..k + 1][..k] == pending[..k] && replies[..k + 1][..k] == replies[..k];
  }

  lemma AnswerRowStays(db: Tables, db': Tables, m: nat, r: nat, text: string)
    requires Extends(db, db') && IsAnswerRow(db, m, r, text)
    ensures IsAnswerRow(db', m, r, text)
  {
    assert SameButState(db.runs[r], db'.runs[r]);
  }

  lemma AnswersAcross(messages: seq<Message>, b: Tables, c: Tables, given: seq<Answer>, more: seq<Answer>)
    requires NewAnswers(messages, b, given) && NewAnswers(b.messages, c, more) && Extends(b, c)
    ensures NewAnswers(messages, c, given + more)
  {
    var all := given + more;
    forall n | 0 <= n < |all| ensures IsAnswerRow(c, |messages| + n, all[n].run, all[n].text) {
      if n < |given| {
        AnswerRowStays(b, c, |messages| + n, given[n].run, given[n].text);
      } else {
        var k := n - |given|;
        assert all[n] == more[k] && IsAnswerRow(c, |b.messages| + k, more[k].run, more[k].text);
      }
    }
  }

  lemma PassesOver(
    runs: seq<Run>, runs': seq<Run>, runs'': seq<Run>, pending: seq<nat>, replies: seq<Reply>, k: nat, now: nat)
    requires IsBatch(runs, now, pending) && k < |pending| == |replies| && PassedOver(runs, runs', pending, replies, k)
    requires OnlyRun(runs', runs'', pending[k])
    requires Recoverable(runs'[pending[k]], now) ==>
               EndsAs(replies[k], runs'[pending[k]].state, runs''[pending[k]].state)
    ensures PassedOver(runs, runs'', pending, replies, k + 1)
  {
    assert pending[k] !in pending[..k];
    assert pending[..k + 1] == pending[..k] + [pending[k]];
    forall j | 0 <= j < k ensures EndsAs(replies[j], runs[pending[j]].state, runs''[pending[j]].state) {
      assert pending[j] != pending[k];
    }
  }

  lemma StillListed(runs: seq<Run>, runs': seq<Run>, pending: seq<nat>, replies: seq<Reply>, k: nat, now: nat)
    requires IsBatch(runs, now, pending) && k < |pending| == |replies| && PassedOver(runs, runs', pending, replies, k)
    ensures Recoverable(runs'[pending[k]], now)
  {
    assert pending[k] !in pending[..k];
  }

  lemma ClaimTakes(db: Tables, r: nat, rest: seq<nat>, now: nat)
    requires r < |db.runs|
    ensures var (db', claimed) := ClaimRun(db, r, now);
            Leads(
              Alone(db, Listed([r] + rest), now), [Claim(0)],
              Alone(db', if claimed then Claimed(r, rest) else Listed(rest), now))
  {
    assert ([r] + rest)[1..] == rest;
    var (db', claimed) := ClaimRun(db, r, now);
    AloneTakes(db, Listed([r] + rest), now, Claim(0), db', if claimed then Claimed(r, rest) else Listed(rest));
  }

  lemma SkipTakes(db: Tables, r: nat, rest: seq<nat>, now: nat)
    ensures Leads(Alone(db, Listed([r] + rest), now), [Skip(0)], Alone(db, Listed(rest), now))
  {
    assert ([r] + rest)[1..] == rest;
    AloneTakes(db, Listed([r] + rest), now, Skip(0), db, Listed(rest));
  }

  class Store {
    var chats: seq<Chat>
    var messages: seq<Message>
    var runs: seq<Run>
    ghost var answers: map<nat, nat>

    ghost function Db(): Tables
      reads this
    {
      Tables(chats, messages, runs, answers)
    }

    constructor ()
      ensures Db() == Tables([], [], [], map[]) && Sound(Db())
    {
      chats, messages, runs, answers := [], [], [], map[];
    }

    /** SELECT COALESCE(max(sequence),0)+1 over a chat. */
    method NextSequence(chat: nat) returns (sequence: nat)
      ensures sequence == MaxSequence(messages, chat) + 1
    {
      var highest := 0;
      for m := 0 to |messages|
        invariant highest == MaxSequence(messages[..m], chat)
      {
        assert messages[..m + 1][..m] == messages[..m];
        if messages[m].chat == chat { highest := Max(highest, messages[m].sequence); }
      }
      assert messages[..|messages|] == messages;
      return highest + 1;
    }

    /** SELECT count(*) of the active runs of a chat, compared with zero. */
    method AnyActive(chat: nat) returns (active: bool)
      ensures active == HasActive(runs, chat)
    {
      for r := 0 to |runs|
        invariant !HasActive(runs[..r], chat)
      {
        if runs[r].chat == chat && IsActive(runs[r].state) { return true; }
      }
      return false;
    }

    method FindRun(company: nat, actor: nat, key: string) returns (found: Option<nat>)
      ensures found == FindByKey(runs, company, actor, key)
    {
      var n := |runs|;
      assert runs[..n] == runs;
      while n > 0
        invariant n <= |runs| && FindByKey(runs[..n], company, actor, key) == FindByKey(runs, company, actor, key)
      {
        n := n - 1;
        if HasKey(runs[n], company, actor, key) { return Some(n); }
        assert runs[..n + 1][..n] == runs[..n];
      }
      return None;
    }

    method AddMessageAndRun(input: Input, hash: Hash, now: nat) returns (outcome: Outcome)
      modifies this
      ensures (Db(), outcome) == AddRequest(old(Db()), input, hash, now)
    {
      if !(input.chat < |chats| && chats[input.chat].owner == input.user && !chats[input.chat].deleted) {
        return Refused(NotFound);
      }
      var active := AnyActive(input.chat);
      if active { return Refused(RunInProgress); }
      var sequence := NextSequence(input.chat);
      if ClientMessageTaken(messages, input.chat, input.clientMessageId) { return Refused(Conflict); }
      if KeyTaken(runs, input.company, input.user, input.idempotencyKey) { return Refused(Conflict); }
      var message := Message(input.chat, sequence, User, Some(input.clientMessageId), input.text);
      var run := Run(
        input.chat, |messages|, input.user, input.company, input.idempotencyKey, hash, now, Queued);
      messages := messages + [message];
      runs := runs + [run];
      return Created(|runs| - 1);
    }

    method Create(input: Input, chatEnabled: bool, now: nat) returns (outcome: Outcome)
      modifies this
      ensures (Db(), outcome) == CreateMessage(old(Db()), input, chatEnabled, now)
      ensures KeepsSound(old(Db()), Db())
    {
      CreateKeepsSound(Db(), input, chatEnabled, now, CreateMessage(Db(), input, chatEnabled, now).0);
      if !WellFormed(input) { return Refused(InvalidInput); }
      if !(input.chat < |chats| && chats[input.chat].owner == input.user && !chats[input.chat].deleted) {
        return Refused(NotFound);
      }
      if chats[input.chat].company != input.company { return Refused(NotFound); }
      var request := Resolved(chats[input.chat], input);
      if !chatEnabled { return Refused(Forbidden); }
      var hash := RequestHash(request);
      var existing := FindRun(input.company, input.user, input.idempotencyKey);
      if existing.Some? {
        return if runs[existing.value].requestHash == hash then Existing(existing.value) else Refused(InvalidInput);
      }
      outcome := AddMessageAndRun(request, hash, now);
    }

    /** A run that was just claimed can be claimed again at once exactly when it is over two minutes old. */
    method Claim(r: nat, now: nat) returns (claimed: bool)
      requires r < |runs|
      modifies this`runs
      ensures (Db(), claimed) == ClaimRun(old(Db()), r, now)
      ensures claimed <==> old(runs[r].state) == Queued
                           || (&& old(runs[r].state) in {Preparing, Retrieving, Generating, Validating}
                               && runs[r].receivedAt + 120 < now)
      ensures runs == if claimed then old(runs)[r := old(runs)[r].(state := Retrieving)] else old(runs)
      ensures KeepsSound(old(Db()), Db()) && OnlyRun(old(runs), runs, r)
      ensures claimed ==>
                old(IsActive(runs[r].state)) && (Recoverable(runs[r], now) <==> runs[r].receivedAt + STALE_AFTER < now)
    {
      ClaimKeepsSound(Db(), r, now, ClaimRun(Db(), r, now).0);
      claimed := Recoverable(runs[r], now);
      if claimed { runs := runs[r := runs[r].(state := Retrieving)]; }
    }

    /** It takes for a run that is active, and it reopens a run that has ended in a chat with none active. */
    method Save(r: nat)
      requires r < |runs|
      modifies this`runs
      ensures Db() == SaveSnapshot(old(Db()), r)
      ensures runs == old(runs) || runs == old(runs)[r := old(runs)[r].(state := Generating)]
      ensures Keeps(old(Db()), Db()) && OnlyRun(old(runs), runs, r)
      ensures old(IsActive(runs[r].state)) ==> KeepsSound(old(Db()), Db())
      ensures old(OneActive(runs)) ==>
                (runs[r].state.Generating? <==> old(IsActive(runs[r].state) || !HasActive(runs, runs[r].chat)))
    {
      SaveKeeps(Db(), r, SaveSnapshot(Db(), r));
      if OneActive(runs) { SnapshotTakes(Db(), r, SaveSnapshot(Db(), r)); }
      if !exists o :: 0 <= o < |runs| && o != r && runs[o].chat == runs[r].chat && IsActive(runs[o].state) {
        runs := runs[r := runs[r].(state := Generating)];
      }
    }

    /** The answer comes last in its chat, which is free for the next request if the run was its active one. */
    method Commit(r: nat, text: string)
      requires r < |runs|
      modifies this
      ensures Db() == CommitAnswer(old(Db()), r, text)
      ensures NewAnswers(old(messages), Db(), [Answer(r, text)]) && runs[r].state.Completed?
      ensures Keeps(old(Db()), Db()) && OnlyRun(old(runs), runs, r)
      ensures old(IsActive(runs[r].state)) ==> KeepsSound(old(Db()), Db())
      ensures old(OneActive(runs) && IsActive(runs[r].state)) ==> !HasActive(runs, runs[r].chat)
    {
      CommitKeeps(Db(), r, text, CommitAnswer(Db(), r, text));
      CommitStores(Db(), r, text, CommitAnswer(Db(), r, text));
      if OneActive(runs) && IsActive(runs[r].state) { ChatIsFree(Db(), r, CommitAnswer(Db(), r, text)); }
      var sequence := NextSequence(runs[r].chat);
      answers := answers[|messages| := r];
      messages := messages + [Message(runs[r].chat, sequence, Assistant, None, text)];
      runs := runs[r := runs[r].(state := Completed)];
    }

    /** An ended run stays as it is; an active one frees its chat. */
    method Fail(r: nat)
      requires r < |runs|
      modifies this`runs
      ensures Db() == FailRun(old(Db()), r)
      ensures Keeps(old(Db()), Db()) && OnlyRun(old(runs), runs, r)
      ensures match old(runs[r].state)
              case Completed | Failed | Cancelled | AccessRevoked => runs == old(runs)
              case _ => runs[r].state.Failed?
      ensures old(IsActive(runs[r].state)) ==> KeepsSound(old(Db()), Db())
      ensures old(OneActive(runs) && IsActive(runs[r].state)) ==> !HasActive(runs, runs[r].chat)
    {
      FailKeeps(Db(), r, FailRun(Db(), r));
      if OneActive(runs) && IsActive(runs[r].state) { ChatIsFree(Db(), r, FailRun(Db(), r)); }
      if !IsClosed(runs[r].state) { runs := runs[r := runs[r].(state := Failed)]; }
    }

    method Delete(user: nat, chat: nat) returns (error: Option<Error>)
      modifies this`chats
      ensures (Db(), error) == DeleteChat(old(Db()), user, chat)
      ensures KeepsSound(old(Db()), Db())
      ensures |chats| == |old(chats)| && forall c :: 0 <= c < |chats| && c != chat ==> chats[c] == old(chats)[c]
      ensures match error
              case None =>
                chat < |chats| && chats[chat].owner == user && chats[chat] == old(chats)[chat].(deleted := true)
              case Some(_) => chats == old(chats)
      ensures error == Some(NotFound) <==> !(chat < |chats| && chats[chat].owner == user)
      ensures error == Some(RunInProgress) <==>
              && chat < |chats| && chats[chat].owner == user
              && exists r :: 0 <= r < |runs| && runs[r].chat == chat && IsActive(runs[r].state)
    {
      DeleteKeepsSound(Db(), user, chat, DeleteChat(Db(), user, chat).0);
      if chat >= |chats| || chats[chat].owner != user { return Some(NotFound); }
      var active := AnyActive(chat);
      if active { return Some(RunInProgress); }
      chats := chats[chat := chats[chat].(deleted := true)];
      return None;
    }

    /** What follows the snapshot. */
    method Finish(r: nat, ending: Ending, now: nat, ghost rest: seq<nat>) returns (ghost last: Step)
      requires r < |runs| && (runs[r].state.Retrieving? || runs[r].state.Generating?)
      modifies this
      ensures Leads(Alone(old(Db()), Prepared(r, rest), now), [last], Alone(Db(), Listed(rest), now))
      ensures OnlyRun(old(runs), runs, r) && EndsAs(Drafts(true, ending), Retrieving, runs[r].state)
      ensures NewAnswers(old(messages), Db(), Given(r, Drafts(true, ending)))
    {
      match ending {
        case Answers(text) =>
          last := Step.Commit(0, text);
          AloneTakes(Db(), Prepared(r, rest), now, last, CommitAnswer(Db(), r, text), Listed(rest));
          Commit(r, text);
        case Fails =>
          last := Step.Fail(0);
          AloneTakes(Db(), Prepared(r, rest), now, last, FailRun(Db(), r), Listed(rest));
          Fail(r);
        case GivesUp =>
          last := GiveUp(0);
          AloneTakes(Db(), Prepared(r, rest), now, last, Db(), Listed(rest));
      }
    }

    /** Everything after the claim of a run. */
    method Complete(r: nat, saved: bool, ending: Ending, now: nat, ghost rest: seq<nat>)
      returns (ghost steps: seq<Step>)
      requires r < |runs| && runs[r].state.Retrieving?
      modifies this
      ensures Leads(Alone(old(Db()), Claimed(r, rest), now), steps, Alone(Db(), Listed(rest), now))
      ensures OnlyRun(old(runs), runs, r) && EndsAs(Drafts(saved, ending), Retrieving, runs[r].state)
      ensures NewAnswers(old(messages), Db(), Given(r, Drafts(saved, ending)))
    {
      ghost var start := Alone(Db(), Claimed(r, rest), now);
      ghost var drafted := Alone(if saved then SaveSnapshot(Db(), r) else Db(), Prepared(r, rest), now);
      AloneTakes(Db(), Claimed(r, rest), now, Step.Save(0, saved), drafted.db, drafted.workers[0]);
      if saved { Save(r); }
      ghost var last := Finish(r, ending, now, rest);
      steps := [Step.Save(0, saved)] + [last];
      LeadsAcross(start, [Step.Save(0, saved)], drafted, [last], Alone(Db(), Listed(rest), now));
    }

    method RecoverOne(r: nat, reply: Reply, now: nat, ghost rest: seq<nat>) returns (ghost steps: seq<Step>)
      requires r < |runs|
      modifies this
      ensures Leads(Alone(old(Db()), Listed([r] + rest), now), steps, Alone(Db(), Listed(rest), now))
      ensures OnlyRun(old(runs), runs, r)
      ensures old(Recoverable(runs[r], now)) ==> EndsAs(reply, old(runs[r].state), runs[r].state)
      ensures NewAnswers(old(messages), Db(), if old(Recoverable(runs[r], now)) then Given(r, reply) else [])
    {
      ghost var start := Alone(Db(), Listed([r] + rest), now);
      if reply.ClaimFails? {
        SkipTakes(Db(), r, rest, now);
        return [Skip(0)];
      }
      ClaimTakes(Db(), r, rest, now);
      var claimed := Claim(r, now);
      if !claimed { return [Step.Claim(0)]; }
      ghost var taken := Alone(Db(), Claimed(r, rest), now);
      ghost var more;
      match reply {
        case FailsEarly =>
          AloneTakes(Db(), Claimed(r, rest), now, Step.Fail(0), FailRun(Db(), r), Listed(rest));
          Fail(r);
          more := [Step.Fail(0)];
        case Drafts(saved, ending) =>
          more := Complete(r, saved, ending, now, rest);
      }
      LeadsAcross(start, [Step.Claim(0)], taken, more, Alone(Db(), Listed(rest), now));
      steps := [Step.Claim(0)] + more;
    }

    /** One turn of a pass that began at start. */
    method RecoverNext(
      ghost start: State, ghost before: seq<Step>, pending: seq<nat>, replies: seq<Reply>, k: nat, now: nat)
      returns (ghost steps: seq<Step>)
      requires k < |pending| == |replies| && start.now == now && OnPass(start, before, Db(), pending, replies, k)
      modifies this
      ensures OnPass(start, steps, Db(), pending, replies, k + 1)
    {
      ghost var was := Db();
      assert pending[k..] == [pending[k]] + pending[k + 1..];
      ghost var more := RecoverOne(pending[k], replies[k], now, pending[k + 1..]);
      PassGoesOn(start, before, was, more, Db(), pending, replies, k);
      steps := before + more;
    }

    /** One pass over the runs that the query listed is a run of the system with one worker: it ends each
        listed run as its reply says, stores the answers, and leaves the other runs. */
    method RecoverRuns(pending: seq<nat>, replies: seq<Reply>, now: nat) returns (ghost steps: seq<Step>)
      requires IsBatch(runs, now, pending) && |replies| == |pending|
      modifies this
      ensures Leads(Alone(old(Db()), Listed([]), now), steps, Alone(Db(), Listed([]), now))
      ensures PassedOver(old(runs), runs, pending, replies, |pending|)
      ensures NewAnswers(old(messages), Db(), AllGiven(pending, replies))
      ensures old(Sound(Db())) ==> KeepsSound(old(Db()), Db())
    {
      ghost var start := Alone(Db(), Listed([]), now);
      PassStarts(Db(), pending, replies, now);
      steps := [List(0, pending)];
      for k := 0 to |pending|
        invariant OnPass(start, steps, Db(), pending, replies, k)
      {
        steps := RecoverNext(start, steps, pending, replies, k, now);
      }
      PassEnds(start, steps, Db(), pending, replies);
      PassKeeps(start, steps, Db());
    }
  }

  /** The pass has dealt with the first k listed runs. */
  ghost predicate OnPass(
    start: State, steps: seq<Step>, db: Tables, pending: seq<nat>, replies: seq<Reply>, k: nat)
    requires k <= |pending| == |replies|
  {
    && IsBatch(start.db.runs, start.now, pending)
    && PassedOver(start.db.runs, db.runs, pending, replies, k)
    && NewAnswers(start.db.messages, db, AllGiven(pending[..k], replies[..k]))
    && Leads(start, steps, Alone(db, Listed(pending[k..]), start.now))
  }

  lemma PassStarts(db: Tables, pending: seq<nat>, replies: seq<Reply>, now: nat)
    requires IsBatch(db.runs, now, pending) && |replies| == |pending|
    ensures OnPass(Alone(db, Listed([]), now), [List(0, pending)], db, pending, replies, 0)
  {
    AloneTakes(db, Listed([]), now, List(0, pending), db, Listed(pending));
    assert pending[0..] == pending;
  }

  lemma PassEnds(start: State, steps: seq<Step>, db: Tables, pending: seq<nat>, replies: seq<Reply>)
    requires |pending| == |replies| && OnPass(start, steps, db, pending, replies, |pending|)
    ensures Leads(start, steps, Alone(db, Listed([]), start.now))
    ensures PassedOver(start.db.runs, db.runs, pending, replies, |pending|)
    ensures NewAnswers(start.db.messages, db, AllGiven(pending, replies))
  {
    assert pending[..|pending|] == pending && replies[..|pending|] == replies && pending[|pending|..] == [];
  }

  lemma PassGoesOn(
    start: State, steps: seq<Step>, was: Tables, more: seq<Step>, db: Tables, pending: seq<nat>, replies: seq<Reply>,
    k: nat)
    requires k < |pending| == |replies| && OnPass(start, steps, was, pending, replies, k)
    requires Leads(
               Alone(was, Listed(pending[k..]), start.now), more, Alone(db, Listed(pending[k + 1..]), start.now))
    requires OnlyRun(was.runs, db.runs, pending[k]) && pending[k] < |was.runs|
    requires Recoverable(was.runs[pending[k]], start.now) ==>
               && EndsAs(replies[k], was.runs[pending[k]].state, db.runs[pending[k]].state)
               && NewAnswers(was.messages, db, Given(pending[k], replies[k]))
    ensures OnPass(start, steps + more, db, pending, replies, k + 1)
  {
    var before := Alone(was, Listed(pending[k..]), start.now);
    StillListed(start.db.runs, was.runs, pending, replies, k, start.now);
    PassesOver(start.db.runs, was.runs, db.runs, pending, replies, k, start.now);
    RunExtends(before, more);
    GivenMore(pending, replies, k);
    AnswersAcross(
      start.db.messages, was, db, AllGiven(pending[..k], replies[..k]), Given(pending[k], replies[k]));
    LeadsAcross(start, steps, before, more, Alone(db, Listed(pending[k + 1..]), start.now));
  }

  lemma PassKeeps(s: State, steps: seq<Step>, db: Tables)
    requires Leads(s, steps, Alone(db, Listed([]), s.now)) && |s.workers| == 1 && s.workers[0].Listed?
    ensures Sound(s.db) ==> KeepsSound(s.db, db)
  {
    RunExtends(s, steps);
    if AlwaysHolds(s.db) { RunAlwaysHolds(s, steps); }
    if Sound(s.db) { RunKeeps(s, steps); }
  }

  // ----- repeated requests -----

  /** The request is well formed, its chat is its user's, and the user may chat. */
  predicate Accepts(db: Tables, input: Input, chatEnabled: bool) {
    && WellFormed(input) && Owned(db, input.user, input.chat) && db.chats[input.chat].company == input.company
    && chatEnabled
  }

  lemma KeyIsOne(runs: seq<Run>, db: Tables, r: nat, company: nat, actor: nat, key: string)
    requires KeysUnique(db) && runs == db.runs && r < |runs| && HasKey(runs[r], company, actor, key)
    ensures FindByKey(runs, company, actor, key) == Some(r)
  {
    var found := FindByKey(runs, company, actor, key);
    if found.Some? {
      var o := found.value;
      assert HasKey(runs[o], runs[r].company, runs[r].actor, runs[r].idempotencyKey);
      assert HasKey(runs[r], runs[o].company, runs[o].actor, runs[o].idempotencyKey);
    }
  }

  /** What a run keeps of the request that made it. */
  ghost predicate MadeBy(run: Run, request: Input) {
    HasKey(run, request.company, request.user, request.idempotencyKey) && run.requestHash == RequestHash(request)
  }

  /** A request under the key of a run gets that run if it passes as the same, and nothing otherwise; it
      never adds a row. */
  lemma RetryDecides(db: Tables, r: nat, request: Input, again: Input, now: nat)
    requires KeysUnique(db) && r < |db.runs| && MadeBy(db.runs[r], request) && Accepts(db, again, true)
    requires request.company == again.company && request.user == again.user
    requires request.idempotencyKey == again.idempotencyKey
    ensures CreateMessage(db, again, true, now) ==
            (db,
             if PassAsSame(request, Resolved(db.chats[again.chat], again)) then Existing(r)
             else Refused(InvalidInput))
  {
    KeyIsOne(db.runs, db, r, again.company, again.user, again.idempotencyKey);
    HashDecides(request, Resolved(db.chats[again.chat], again));
  }

  lemma AddedRun(db: Tables, request: Input, hash: Hash, now: nat, db': Tables, r: nat)
    requires AddRequest(db, request, hash, now) == (db', Created(r))
    ensures r < |db'.runs| && db'.runs[r].requestHash == hash
    ensures HasKey(db'.runs[r], request.company, request.user, request.idempotencyKey)
  {}

  lemma CreatedIsAdded(
    db: Tables, input: Input, chatEnabled: bool, now: nat, db': Tables, r: nat) returns (request: Input)
    requires CreateMessage(db, input, chatEnabled, now) == (db', Created(r))
    ensures Owned(db, input.user, input.chat) && request == Resolved(db.chats[input.chat], input)
    ensures AddRequest(db, request, RequestHash(request), now) == (db', Created(r))
  {
    request := Resolved(db.chats[input.chat], input);
  }

  /** However the system goes on after a request made a run, with any number of workers, a request under
      its key gets that run if it passes as the same, and is refused otherwise. */
  lemma RetryAnyTime(
    s: State, input: Input, db: Tables, r: nat, steps: seq<Step>, s': State, again: Input, now: nat)
    requires AlwaysHolds(s.db) && CreateMessage(s.db, input, true, s.now) == (db, Created(r))
    requires CanRun(s.(db := db), steps) && s' == After(s.(db := db), steps)
    requires Accepts(s'.db, again, true)
    requires input.company == again.company && input.user == again.user && input.idempotencyKey == again.idempotencyKey
    ensures Owned(s.db, input.user, input.chat)
    ensures CreateMessage(s'.db, again, true, now) ==
            (s'.db,
             if PassAsSame(Resolved(s.db.chats[input.chat], input), Resolved(s'.db.chats[again.chat], again))
             then Existing(r) else Refused(InvalidInput))
  {
    var request := CreatedIsAdded(s.db, input, true, s.now, db, r);
    AddedRun(s.db, request, RequestHash(request), s.now, db, r);
    RequestAlwaysHolds(s.db, request, RequestHash(request), s.now, db);
    RunAlwaysHolds(s.(db := db), steps);
    RunExtends(s.(db := db), steps);
    assert SameButState(db.runs[r], s'.db.runs[r]);
    RetryDecides(s'.db, r, request, again, now);
  }
  /** Asks for a time in the year 10000 of UTC. */
  const LATE_REQUEST := Input(0, 0, 0, "q", "m", "k", "auto", [0], [], [], None, Some(LATE), None)

  /** A request over another call, under the same key, gets the run of the first. */
  lemma LateRequestGetsOtherRun(db: Tables)
    requires db == Tables([Chat(0, 0, "auto", false)], [], [], map[])
    ensures var again := LATE_REQUEST.(calls := [1]);
            var (db', outcome) := CreateMessage(db, LATE_REQUEST, true, 0);
            && outcome == Created(0) && !SameRequest(LATE_REQUEST, again)
            && CreateMessage(db', again, true, 0) == (db', Existing(0))
  {
    TrimmedStays("q");
    LateHashesAlike(LATE_REQUEST);
  }
}
