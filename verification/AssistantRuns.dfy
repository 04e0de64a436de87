/** The tables behind the assistant's runs and the transactions over them. Rows are only ever added, so a
    row's identifier is its place in its table. */
module AssistantRuns {
  import opened Options
  import opened AssistantRequests

  datatype RunState =
    | Queued | Preparing | Retrieving | Generating | Validating
    | Completed | Partial | Failed | Cancelled | AccessRevoked

  datatype Role = User | Assistant

  datatype Chat = Chat(owner: nat, company: nat, responseDetail: string, deleted: bool)

  datatype Message = Message(chat: nat, sequence: nat, role: Role, clientMessageId: Option<string>, text: string)

  datatype Run = Run(
    chat: nat, userMessage: nat, actor: nat, company: nat, idempotencyKey: string, requestHash: Hash,
    receivedAt: nat, state: RunState)

  /** The tables, and which run's answer each assistant message is. */
  datatype Tables = Tables(chats: seq<Chat>, messages: seq<Message>, runs: seq<Run>, answers: map<nat, nat>)

  const STALE_AFTER := 120
  const BATCH := 5

  predicate IsActive(state: RunState) {
    state.Queued? || state.Preparing? || state.Retrieving? || state.Generating? || state.Validating?
  }

  /** The states that a failing run is not moved out of. */
  predicate IsClosed(state: RunState) {
    state.Completed? || state.Failed? || state.Cancelled? || state.AccessRevoked?
  }

  predicate HasActive(runs: seq<Run>, chat: nat) {
    exists r :: 0 <= r < |runs| && runs[r].chat == chat && IsActive(runs[r].state)
  }

  function Max(a: nat, b: nat): nat {
    if a < b then b else a
  }

  /** COALESCE(max(sequence), 0) over the messages of a chat. */
  function MaxSequence(messages: seq<Message>, chat: nat): nat {
    if messages == [] then 0
    else
      var last, rest := messages[|messages| - 1], MaxSequence(messages[..|messages| - 1], chat);
      if last.chat == chat then Max(rest, last.sequence) else rest
  }

  predicate Owned(db: Tables, user: nat, chat: nat) {
    chat < |db.chats| && db.chats[chat].owner == user && !db.chats[chat].deleted
  }

  predicate KeyTaken(runs: seq<Run>, company: nat, actor: nat, key: string) {
    exists r :: 0 <= r < |runs| && HasKey(runs[r], company, actor, key)
  }

  predicate HasKey(run: Run, company: nat, actor: nat, key: string) {
    run.company == company && run.actor == actor && run.idempotencyKey == key
  }

  predicate ClientMessageTaken(messages: seq<Message>, chat: nat, id: string) {
    exists m :: 0 <= m < |messages| && messages[m].chat == chat && messages[m].clientMessageId == Some(id)
  }

  // ----- transactions -----

  datatype Error = InvalidInput | NotFound | Forbidden | RunInProgress | Conflict

  datatype Outcome = Created(run: nat) | Existing(run: nat) | Refused(error: Error)

  /** The transaction that adds a user message and its queued run. */
  function AddRequest(db: Tables, input: Input, hash: Hash, now: nat): (Tables, Outcome) {
    if !Owned(db, input.user, input.chat) then (db, Refused(NotFound))
    else if HasActive(db.runs, input.chat) then (db, Refused(RunInProgress))
    else if ClientMessageTaken(db.messages, input.chat, input.clientMessageId)
            || KeyTaken(db.runs, input.company, input.user, input.idempotencyKey) then (db, Refused(Conflict))
    else
      var message := Message(
        input.chat, MaxSequence(db.messages, input.chat) + 1, User, Some(input.clientMessageId), input.text);
      var run := Run(
        input.chat, |db.messages|, input.user, input.company, input.idempotencyKey, hash, now, Queued);
      (db.(messages := db.messages + [message], runs := db.runs + [run]), Created(|db.runs|))
  }

  /** Queued, or active and received more than two minutes ago. */
  predicate Recoverable(run: Run, now: nat) {
    run.state.Queued? || (IsActive(run.state) && run.receivedAt + STALE_AFTER < now)
  }

  function SetState(db: Tables, r: nat, state: RunState): Tables
    requires r < |db.runs|
  {
    db.(runs := db.runs[r := db.runs[r].(state := state)])
  }

  /** Takes a run over; whether it was still to be recovered. */
  function ClaimRun(db: Tables, r: nat, now: nat): (Tables, bool)
    requires r < |db.runs|
  {
    if Recoverable(db.runs[r], now) then (SetState(db, r, Retrieving), true) else (db, false)
  }

  /** Records the sources and the state; the update looks at no state, but a chat keeps one active run. */
  function SaveSnapshot(db: Tables, r: nat): Tables
    requires r < |db.runs|
  {
    if exists o :: 0 <= o < |db.runs| && o != r && db.runs[o].chat == db.runs[r].chat && IsActive(db.runs[o].state)
    then db
    else SetState(db, r, Generating)
  }

  /** The tables with a last message that answers run r. */
  function WithAnswer(db: Tables, r: nat, message: Message): Tables
    requires r < |db.runs|
  {
    SetState(
      db.(messages := db.messages + [message], answers := db.answers[|db.messages| := r]), r, Completed)
  }

  /** The transaction that adds the answer and completes the run; it looks at no state either. */
  function CommitAnswer(db: Tables, r: nat, text: string): Tables
    requires r < |db.runs|
  {
    var chat := db.runs[r].chat;
    var message := Message(chat, MaxSequence(db.messages, chat) + 1, Assistant, None, text);
    WithAnswer(db, r, message)
  }

  function FailRun(db: Tables, r: nat): Tables
    requires r < |db.runs|
  {
    if IsClosed(db.runs[r].state) then db else SetState(db, r, Failed)
  }

  function DeleteChat(db: Tables, user: nat, chat: nat): (Tables, Option<Error>) {
    if chat >= |db.chats| || db.chats[chat].owner != user then (db, Some(NotFound))
    else if HasActive(db.runs, chat) then (db, Some(RunInProgress))
    else (db.(chats := db.chats[chat := db.chats[chat].(deleted := true)]), None)
  }

  // ----- what the tables keep -----

  /** How many of the messages belong to a chat. */
  function Count(messages: seq<Message>, chat: nat): nat {
    if messages == [] then 0
    else
      Count(messages[..|messages| - 1], chat) + if messages[|messages| - 1].chat == chat then 1 else 0
  }

  /** The messages of every chat are numbered 1, 2, 3, … in the order they came. */
  ghost predicate Numbered(messages: seq<Message>) {
    forall m :: 0 <= m < |messages| ==> messages[m].sequence == Count(messages[..m], messages[m].chat) + 1
  }

  ghost predicate RunsHaveMessages(db: Tables) {
    && (forall r :: 0 <= r < |db.runs| ==>
          var run := db.runs[r];
          && run.userMessage < |db.messages| && run.chat < |db.chats|
          && db.messages[run.userMessage].chat == run.chat && db.messages[run.userMessage].role.User?)
    && forall r, o :: 0 <= r < o < |db.runs| ==> db.runs[r].userMessage != db.runs[o].userMessage
  }

  /** The run of an active request asked the last message of its chat, which is not deleted. */
  ghost predicate ActiveIsLast(db: Tables, r: nat)
    requires r < |db.runs|
  {
    var run := db.runs[r];
    IsActive(run.state) ==>
      && run.userMessage < |db.messages| && run.chat < |db.chats|
      && db.messages[run.userMessage].sequence == Count(db.messages, run.chat)
      && !db.chats[run.chat].deleted
  }

  ghost predicate OneActive(runs: seq<Run>) {
    forall r, o :: 0 <= r < o < |runs| && IsActive(runs[r].state) && IsActive(runs[o].state) ==>
      runs[r].chat != runs[o].chat
  }

  /** Message m is the answer of run r: of its chat, right after its question. */
  ghost predicate Answers(db: Tables, m: nat, r: nat) {
    && m < |db.messages| && r < |db.runs| && db.runs[r].userMessage < |db.messages|
    && db.messages[m].role.Assistant? && db.runs[r].state.Completed?
    && db.messages[m].chat == db.runs[r].chat
    && db.messages[m].sequence == db.messages[db.runs[r].userMessage].sequence + 1
  }

  ghost predicate AnswersMatch(db: Tables) {
    && (forall m :: 0 <= m < |db.messages| ==> (db.messages[m].role.Assistant? <==> m in db.answers))
    && (forall m :: m in db.answers ==> Answers(db, m, db.answers[m]))
    && (forall m, n :: m in db.answers && n in db.answers && db.answers[m] == db.answers[n] ==> m == n)
    && (forall r :: 0 <= r < |db.runs| && db.runs[r].state.Completed? ==>
          exists m :: m in db.answers && db.answers[m] == r)
  }

  ghost predicate KeysUnique(db: Tables) {
    && forall r, o :: 0 <= r < o < |db.runs| ==>
         !HasKey(db.runs[o], db.runs[r].company, db.runs[r].actor, db.runs[r].idempotencyKey)
  }

  ghost predicate Sound(db: Tables) {
    && Numbered(db.messages) && RunsHaveMessages(db) && OneActive(db.runs) && AnswersMatch(db) && KeysUnique(db)
    && forall r :: 0 <= r < |db.runs| ==> ActiveIsLast(db, r)
  }

  lemma {:induction false} MaxIsCount(messages: seq<Message>, chat: nat)
    requires Numbered(messages)
    ensures MaxSequence(messages, chat) == Count(messages, chat)
  {
    if messages != [] {
      var front := messages[..|messages| - 1];
      NumberedFront(messages);
      MaxIsCount(front, chat);
    }
  }

  lemma NumberedFront(messages: seq<Message>)
    requires Numbered(messages) && messages != []
    ensures Numbered(messages[..|messages| - 1])
  {
    var front := messages[..|messages| - 1];
    forall m | 0 <= m < |front| ensures front[m].sequence == Count(front[..m], front[m].chat) + 1 {
      assert front[..m] == messages[..m];
    }
  }

  lemma NumberedMore(messages: seq<Message>, message: Message)
    requires Numbered(messages) && message.sequence == Count(messages, message.chat) + 1
    ensures Numbered(messages + [message])
    ensures forall chat ::
              Count(messages + [message], chat) == Count(messages, chat) + if message.chat == chat then 1 else 0
  {
    var more := messages + [message];
    assert more[..|messages|] == messages;
    forall m | 0 <= m < |more| ensures more[m].sequence == Count(more[..m], more[m].chat) + 1 {
      assert more[..m] == messages[..m];
    }
  }

  // ----- a change of state keeps them, part by part -----

  ghost predicate SameButState(a: Run, b: Run) {
    a.(state := b.state) == b
  }

  lemma StateAnswers(db: Tables, r: nat, state: RunState)
    requires r < |db.runs| && AnswersMatch(db) && !db.runs[r].state.Completed? && !state.Completed?
    ensures AnswersMatch(SetState(db, r, state))
  {
    var db' := SetState(db, r, state);
    forall m | m in db'.answers ensures Answers(db', m, db'.answers[m]) { assert Answers(db, m, db.answers[m]); }
    forall o | 0 <= o < |db'.runs| && db'.runs[o].state.Completed?
      ensures exists m :: m in db'.answers && db'.answers[m] == o
    {
      assert db.runs[o].state.Completed?;
    }
  }

  lemma StateOneActive(runs: seq<Run>, r: nat, state: RunState)
    requires r < |runs| && OneActive(runs) && (IsActive(state) ==> IsActive(runs[r].state))
    ensures OneActive(runs[r := runs[r].(state := state)])
  {}

  lemma StateKeys(db: Tables, r: nat, state: RunState, db': Tables)
    requires r < |db.runs| && KeysUnique(db) && db'.runs == db.runs[r := db.runs[r].(state := state)]
    ensures KeysUnique(db')
  {
    forall x, y | 0 <= x < y < |db'.runs|
      ensures !HasKey(db'.runs[y], db'.runs[x].company, db'.runs[x].actor, db'.runs[x].idempotencyKey)
    {
      assert SameButState(db.runs[x], db'.runs[x]) && SameButState(db.runs[y], db'.runs[y]);
      assert !HasKey(db.runs[y], db.runs[x].company, db.runs[x].actor, db.runs[x].idempotencyKey);
    }
  }

  lemma StateRuns(db: Tables, r: nat, state: RunState, db': Tables)
    requires r < |db.runs| && RunsHaveMessages(db) && db'.runs == db.runs[r := db.runs[r].(state := state)]
    requires db.messages <= db'.messages && db'.chats == db.chats
    ensures RunsHaveMessages(db')
  {}

  // ----- adding a request -----

  lemma AddAnswers(db: Tables, message: Message, run: Run)
    requires AnswersMatch(db) && message.role.User? && run.state.Queued? && RunsHaveMessages(db)
    ensures AnswersMatch(db.(messages := db.messages + [message], runs := db.runs + [run]))
  {
    var db' := db.(messages := db.messages + [message], runs := db.runs + [run]);
    forall m | m in db'.answers ensures Answers(db', m, db'.answers[m]) { assert Answers(db, m, db.answers[m]); }
    forall m | 0 <= m < |db'.messages| ensures db'.messages[m].role.Assistant? <==> m in db'.answers {
      if m == |db.messages| && m in db.answers { assert Answers(db, m, db.answers[m]); }
    }
    forall r | 0 <= r < |db'.runs| && db'.runs[r].state.Completed?
      ensures exists m :: m in db'.answers && db'.answers[m] == r
    {
      assert db.runs[r].state.Completed?;
    }
  }

  lemma AddActiveLast(db: Tables, message: Message, run: Run)
    requires Sound(db) && !HasActive(db.runs, run.chat) && message.chat == run.chat
    requires message.sequence == Count(db.messages, message.chat) + 1
    requires run.userMessage == |db.messages| && run.chat < |db.chats| && !db.chats[run.chat].deleted
    ensures var db' := db.(messages := db.messages + [message], runs := db.runs + [run]);
            forall r :: 0 <= r < |db'.runs| ==> ActiveIsLast(db', r)
  {
    var db' := db.(messages := db.messages + [message], runs := db.runs + [run]);
    NumberedMore(db.messages, message);
    forall r | 0 <= r < |db'.runs| ensures ActiveIsLast(db', r) {
      if r < |db.runs| { assert ActiveIsLast(db, r); }
    }
  }

  lemma AddRuns(db: Tables, message: Message, run: Run)
    requires RunsHaveMessages(db) && run.userMessage == |db.messages| && message.role.User?
    requires run.chat < |db.chats| && message.chat == run.chat
    ensures RunsHaveMessages(db.(messages := db.messages + [message], runs := db.runs + [run]))
  {}

  lemma AddKeys(db: Tables, run: Run, db': Tables)
    requires KeysUnique(db) && !KeyTaken(db.runs, run.company, run.actor, run.idempotencyKey)
    requires db'.runs == db.runs + [run]
    ensures KeysUnique(db')
  {
    forall r, o | 0 <= r < o < |db'.runs|
      ensures !HasKey(db'.runs[o], db'.runs[r].company, db'.runs[r].actor, db'.runs[r].idempotencyKey)
    {
      if o == |db.runs| { assert !HasKey(db.runs[r], run.company, run.actor, run.idempotencyKey); }
    }
  }

  lemma AddOneActive(runs: seq<Run>, run: Run)
    requires OneActive(runs) && !HasActive(runs, run.chat)
    ensures OneActive(runs + [run])
  {}

  lemma RequestRows(db: Tables, input: Input, hash: Hash, now: nat, db': Tables) returns (message: Message, run: Run)
    requires AddRequest(db, input, hash, now).1.Created? && db' == AddRequest(db, input, hash, now).0
    ensures db' == db.(messages := db.messages + [message], runs := db.runs + [run])
    ensures message.role.User? && run.state.Queued? && message.chat == run.chat == input.chat
    ensures run.chat < |db.chats| && !db.chats[run.chat].deleted && run.userMessage == |db.messages|
    ensures !HasActive(db.runs, run.chat) && !KeyTaken(db.runs, run.company, run.actor, run.idempotencyKey)
    ensures message.sequence == MaxSequence(db.messages, message.chat) + 1
  {
    message, run := db'.messages[|db.messages|], db'.runs[|db.runs|];
  }

  // ----- adding an answer -----

  predicate IsNextAnswer(db: Tables, r: nat, message: Message)
    requires r < |db.runs|
  {
    && message.role.Assistant? && message.chat == db.runs[r].chat
    && message.sequence == Count(db.messages, message.chat) + 1
  }

  lemma AnswerAnswers(db: Tables, r: nat, message: Message, m: nat)
    requires AnswersMatch(db) && RunsHaveMessages(db) && r < |db.runs| && IsActive(db.runs[r].state)
    requires ActiveIsLast(db, r)
    requires IsNextAnswer(db, r, message)
    requires var db' := WithAnswer(db, r, message); m in db'.answers
    ensures var db' := WithAnswer(db, r, message); Answers(db', m, db'.answers[m])
  {
    if m != |db.messages| { assert Answers(db, m, db.answers[m]); }
  }

  lemma AnswerIsNew(db: Tables, r: nat, m: nat)
    requires AnswersMatch(db) && r < |db.runs| && IsActive(db.runs[r].state) && m in db.answers
    ensures m < |db.messages| && db.answers[m] != r
  {
    assert Answers(db, m, db.answers[m]);
  }

  lemma AnswerFound(db: Tables, r: nat, message: Message, o: nat)
    requires AnswersMatch(db) && r < |db.runs| && IsActive(db.runs[r].state)
    requires var db' := WithAnswer(db, r, message); o < |db'.runs| && db'.runs[o].state.Completed?
    ensures var db' := WithAnswer(db, r, message); exists m :: m in db'.answers && db'.answers[m] == o
  {
    var db' := WithAnswer(db, r, message);
    if o == r {
      assert |db.messages| in db'.answers && db'.answers[|db.messages|] == r;
    } else {
      var m :| m in db.answers && db.answers[m] == o;
      AnswerIsNew(db, r, m);
      assert m in db'.answers && db'.answers[m] == o;
    }
  }

  lemma CommitAnswers(db: Tables, r: nat, message: Message)
    requires AnswersMatch(db) && RunsHaveMessages(db) && r < |db.runs| && IsActive(db.runs[r].state)
    requires ActiveIsLast(db, r)
    requires IsNextAnswer(db, r, message)
    ensures AnswersMatch(WithAnswer(db, r, message))
  {
    var db' := WithAnswer(db, r, message);
    forall m | m in db'.answers ensures Answers(db', m, db'.answers[m]) { AnswerAnswers(db, r, message, m); }
    forall m | m in db.answers ensures m < |db.messages| && db.answers[m] != r { AnswerIsNew(db, r, m); }
    forall o | 0 <= o < |db'.runs| && db'.runs[o].state.Completed?
      ensures exists m :: m in db'.answers && db'.answers[m] == o
    {
      AnswerFound(db, r, message, o);
    }
  }

  lemma CommitActiveLast(db: Tables, r: nat, message: Message)
    requires Sound(db) && r < |db.runs| && IsActive(db.runs[r].state) && IsNextAnswer(db, r, message)
    ensures var db' := WithAnswer(db, r, message); forall o :: 0 <= o < |db'.runs| ==> ActiveIsLast(db', o)
  {
    var db' := WithAnswer(db, r, message);
    NumberedMore(db.messages, message);
    forall o | 0 <= o < |db'.runs| ensures ActiveIsLast(db', o) {
      assert ActiveIsLast(db, o);
      if o != r && IsActive(db.runs[o].state) { assert db.runs[o].chat != db.runs[r].chat; }
    }
  }

  lemma AnswerRow(db: Tables, r: nat, text: string) returns (message: Message)
    requires Numbered(db.messages) && r < |db.runs|
    ensures CommitAnswer(db, r, text) == WithAnswer(db, r, message) && IsNextAnswer(db, r, message)
  {
    MaxIsCount(db.messages, db.runs[r].chat);
    message := CommitAnswer(db, r, text).messages[|db.messages|];
  }
}
