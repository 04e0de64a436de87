/** Every transaction keeps the invariant of the assistant's tables. */
module AssistantInvariant {
  import opened AssistantRequests
  import opened AssistantRuns

  lemma StateSound(db: Tables, r: nat, state: RunState, db': Tables)
    requires r < |db.runs| && Sound(db) && IsActive(db.runs[r].state) && !state.Completed?
    requires db' == SetState(db, r, state)
    ensures Sound(db')
  {
    StateAnswers(db, r, state);
    StateOneActive(db.runs, r, state);
    forall o | 0 <= o < |db'.runs| ensures ActiveIsLast(db', o) {
      assert ActiveIsLast(db, o) && SameButState(db.runs[o], db'.runs[o]);
    }
    StateRuns(db, r, state, db');
    StateKeys(db, r, state, db');
  }

  lemma ClaimSound(db: Tables, r: nat, now: nat, db': Tables)
    requires r < |db.runs| && Sound(db) && db' == ClaimRun(db, r, now).0
    ensures Sound(db')
  {
    if Recoverable(db.runs[r], now) { StateSound(db, r, Retrieving, db'); }
  }

  lemma SnapshotSound(db: Tables, r: nat, db': Tables)
    requires r < |db.runs| && Sound(db) && IsActive(db.runs[r].state) && db' == SaveSnapshot(db, r)
    ensures Sound(db')
  {
    if db' != db { StateSound(db, r, Generating, db'); }
  }

  lemma FailSound(db: Tables, r: nat, db': Tables)
    requires r < |db.runs| && Sound(db) && IsActive(db.runs[r].state) && db' == FailRun(db, r)
    ensures Sound(db')
  {
    StateSound(db, r, Failed, db');
  }

  lemma ChatsSound(db: Tables, chats: seq<Chat>, db': Tables)
    requires Sound(db) && db' == db.(chats := chats) && |db.chats| <= |chats|
    requires forall r :: 0 <= r < |db.runs| && IsActive(db.runs[r].state) && db.runs[r].chat < |db.chats| ==>
               !db.chats[db.runs[r].chat].deleted ==> !chats[db.runs[r].chat].deleted
    ensures Sound(db')
  {
    forall r | 0 <= r < |db'.runs| ensures ActiveIsLast(db', r) { assert ActiveIsLast(db, r); }
    forall m | m in db'.answers ensures Answers(db', m, db'.answers[m]) { assert Answers(db, m, db.answers[m]); }
    assert RunsHaveMessages(db');
    assert KeysUnique(db');
  }

  lemma DeleteSound(db: Tables, user: nat, chat: nat, db': Tables)
    requires Sound(db) && db' == DeleteChat(db, user, chat).0
    ensures Sound(db')
  {
    if db' != db { ChatsSound(db, db'.chats, db'); }
  }

  lemma NewChatSound(db: Tables, chat: Chat, db': Tables)
    requires Sound(db) && db' == db.(chats := db.chats + [chat])
    ensures Sound(db')
  {
    ChatsSound(db, db'.chats, db');
  }

  lemma RowsSound(db: Tables, message: Message, run: Run, db': Tables)
    requires Sound(db) && message.role.User? && run.state.Queued? && message.chat == run.chat
    requires run.chat < |db.chats| && !db.chats[run.chat].deleted && run.userMessage == |db.messages|
    requires !HasActive(db.runs, run.chat) && !KeyTaken(db.runs, run.company, run.actor, run.idempotencyKey)
    requires message.sequence == MaxSequence(db.messages, message.chat) + 1
    requires db' == db.(messages := db.messages + [message], runs := db.runs + [run])
    ensures Sound(db')
  {
    MaxIsCount(db.messages, message.chat);
    NumberedMore(db.messages, message);
    AddAnswers(db, message, run);
    AddActiveLast(db, message, run);
    AddRuns(db, message, run);
    AddOneActive(db.runs, run);
    AddKeys(db, run, db');
  }

  lemma AddSound(db: Tables, input: Input, hash: Hash, now: nat, db': Tables)
    requires Sound(db) && db' == AddRequest(db, input, hash, now).0
    ensures Sound(db') && db.runs <= db'.runs
  {
    if AddRequest(db, input, hash, now).1.Created? {
      var message, run := RequestRows(db, input, hash, now, db');
      RowsSound(db, message, run, db');
    }
  }

  lemma AnswerSound(db: Tables, r: nat, message: Message, db': Tables)
    requires Sound(db) && r < |db.runs| && IsActive(db.runs[r].state) && IsNextAnswer(db, r, message)
    requires db' == WithAnswer(db, r, message)
    ensures Sound(db')
  {
    assert ActiveIsLast(db, r);
    CommitAnswers(db, r, message);
    CommitActiveLast(db, r, message);
    NumberedMore(db.messages, message);
    StateOneActive(db.runs, r, Completed);
    StateKeys(db, r, Completed, db');
    StateRuns(db, r, Completed, db');
  }

  lemma CommitSound(db: Tables, r: nat, text: string, db': Tables)
    requires Sound(db) && r < |db.runs| && IsActive(db.runs[r].state) && db' == CommitAnswer(db, r, text)
    ensures Sound(db')
  {
    var message := AnswerRow(db, r, text);
    AnswerSound(db, r, message, db');
  }
}
