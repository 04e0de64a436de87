/** Recovery workers, requests, deletions and crashes, interleaved transaction by transaction. */
module AssistantSystem {
  import opened Options
  import opened AssistantRequests
  import opened AssistantRuns
  import opened AssistantInvariant

  /** Between two transactions a worker remembers the runs it listed and the one it works on. */
  datatype Worker =
    | Listed(pending: seq<nat>)
    | Claimed(run: nat, pending: seq<nat>)
    | Prepared(run: nat, pending: seq<nat>)

  datatype State = State(db: Tables, workers: seq<Worker>, now: nat)

  datatype Step =
    | NewChat(owner: nat, company: nat, responseDetail: string)
    | Request(input: Input)
    | List(worker: nat, pending: seq<nat>)
    | Claim(worker: nat)
    | Skip(worker: nat)
    | Save(worker: nat, saved: bool)
    | Commit(worker: nat, text: string)
    | Fail(worker: nat)
    | GiveUp(worker: nat)
    | Crash(worker: nat)
    | Delete(user: nat, chat: nat)
    | Wait(seconds: nat)

  /** The oldest recoverable runs, at most five. */
  ghost predicate IsBatch(runs: seq<Run>, now: nat, pending: seq<nat>) {
    && |pending| <= BATCH
    && (forall k :: 0 <= k < |pending| ==> pending[k] < |runs| && Recoverable(runs[pending[k]], now))
    && (forall j, k :: 0 <= j < k < |pending| ==>
          pending[j] != pending[k] && runs[pending[j]].receivedAt <= runs[pending[k]].receivedAt)
    && forall r :: 0 <= r < |runs| && Recoverable(runs[r], now) && r !in pending ==>
         |pending| == BATCH && runs[pending[BATCH - 1]].receivedAt <= runs[r].receivedAt
  }

  /** A run that is left out is no older than any that is listed, and five are listed. */
  lemma BatchIsOldest(runs: seq<Run>, now: nat, pending: seq<nat>, r: nat)
    requires IsBatch(runs, now, pending) && r < |runs| && Recoverable(runs[r], now) && r !in pending
    ensures |pending| == 5
    ensures forall k :: 0 <= k < |pending| ==> pending[k] < |runs| && runs[pending[k]].receivedAt <= runs[r].receivedAt
  {
    assert forall k :: 0 <= k < BATCH - 1 ==> runs[pending[k]].receivedAt <= runs[pending[BATCH - 1]].receivedAt;
  }

  function Init(workers: nat): State {
    State(Tables([], [], [], map[]), seq(workers, _ => Listed([])), 0)
  }

  ghost predicate Enabled(s: State, step: Step) {
    match step
    case List(w, pending) => w < |s.workers| && s.workers[w] == Listed([]) && IsBatch(s.db.runs, s.now, pending)
    case Claim(w) =>
      && w < |s.workers| && s.workers[w].Listed? && s.workers[w].pending != []
      && s.workers[w].pending[0] < |s.db.runs|
    case Skip(w) => w < |s.workers| && s.workers[w].Listed? && s.workers[w].pending != []
    case Save(w, _) => w < |s.workers| && s.workers[w].Claimed? && s.workers[w].run < |s.db.runs|
    case Commit(w, _) => w < |s.workers| && s.workers[w].Prepared? && s.workers[w].run < |s.db.runs|
    case Fail(w) => w < |s.workers| && !s.workers[w].Listed? && s.workers[w].run < |s.db.runs|
    case GiveUp(w) => w < |s.workers| && !s.workers[w].Listed?
    case Crash(w) => w < |s.workers|
    case _ => true
  }

  function Working(s: State, db: Tables, w: nat, worker: Worker): State
    requires w < |s.workers|
  {
    s.(db := db, workers := s.workers[w := worker])
  }

  function Next(s: State, step: Step): State
    requires Enabled(s, step)
  {
    match step
    case NewChat(owner, company, detail) => s.(db := s.db.(chats := s.db.chats + [Chat(owner, company, detail, false)]))
    case Request(input) => s.(db := AddRequest(s.db, input, RequestHash(input), s.now).0)
    case List(w, pending) => Working(s, s.db, w, Listed(pending))
    case Claim(w) =>
      var r, rest := s.workers[w].pending[0], s.workers[w].pending[1..];
      var (db, claimed) := ClaimRun(s.db, r, s.now);
      Working(s, db, w, if claimed then Claimed(r, rest) else Listed(rest))
    case Skip(w) => Working(s, s.db, w, Listed(s.workers[w].pending[1..]))
    case Save(w, saved) =>
      var r, rest := s.workers[w].run, s.workers[w].pending;
      Working(s, if saved then SaveSnapshot(s.db, r) else s.db, w, Prepared(r, rest))
    case Commit(w, text) => Working(s, CommitAnswer(s.db, s.workers[w].run, text), w, Listed(s.workers[w].pending))
    case Fail(w) => Working(s, FailRun(s.db, s.workers[w].run), w, Listed(s.workers[w].pending))
    case GiveUp(w) => Working(s, s.db, w, Listed(s.workers[w].pending))
    case Crash(w) => Working(s, s.db, w, Listed([]))
    case Delete(user, chat) => s.(db := DeleteChat(s.db, user, chat).0)
    case Wait(seconds) => s.(now := s.now + seconds)
  }

  /** The steps can be taken one after the other from s. */
  ghost predicate CanRun(s: State, steps: seq<Step>)
    decreases |steps|
  {
    steps != [] ==> Enabled(s, steps[0]) && CanRun(Next(s, steps[0]), steps[1..])
  }

  function After(s: State, steps: seq<Step>): State
    requires CanRun(s, steps)
    decreases |steps|
  {
    if steps == [] then s else After(Next(s, steps[0]), steps[1..])
  }

  ghost predicate Leads(s: State, steps: seq<Step>, s': State) {
    CanRun(s, steps) && After(s, steps) == s'
  }

  ghost predicate Reachable(workers: nat, s: State) {
    exists steps :: Leads(Init(workers), steps, s)
  }

  // ----- what the service relies on -----

  /** The join from an assistant message to the run that produced it. */
  predicate JoinFinds(db: Tables, m: nat, r: nat)
    requires m < |db.messages|
  {
    && r < |db.runs| && db.runs[r].chat == db.messages[m].chat && db.runs[r].state.Completed?
    && db.runs[r].userMessage < |db.messages|
    && db.messages[db.runs[r].userMessage].sequence + 1 == db.messages[m].sequence
  }

  ghost predicate HasSequence(messages: seq<Message>, chat: nat, m: nat, k: nat) {
    m < |messages| && messages[m].chat == chat && messages[m].sequence == k
  }

  /** The messages of a chat have the numbers 1..n, each once. */
  ghost predicate NumberedFromOne(messages: seq<Message>) {
    && (forall m :: 0 <= m < |messages| ==> 1 <= messages[m].sequence <= Count(messages, messages[m].chat))
    && (forall m, n :: 0 <= m < n < |messages| && messages[m].chat == messages[n].chat ==>
          messages[m].sequence != messages[n].sequence)
    && forall chat, k :: Reaches(messages, chat, k) ==> Occurs(messages, chat, k)
  }

  predicate Reaches(messages: seq<Message>, chat: nat, k: nat) {
    1 <= k <= Count(messages, chat)
  }

  ghost predicate Occurs(messages: seq<Message>, chat: nat, k: nat) {
    exists m :: HasSequence(messages, chat, m, k)
  }

  ghost predicate JoinIsExact(db: Tables) {
    && (forall m :: 0 <= m < |db.messages| && db.messages[m].role.Assistant? ==>
          m in db.answers && forall r :: JoinFinds(db, m, r) <==> r == db.answers[m])
    && forall r :: 0 <= r < |db.runs| && db.runs[r].state.Completed? ==>
         exists m :: 0 <= m < |db.messages| && db.messages[m].role.Assistant? && JoinFinds(db, m, r)
  }

  ghost predicate ActiveRunsFit(db: Tables) {
    && OneActive(db.runs)
    && forall r :: 0 <= r < |db.runs| && IsActive(db.runs[r].state) ==>
         db.runs[r].chat < |db.chats| && !db.chats[db.runs[r].chat].deleted
  }

  ghost predicate Safe(db: Tables) {
    NumberedFromOne(db.messages) && JoinIsExact(db) && ActiveRunsFit(db)
  }

  lemma {:induction false} CountGrows(messages: seq<Message>, m: nat, n: nat, chat: nat)
    requires m <= n <= |messages|
    ensures Count(messages[..m], chat) <= Count(messages[..n], chat)
    ensures m < n && messages[m].chat == chat ==> Count(messages[..m], chat) < Count(messages[..n], chat)
    decreases n
  {
    if m < n {
      assert messages[..n][..n - 1] == messages[..n - 1];
      CountGrows(messages, m, n - 1, chat);
    }
  }

  lemma SequencesDiffer(messages: seq<Message>, m: nat, n: nat)
    requires Numbered(messages) && m < n < |messages| && messages[m].chat == messages[n].chat
    ensures messages[m].sequence < messages[n].sequence
  {
    CountGrows(messages, m, n, messages[m].chat);
  }

  lemma {:induction false} SequenceExists(messages: seq<Message>, chat: nat, k: nat) returns (m: nat)
    requires Numbered(messages) && 1 <= k <= Count(messages, chat)
    ensures HasSequence(messages, chat, m, k)
  {
    var front := messages[..|messages| - 1];
    NumberedFront(messages);
    if k <= Count(front, chat) {
      m := SequenceExists(front, chat, k);
    } else {
      m := |messages| - 1;
    }
  }

  lemma NumberedCovers(messages: seq<Message>)
    requires Numbered(messages)
    ensures NumberedFromOne(messages)
  {
    assert messages[..|messages|] == messages;
    forall m | 0 <= m < |messages| ensures 1 <= messages[m].sequence <= Count(messages, messages[m].chat) {
      CountGrows(messages, m, |messages|, messages[m].chat);
    }
    forall m, n | 0 <= m < n < |messages| && messages[m].chat == messages[n].chat
      ensures messages[m].sequence != messages[n].sequence
    {
      SequencesDiffer(messages, m, n);
    }
    forall chat, k | Reaches(messages, chat, k) ensures Occurs(messages, chat, k) {
      var m := SequenceExists(messages, chat, k);
    }
  }

  lemma JoinIsOne(db: Tables, m: nat, r: nat, o: nat)
    requires Sound(db) && m < |db.messages| && JoinFinds(db, m, r) && JoinFinds(db, m, o)
    ensures r == o
  {
    var a, b := db.runs[r].userMessage, db.runs[o].userMessage;
    if a < b { SequencesDiffer(db.messages, a, b); }
    if b < a { SequencesDiffer(db.messages, b, a); }
  }

  lemma SoundIsExact(db: Tables)
    requires Sound(db)
    ensures JoinIsExact(db)
  {
    forall m | 0 <= m < |db.messages| && db.messages[m].role.Assistant?
      ensures m in db.answers && forall r :: JoinFinds(db, m, r) <==> r == db.answers[m]
    {
      assert Answers(db, m, db.answers[m]);
      forall r | JoinFinds(db, m, r) ensures r == db.answers[m] { JoinIsOne(db, m, r, db.answers[m]); }
    }
    forall r | 0 <= r < |db.runs| && db.runs[r].state.Completed?
      ensures exists m :: 0 <= m < |db.messages| && db.messages[m].role.Assistant? && JoinFinds(db, m, r)
    {
      var m :| m in db.answers && db.answers[m] == r;
      assert Answers(db, m, r);
    }
  }

  lemma SoundIsSafe(db: Tables)
    requires Sound(db)
    ensures Safe(db)
  {
    NumberedCovers(db.messages);
    SoundIsExact(db);
    forall r | 0 <= r < |db.runs| && IsActive(db.runs[r].state)
      ensures db.runs[r].chat < |db.chats| && !db.chats[db.runs[r].chat].deleted
    {
      assert ActiveIsLast(db, r);
    }
  }

  // ----- one worker -----

  ghost predicate WorkerFits(db: Tables, worker: Worker) {
    worker.Listed? || (worker.run < |db.runs| && IsActive(db.runs[worker.run].state))
  }

  /** With one worker, the run it works on stays active until the worker itself closes it. */
  ghost predicate Invariant(s: State) {
    Sound(s.db) && |s.workers| <= 1 && forall w :: 0 <= w < |s.workers| ==> WorkerFits(s.db, s.workers[w])
  }

  lemma WorkersFit(s: State, s': State)
    requires Invariant(s) && Sound(s'.db) && s'.workers == s.workers
    requires s.db.runs <= s'.db.runs
    ensures Invariant(s')
  {
    forall w | 0 <= w < |s'.workers| ensures WorkerFits(s'.db, s'.workers[w]) { assert WorkerFits(s.db, s.workers[w]); }
  }

  lemma OneWorkerFits(s: State, w: nat, s': State)
    requires |s.workers| <= 1 && w < |s.workers| && Sound(s'.db) && |s'.workers| == |s.workers|
    requires WorkerFits(s'.db, s'.workers[w])
    ensures Invariant(s')
  {}

  lemma RequestKeeps(s: State, input: Input, s': State)
    requires Invariant(s) && s' == s.(db := AddRequest(s.db, input, RequestHash(input), s.now).0)
    ensures Invariant(s')
  {
    AddSound(s.db, input, RequestHash(input), s.now, s'.db);
    WorkersFit(s, s');
  }

  lemma ChatStepKeeps(s: State, step: Step, s': State)
    requires Invariant(s) && Enabled(s, step) && s' == Next(s, step) && (step.NewChat? || step.Delete?)
    ensures Invariant(s')
  {
    match step
    case NewChat(owner, company, detail) => NewChatSound(s.db, Chat(owner, company, detail, false), s'.db);
    case Delete(user, chat) => DeleteSound(s.db, user, chat, s'.db);
    WorkersFit(s, s');
  }

  lemma WorkerStepKeeps(s: State, step: Step, w: nat, s': State)
    requires Invariant(s) && Enabled(s, step) && s' == Next(s, step)
    requires step.Claim? || step.Save? || step.Commit? || step.Fail?
    requires w == step.worker
    ensures Invariant(s')
  {
    assert WorkerFits(s.db, s.workers[w]);
    match step
    case Claim(_) => ClaimSound(s.db, s.workers[w].pending[0], s.now, s'.db);
    case Save(_, saved) => if saved { SnapshotSound(s.db, s.workers[w].run, s'.db); }
    case Commit(_, text) => CommitSound(s.db, s.workers[w].run, text, s'.db);
    case Fail(_) => FailSound(s.db, s.workers[w].run, s'.db);
    OneWorkerFits(s, w, s');
  }

  lemma StepKeeps(s: State, step: Step, s': State)
    requires Invariant(s) && Enabled(s, step) && s' == Next(s, step)
    ensures Invariant(s')
  {
    match step
    case Claim(w) => WorkerStepKeeps(s, step, w, s');
    case Save(w, _) => WorkerStepKeeps(s, step, w, s');
    case Commit(w, _) => WorkerStepKeeps(s, step, w, s');
    case Fail(w) => WorkerStepKeeps(s, step, w, s');
    case NewChat(_, _, _) => ChatStepKeeps(s, step, s');
    case Request(input) => RequestKeeps(s, input, s');
    case Delete(_, _) => ChatStepKeeps(s, step, s');
    case _ =>
  }

  // ----- whole runs of the system -----

  /** An assistant message stays the answer of the run that wrote it. */
  ghost predicate AnswersStay(db: Tables, db': Tables) {
    forall m :: 0 <= m < |db.messages| ==>
      && (m in db.answers <==> m in db'.answers)
      && (m in db.answers ==> db'.answers[m] == db.answers[m])
  }

  /** A chat keeps its owner and its company, and a deleted one stays deleted. */
  ghost predicate ChatsStay(chats: seq<Chat>, chats': seq<Chat>) {
    && |chats| <= |chats'|
    && forall c :: 0 <= c < |chats| ==>
         && chats'[c].owner == chats[c].owner && chats'[c].company == chats[c].company
         && (chats[c].deleted ==> chats'[c].deleted)
  }

  /** Nothing written is taken back: messages and answers stay, and a run changes nothing but its state. */
  ghost predicate Extends(db: Tables, db': Tables) {
    && db.messages <= db'.messages && AnswersStay(db, db') && ChatsStay(db.chats, db'.chats)
    && |db.runs| <= |db'.runs|
    && forall r :: 0 <= r < |db.runs| ==> SameButState(db.runs[r], db'.runs[r])
  }

  /** A run that is completed or failed stays so. */
  ghost predicate ClosedStay(db: Tables, db': Tables)
    requires |db.runs| <= |db'.runs|
  {
    forall r :: 0 <= r < |db.runs| && !IsActive(db.runs[r].state) ==> db'.runs[r].state == db.runs[r].state
  }

  lemma StateExtends(db: Tables, r: nat, state: RunState, db': Tables)
    requires r < |db.runs| && db'.runs == db.runs[r := db.runs[r].(state := state)]
    requires db.messages <= db'.messages && AnswersStay(db, db') && db'.chats == db.chats
    ensures Extends(db, db') && (IsActive(db.runs[r].state) ==> ClosedStay(db, db'))
  {}

  lemma SameExtends(db: Tables, db': Tables)
    requires db.runs <= db'.runs && db.messages <= db'.messages && db'.answers == db.answers
    requires ChatsStay(db.chats, db'.chats)
    ensures Extends(db, db') && ClosedStay(db, db')
  {}

  lemma WorkerStepExtends(s: State, step: Step, w: nat, s': State)
    requires Enabled(s, step) && s' == Next(s, step)
    requires step.Claim? || step.Save? || step.Commit? || step.Fail?
    requires w == step.worker
    ensures Extends(s.db, s'.db) && (WorkerFits(s.db, s.workers[w]) ==> ClosedStay(s.db, s'.db))
  {
    match step
    case Claim(_) => ClaimExtends(s.db, s.workers[w].pending[0], s.now, s'.db);
    case Save(_, saved) => if saved { SaveExtends(s.db, s.workers[w].run, s'.db); } else { SameExtends(s.db, s'.db); }
    case Commit(_, text) => StateExtends(s.db, s.workers[w].run, Completed, s'.db);
    case Fail(_) => FailExtends(s.db, s.workers[w].run, s'.db);
  }

  /** A step takes nothing back, and with one worker it reopens nothing either. */
  lemma StepExtends(s: State, step: Step, s': State)
    requires Enabled(s, step) && s' == Next(s, step)
    ensures Extends(s.db, s'.db) && (Invariant(s) ==> ClosedStay(s.db, s'.db))
  {
    if step.Claim? || step.Save? || step.Commit? || step.Fail? {
      WorkerStepExtends(s, step, step.worker, s');
    } else if step.Request? {
      RequestExtends(s.db, step.input, RequestHash(step.input), s.now, s'.db);
    } else {
      OtherStepExtends(s, step, s');
    }
  }

  lemma RequestExtends(db: Tables, input: Input, hash: Hash, now: nat, db': Tables)
    requires db' == AddRequest(db, input, hash, now).0
    ensures Extends(db, db') && ClosedStay(db, db')
  {
    SameExtends(db, db');
  }

  lemma OtherStepExtends(s: State, step: Step, s': State)
    requires Enabled(s, step) && s' == Next(s, step)
    requires !(step.Claim? || step.Save? || step.Commit? || step.Fail? || step.Request?)
    ensures Extends(s.db, s'.db) && ClosedStay(s.db, s'.db)
  {
    SameExtends(s.db, s'.db);
  }

  lemma ClaimExtends(db: Tables, r: nat, now: nat, db': Tables)
    requires r < |db.runs| && db' == ClaimRun(db, r, now).0
    ensures Extends(db, db') && ClosedStay(db, db')
  {
    if Recoverable(db.runs[r], now) { StateExtends(db, r, Retrieving, db'); } else { SameExtends(db, db'); }
  }

  lemma SaveExtends(db: Tables, r: nat, db': Tables)
    requires r < |db.runs| && db' == SaveSnapshot(db, r)
    ensures Extends(db, db') && (IsActive(db.runs[r].state) ==> ClosedStay(db, db'))
  {
    if db' == db { SameExtends(db, db'); } else { StateExtends(db, r, Generating, db'); }
  }

  lemma FailExtends(db: Tables, r: nat, db': Tables)
    requires r < |db.runs| && db' == FailRun(db, r)
    ensures Extends(db, db') && (IsActive(db.runs[r].state) ==> ClosedStay(db, db'))
  {
    if IsClosed(db.runs[r].state) { SameExtends(db, db'); } else { StateExtends(db, r, Failed, db'); }
  }

  lemma {:induction false} RunKeeps(s: State, steps: seq<Step>)
    requires Invariant(s) && CanRun(s, steps)
    ensures Invariant(After(s, steps))
    ensures Extends(s.db, After(s, steps).db) && ClosedStay(s.db, After(s, steps).db)
    decreases |steps|
  {
    if steps != [] {
      var s' := Next(s, steps[0]);
      StepKeeps(s, steps[0], s');
      StepExtends(s, steps[0], s');
      RunKeeps(s', steps[1..]);
      ExtendsAcross(s.db, s'.db, After(s', steps[1..]).db);
    } else {
      SameExtends(s.db, s.db);
    }
  }

  /** With any number of workers, messages are only added and runs change nothing but their state. */
  lemma {:induction false} RunExtends(s: State, steps: seq<Step>)
    requires CanRun(s, steps)
    ensures Extends(s.db, After(s, steps).db)
    decreases |steps|
  {
    if steps != [] {
      var s' := Next(s, steps[0]);
      StepExtends(s, steps[0], s');
      RunExtends(s', steps[1..]);
      ExtendsAcross(s.db, s'.db, After(s', steps[1..]).db);
    } else {
      SameExtends(s.db, s.db);
    }
  }

  lemma ExtendsAcross(a: Tables, b: Tables, c: Tables)
    requires Extends(a, b) && Extends(b, c)
    ensures Extends(a, c) && (ClosedStay(a, b) && ClosedStay(b, c) ==> ClosedStay(a, c))
  {
    forall r | 0 <= r < |a.runs| ensures SameButState(a.runs[r], c.runs[r]) {
      assert SameButState(a.runs[r], b.runs[r]) && SameButState(b.runs[r], c.runs[r]);
    }
  }

  lemma InitIsSound(workers: nat)
    ensures Sound(Init(workers).db)
  {}

  lemma OneWorkerKeeps(workers: nat, s: State)
    requires workers <= 1 && Reachable(workers, s)
    ensures Invariant(s) && Safe(s.db)
  {
    var steps :| Leads(Init(workers), steps, s);
    InitIsSound(workers);
    RunKeeps(Init(workers), steps);
    SoundIsSafe(s.db);
  }

  // ----- any number of workers -----

  /** What no number of workers can break: numbers, one active run of a chat, and unique keys. */
  ghost predicate AlwaysHolds(db: Tables) {
    Numbered(db.messages) && RunsHaveMessages(db) && OneActive(db.runs) && KeysUnique(db)
  }

  lemma StateAlwaysHolds(db: Tables, r: nat, state: RunState, db': Tables)
    requires AlwaysHolds(db) && r < |db.runs| && (IsActive(state) ==> IsActive(db.runs[r].state))
    requires db' == SetState(db, r, state)
    ensures AlwaysHolds(db')
  {
    StateRuns(db, r, state, db');
    StateKeys(db, r, state, db');
    StateOneActive(db.runs, r, state);
  }

  /** The unique index keeps a late snapshot from opening a second run of a chat. */
  lemma SaveAlwaysHolds(db: Tables, r: nat, db': Tables)
    requires AlwaysHolds(db) && r < |db.runs| && db' == SaveSnapshot(db, r)
    ensures AlwaysHolds(db')
  {
    if db' != db {
      StateRuns(db, r, Generating, db');
      StateKeys(db, r, Generating, db');
      forall x, o | 0 <= x < o < |db'.runs| && IsActive(db'.runs[x].state) && IsActive(db'.runs[o].state)
        ensures db'.runs[x].chat != db'.runs[o].chat
      {
        if x != r && o != r { assert db.runs[x].chat != db.runs[o].chat; }
      }
    }
  }

  lemma CommitAlwaysHolds(db: Tables, r: nat, text: string, db': Tables)
    requires AlwaysHolds(db) && r < |db.runs| && db' == CommitAnswer(db, r, text)
    ensures AlwaysHolds(db')
  {
    var message := AnswerRow(db, r, text);
    NumberedMore(db.messages, message);
    StateRuns(db, r, Completed, db');
    StateKeys(db, r, Completed, db');
    StateOneActive(db.runs, r, Completed);
  }

  lemma RequestAlwaysHolds(db: Tables, input: Input, hash: Hash, now: nat, db': Tables)
    requires AlwaysHolds(db) && db' == AddRequest(db, input, hash, now).0
    ensures AlwaysHolds(db')
  {
    if AddRequest(db, input, hash, now).1.Created? {
      var message, run := RequestRows(db, input, hash, now, db');
      MaxIsCount(db.messages, message.chat);
      NumberedMore(db.messages, message);
      AddRuns(db, message, run);
      AddOneActive(db.runs, run);
      AddKeys(db, run, db');
    }
  }

  lemma ClaimAlwaysHolds(db: Tables, r: nat, now: nat, db': Tables)
    requires AlwaysHolds(db) && r < |db.runs| && db' == ClaimRun(db, r, now).0
    ensures AlwaysHolds(db')
  {
    if Recoverable(db.runs[r], now) { StateAlwaysHolds(db, r, Retrieving, db'); }
  }

  lemma FailAlwaysHolds(db: Tables, r: nat, db': Tables)
    requires AlwaysHolds(db) && r < |db.runs| && db' == FailRun(db, r)
    ensures AlwaysHolds(db')
  {
    if db' != db { StateAlwaysHolds(db, r, Failed, db'); }
  }

  lemma ChatsAlwaysHold(db: Tables, db': Tables)
    requires AlwaysHolds(db) && db' == db.(chats := db'.chats) && |db.chats| <= |db'.chats|
    ensures AlwaysHolds(db')
  {
    assert RunsHaveMessages(db');
    assert KeysUnique(db');
  }

  lemma StepAlwaysHolds(s: State, step: Step, s': State)
    requires AlwaysHolds(s.db) && Enabled(s, step) && s' == Next(s, step)
    ensures AlwaysHolds(s'.db)
  {
    match step
    case Request(input) => RequestAlwaysHolds(s.db, input, RequestHash(input), s.now, s'.db);
    case Claim(w) => ClaimAlwaysHolds(s.db, s.workers[w].pending[0], s.now, s'.db);
    case Save(w, saved) => if saved { SaveAlwaysHolds(s.db, s.workers[w].run, s'.db); }
    case Commit(w, text) => CommitAlwaysHolds(s.db, s.workers[w].run, text, s'.db);
    case Fail(w) => FailAlwaysHolds(s.db, s.workers[w].run, s'.db);
    case _ => ChatsAlwaysHold(s.db, s'.db);
  }

  lemma {:induction false} RunAlwaysHolds(s: State, steps: seq<Step>)
    requires AlwaysHolds(s.db) && CanRun(s, steps)
    ensures AlwaysHolds(After(s, steps).db)
    decreases |steps|
  {
    if steps != [] {
      StepAlwaysHolds(s, steps[0], Next(s, steps[0]));
      RunAlwaysHolds(Next(s, steps[0]), steps[1..]);
    }
  }

  /** With any number of workers messages are numbered 1..n, a chat has at most one active run, and no two
      runs share a key. */
  lemma AnyWorkersKeep(workers: nat, s: State)
    requires Reachable(workers, s)
    ensures NumberedFromOne(s.db.messages) && OneActive(s.db.runs) && KeysUnique(s.db)
  {
    var steps :| Leads(Init(workers), steps, s);
    RunAlwaysHolds(Init(workers), steps);
    NumberedCovers(s.db.messages);
  }

  // ----- two workers -----

  lemma {:induction false} LeadsAcross(s: State, a: seq<Step>, m: State, b: seq<Step>, s': State)
    requires Leads(s, a, m) && Leads(m, b, s')
    ensures Leads(s, a + b, s')
    decreases |a|
  {
    if a == [] {
      assert a + b == b;
    } else {
      assert (a + b)[0] == a[0] && (a + b)[1..] == a[1..] + b;
      LeadsAcross(Next(s, a[0]), a[1..], m, b, s');
    }
  }

  lemma StepLeads(s: State, step: Step, s': State)
    requires Enabled(s, step) && s' == Next(s, step)
    ensures Leads(s, [step], s')
  {
    assert [step][1..] == [];
    assert CanRun(s', []);
  }

  lemma ReachMore(workers: nat, s: State, step: Step, s': State)
    requires Reachable(workers, s) && Enabled(s, step) && s' == Next(s, step)
    ensures Reachable(workers, s')
  {
    var steps :| Leads(Init(workers), steps, s);
    StepLeads(s, step, s');
    LeadsAcross(Init(workers), steps, s, [step], s');
  }

  /** One run in its own chat, asked by the first of the messages. */
  ghost predicate OneRun(s: State, w: nat) {
    w < |s.workers| && |s.db.runs| == 1
  }

  lemma ListOne(workers: nat, s: State, w: nat)
    requires Reachable(workers, s) && OneRun(s, w) && s.workers[w] == Listed([]) && Recoverable(s.db.runs[0], s.now)
    ensures Reachable(workers, Working(s, s.db, w, Listed([0])))
  {
    ReachMore(workers, s, List(w, [0]), Working(s, s.db, w, Listed([0])));
  }

  lemma ClaimOne(workers: nat, s: State, w: nat)
    requires Reachable(workers, s) && OneRun(s, w) && s.workers[w] == Listed([0]) && Recoverable(s.db.runs[0], s.now)
    ensures Reachable(workers, Working(s, SetState(s.db, 0, Retrieving), w, Claimed(0, [])))
  {
    assert s.workers[w].pending[1..] == [];
    ReachMore(workers, s, Claim(w), Working(s, SetState(s.db, 0, Retrieving), w, Claimed(0, [])));
  }

  lemma SaveOne(workers: nat, s: State, w: nat)
    requires Reachable(workers, s) && OneRun(s, w) && s.workers[w] == Claimed(0, [])
    ensures Reachable(workers, Working(s, SetState(s.db, 0, Generating), w, Prepared(0, [])))
  {
    ReachMore(workers, s, Save(w, true), Working(s, SetState(s.db, 0, Generating), w, Prepared(0, [])));
  }

  lemma CommitOne(workers: nat, s: State, w: nat, text: string)
    requires Reachable(workers, s) && OneRun(s, w) && s.workers[w] == Prepared(0, [])
    ensures Reachable(workers, Working(s, CommitAnswer(s.db, 0, text), w, Listed([])))
  {
    ReachMore(workers, s, Commit(w, text), Working(s, CommitAnswer(s.db, 0, text), w, Listed([])));
  }

  /** One queued run just received, which asked the only message there is. */
  ghost predicate JustAsked(s: State) {
    && |s.db.messages| == |s.db.runs| == 1 && s.now == 0
    && s.db.runs[0].userMessage == 0 && s.db.runs[0].state.Queued? && s.db.runs[0].receivedAt == 0
    && s.db.messages[0].chat == s.db.runs[0].chat && s.db.messages[0].sequence == 1
    && forall w :: 0 <= w < |s.workers| ==> s.workers[w] == Listed([])
  }

  lemma AskFirst(workers: nat, input: Input) returns (s: State)
    requires input.user == input.company == input.chat == 0
    ensures Reachable(workers, s) && JustAsked(s) && |s.workers| == workers
  {
    var init := Init(workers);
    assert Leads(init, [], init);
    var open := init.(db := init.db.(chats := [Chat(0, 0, "auto", false)]));
    ReachMore(workers, init, NewChat(0, 0, "auto"), open);
    s := open.(db := AddRequest(open.db, input, RequestHash(input), 0).0);
    ReachMore(workers, open, Request(input), s);
    FirstRequest(open.db, input, RequestHash(input));
  }

  lemma FirstRequest(db: Tables, input: Input, hash: Hash)
    requires db.messages == [] && db.runs == [] && Owned(db, input.user, input.chat)
    ensures var db' := AddRequest(db, input, hash, 0).0;
            && |db'.messages| == |db'.runs| == 1
            && db'.runs[0].userMessage == 0 && db'.runs[0].state.Queued? && db'.runs[0].receivedAt == 0
            && db'.messages[0].chat == db'.runs[0].chat && db'.messages[0].sequence == 1
  {
    assert MaxSequence(db.messages, input.chat) == 0;
  }

  /** Two workers take the same run over, the second after two minutes. */
  lemma BothClaim(workers: nat, s: State) returns (s': State)
    requires workers >= 2 && Reachable(workers, s) && JustAsked(s) && |s.workers| == workers
    ensures Reachable(workers, s') && OneRun(s', 1) && s'.workers[0] == s'.workers[1] == Claimed(0, [])
    ensures s'.db.messages == s.db.messages && SameButState(s.db.runs[0], s'.db.runs[0])
  {
    ListOne(workers, s, 0);
    var s1 := Working(s, s.db, 0, Listed([0]));
    ClaimOne(workers, s1, 0);
    var s2 := Working(s1, SetState(s1.db, 0, Retrieving), 0, Claimed(0, []));
    var s3 := s2.(now := STALE_AFTER + 1);
    ReachMore(workers, s2, Wait(STALE_AFTER + 1), s3);
    ListOne(workers, s3, 1);
    var s4 := Working(s3, s3.db, 1, Listed([0]));
    ClaimOne(workers, s4, 1);
    s' := Working(s4, SetState(s4.db, 0, Retrieving), 1, Claimed(0, []));
  }

  lemma BothPrepare(workers: nat, s: State) returns (s': State)
    requires Reachable(workers, s) && OneRun(s, 1) && s.workers[0] == s.workers[1] == Claimed(0, [])
    ensures Reachable(workers, s') && OneRun(s', 1) && s'.workers[0] == s'.workers[1] == Prepared(0, [])
    ensures s'.db.messages == s.db.messages && SameButState(s.db.runs[0], s'.db.runs[0])
  {
    SaveOne(workers, s, 0);
    var s1 := Working(s, SetState(s.db, 0, Generating), 0, Prepared(0, []));
    SaveOne(workers, s1, 1);
    s' := Working(s1, SetState(s1.db, 0, Generating), 1, Prepared(0, []));
  }

  lemma MaxOfMore(messages: seq<Message>, m: Message)
    ensures MaxSequence(messages + [m], m.chat) == Max(MaxSequence(messages, m.chat), m.sequence)
  {
    assert (messages + [m])[..|messages|] == messages;
  }

  /** The second answer to the first message of a chat comes third. */
  lemma SecondAnswer(db: Tables, db': Tables, db'': Tables)
    requires |db.messages| == |db.runs| == 1 && db.runs[0].userMessage == 0
    requires db.messages[0].chat == db.runs[0].chat && db.messages[0].sequence == 1
    requires db' == CommitAnswer(db, 0, "a") && db'' == CommitAnswer(db', 0, "b")
    ensures |db''.messages| == 3 && db''.messages[2].role.Assistant? && db''.messages[2].sequence == 3
    ensures 2 in db''.answers && db''.answers[2] == 0 && !JoinFinds(db'', 2, 0)
  {
    var q := db.messages[0];
    assert db.messages == [] + [q];
    assert MaxSequence([], q.chat) == 0;
    MaxOfMore([], q);
    MaxOfMore(db.messages, db'.messages[1]);
  }

  lemma NotExact(db: Tables, m: nat)
    requires m < |db.messages| && db.messages[m].role.Assistant?
    requires m in db.answers && !JoinFinds(db, m, db.answers[m])
    ensures !JoinIsExact(db)
  {}

  lemma TwoWorkersClash(workers: nat) returns (s: State)
    requires workers >= 2
    ensures Reachable(workers, s) && !JoinIsExact(s.db)
  {
    s := AskFirst(workers, Input(0, 0, 0, "", "", "", "", [], [], [], None, None, None));
    var claimed := BothClaim(workers, s);
    var ready := BothPrepare(workers, claimed);
    CommitOne(workers, ready, 0, "a");
    var once := Working(ready, CommitAnswer(ready.db, 0, "a"), 0, Listed([]));
    CommitOne(workers, once, 1, "b");
    s := Working(once, CommitAnswer(once.db, 0, "b"), 1, Listed([]));
    SecondAnswer(ready.db, once.db, s.db);
    NotExact(s.db, 2);
  }

  /** What the service relies on holds in every run of the system exactly when there is at most one
      recovery worker. */
  lemma SafeExactlyWithOneWorker(workers: nat)
    ensures (forall s :: Reachable(workers, s) ==> Safe(s.db)) <==> workers <= 1
  {
    if workers <= 1 {
      forall s | Reachable(workers, s) ensures Safe(s.db) { OneWorkerKeeps(workers, s); }
    } else {
      var s := TwoWorkersClash(workers);
    }
  }
}
