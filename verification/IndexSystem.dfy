/** Every interleaving of transcript edits, access changes, profile switches and indexers, and what a
    search can find after it. */
module IndexSystem {
  import opened Text
  import opened TextSplitter
  import opened TextSlices
  import opened SearchIndex

  /** What an indexer read under a profile and has not written yet. */
  datatype Indexer = Indexer(profile: nat, candidates: seq<Candidate>)

  datatype State = State(db: Tables, indexers: seq<Indexer>)

  datatype Step =
    | AddCall(payload: Payload)
    | Edit(call: nat, payload: Payload)
    | Select(call: nat, revision: nat)
    | SetPrivacy(call: nat, open: bool)
    | Activate(profile: nat)
    | Read(indexer: nat, profile: nat, calls: seq<nat>, analyses: seq<seq<Chunk>>)
    | Write(indexer: nat)
    | Abandon(indexer: nat)
    | Wait(seconds: nat)

  function Init(indexers: nat): State {
    State(Tables([], map[], [], [], 0), seq(indexers, _ => Indexer(0, [])))
  }

  predicate MayRead(db: Tables, call: nat) {
    call < |db.transcripts| && (call in db.privacy ==> db.privacy[call].open)
  }

  predicate Enabled(s: State, step: Step) {
    match step
    case Edit(call, _) => call < |s.db.transcripts|
    case Select(call, revision) => HasRevision(s.db.transcripts, call, revision)
    case Activate(profile) => profile <= |s.db.profiles|
    case Read(i, profile, calls, analyses) =>
      && i < |s.indexers| && profile < |s.db.profiles| && |analyses| == |calls|
      && forall k :: 0 <= k < |calls| ==> MayRead(s.db, calls[k]) && ActiveExists(s.db.transcripts[calls[k]])
    case Write(i) => i < |s.indexers| && s.indexers[i].candidates != []
    case Abandon(i) => i < |s.indexers|
    case _ => true
  }

  predicate ActiveExists(t: Transcript) {
    t.active < |t.revisions|
  }

  function ReadCall(transcripts: seq<Transcript>, call: nat, analysis: seq<Chunk>): Candidate
    requires call < |transcripts| && ActiveExists(transcripts[call])
  {
    var t := transcripts[call];
    Candidate(call, t.active, t.revisions[t.active], analysis)
  }

  function WithTranscript(db: Tables, call: nat, t: Transcript): Tables
    requires call < |db.transcripts|
  {
    db.(transcripts := db.transcripts[call := t])
  }

  /** Retires the active profile and makes another one active, which may be new. */
  function Activated(profiles: seq<bool>, profile: nat): seq<bool>
    requires profile <= |profiles|
  {
    seq(if profile < |profiles| then |profiles| else profile + 1, k => k == profile)
  }

  function WriteFirst(s: State, i: nat): State
    requires i < |s.indexers| && s.indexers[i].candidates != []
  {
    var c, rest := s.indexers[i].candidates[0], s.indexers[i].candidates[1..];
    if CandidateRows(c) == [] then s.(indexers := s.indexers[i := Indexer(s.indexers[i].profile, rest)])
    else
      var (db, ok) := IndexCandidate(s.db, s.indexers[i].profile, c);
      State(db, s.indexers[i := Indexer(s.indexers[i].profile, if ok then rest else [])])
  }

  function Next(s: State, step: Step): State
    requires Enabled(s, step)
  {
    match step
    case AddCall(payload) => s.(db := s.db.(transcripts := s.db.transcripts + [Transcript([payload], 0)]))
    case Edit(call, payload) =>
      var t := s.db.transcripts[call];
      s.(db := WithTranscript(s.db, call, Transcript(t.revisions + [payload], |t.revisions|)))
    case Select(call, revision) => s.(db := WithTranscript(s.db, call, s.db.transcripts[call].(active := revision)))
    case SetPrivacy(call, open) => s.(db := s.db.(privacy := s.db.privacy[call := Privacy(open, s.db.now)]))
    case Activate(profile) => s.(db := s.db.(profiles := Activated(s.db.profiles, profile)))
    case Read(i, profile, calls, analyses) =>
      s.(indexers := s.indexers[i := Indexer(
           profile,
           seq(|calls|, k requires 0 <= k < |calls| => ReadCall(s.db.transcripts, calls[k], analyses[k])))])
    case Write(i) => WriteFirst(s, i)
    case Abandon(i) => s.(indexers := s.indexers[i := Indexer(s.indexers[i].profile, [])])
    case Wait(seconds) => s.(db := s.db.(now := s.db.now + seconds))
  }

  predicate CanRun(s: State, steps: seq<Step>)
    decreases |steps|
  {
    steps != [] ==> Enabled(s, steps[0]) && CanRun(Next(s, steps[0]), steps[1..])
  }

  function After(s: State, steps: seq<Step>): State
    requires CanRun(s, steps)
    decreases |steps|
  {
    if steps == [] then s else After(Next(s, steps[0]), steps[1..])
  }

  // ----- what holds all the time -----

  /** The transcript chunks among the rows. */
  function Transcribed(rows: seq<Row>): seq<Chunk> {
    if rows == [] then []
    else Transcribed(rows[..|rows| - 1]) + if rows[|rows| - 1].kind.Transcription? then [rows[|rows| - 1].chunk] else []
  }

  /** The document has the content of its revision, and its transcript chunks are that content's. */
  ghost predicate IsFaithful(transcripts: seq<Transcript>, d: Document) {
    && HasRevision(transcripts, d.call, d.revision)
    && d.content == transcripts[d.call].revisions[d.revision]
    && Transcribed(d.chunks) == PayloadChunks(d.content)
    && !d.status.Indexing?
  }

  ghost predicate IsRead(transcripts: seq<Transcript>, c: Candidate) {
    HasRevision(transcripts, c.call, c.revision) && c.payload == transcripts[c.call].revisions[c.revision]
  }

  ghost predicate KeysDiffer(documents: seq<Document>) {
    forall i, j :: 0 <= i < j < |documents| ==>
      !HasKey(documents[j], documents[i].call, documents[i].revision, documents[i].profile)
  }

  /** A call has at most one ready document under a profile. */
  ghost predicate OneReady(documents: seq<Document>) {
    forall i, j :: 0 <= i < j < |documents| && documents[i].status.Ready? && documents[j].status.Ready? ==>
      documents[i].call != documents[j].call || documents[i].profile != documents[j].profile
  }

  ghost predicate OneProfile(profiles: seq<bool>) {
    forall i, j :: 0 <= i < j < |profiles| ==> !(profiles[i] && profiles[j])
  }

  ghost predicate DocumentsFaithful(transcripts: seq<Transcript>, documents: seq<Document>) {
    forall k :: 0 <= k < |documents| ==> IsFaithful(transcripts, documents[k])
  }

  /** Documents say what their revisions say, have keys of their own, and one is ready for a profile. */
  ghost predicate DocumentsSound(transcripts: seq<Transcript>, documents: seq<Document>) {
    DocumentsFaithful(transcripts, documents) && KeysDiffer(documents) && OneReady(documents)
  }

  ghost predicate AllRead(transcripts: seq<Transcript>, candidates: seq<Candidate>) {
    forall k :: 0 <= k < |candidates| ==> IsRead(transcripts, candidates[k])
  }

  ghost predicate IndexersRead(s: State) {
    forall i :: 0 <= i < |s.indexers| ==> AllRead(s.db.transcripts, s.indexers[i].candidates)
  }

  ghost predicate Invariant(s: State) {
    && DocumentsSound(s.db.transcripts, s.db.documents) && OneProfile(s.db.profiles)
    && IndexersRead(s)
  }

  /** Revisions are added, never rewritten. */
  ghost predicate Grows(old': seq<Transcript>, new': seq<Transcript>) {
    && |old'| <= |new'|
    && forall c :: 0 <= c < |old'| ==> old'[c].revisions <= new'[c].revisions
  }

  lemma GrowthKeeps(s: State, db: Tables)
    requires Invariant(s) && Grows(s.db.transcripts, db.transcripts)
    requires db.documents == s.db.documents && OneProfile(db.profiles)
    ensures Invariant(s.(db := db))
  {
    forall k | 0 <= k < |db.documents| ensures IsFaithful(db.transcripts, db.documents[k]) {
      assert IsFaithful(s.db.transcripts, db.documents[k]);
    }
    forall i | 0 <= i < |s.indexers| ensures AllRead(db.transcripts, s.indexers[i].candidates) {
      assert AllRead(s.db.transcripts, s.indexers[i].candidates);
      forall k | 0 <= k < |s.indexers[i].candidates| ensures IsRead(db.transcripts, s.indexers[i].candidates[k]) {
        assert IsRead(s.db.transcripts, s.indexers[i].candidates[k]);
      }
    }
  }

  // ----- writing keeps it -----

  lemma {:induction false} TranscribedJoin(a: seq<Row>, b: seq<Row>)
    ensures Transcribed(a + b) == Transcribed(a) + Transcribed(b)
  {
    if b == [] {
      assert a + b == a;
    } else {
      assert (a + b)[..|a + b| - 1] == a + b[..|b| - 1];
      TranscribedJoin(a, b[..|b| - 1]);
    }
  }

  lemma {:induction false} RowsTranscribed(chunks: seq<Chunk>)
    ensures Transcribed(Rows(chunks, Transcription)) == chunks && Transcribed(Rows(chunks, Analysis)) == []
  {
    if chunks != [] {
      var front := chunks[..|chunks| - 1];
      RowsTranscribed(front);
      assert Rows(chunks, Transcription)[..|chunks| - 1] == Rows(front, Transcription);
      assert Rows(chunks, Analysis)[..|chunks| - 1] == Rows(front, Analysis);
      assert chunks == front + [chunks[|chunks| - 1]];
    }
  }

  lemma CandidateTranscribed(c: Candidate)
    ensures Transcribed(CandidateRows(c)) == PayloadChunks(c.payload)
  {
    TranscribedJoin(Rows(PayloadChunks(c.payload), Transcription), Rows(c.analysis, Analysis));
    RowsTranscribed(PayloadChunks(c.payload));
    RowsTranscribed(c.analysis);
  }

  /** After the stale mark no document of the call is ready under the profile. */
  lemma StaleKeeps(db: Tables, call: nat, profile: nat)
    requires DocumentsSound(db.transcripts, db.documents)
    ensures var stale := MarkStale(db.documents, call, profile, db.now);
            && DocumentsSound(db.transcripts, stale)
            && forall k :: 0 <= k < |stale| ==> !IsReadyFor(stale[k], call, profile)
  {
    var stale := MarkStale(db.documents, call, profile, db.now);
    forall k | 0 <= k < |stale| ensures IsFaithful(db.transcripts, stale[k]) {
      assert IsFaithful(db.transcripts, db.documents[k]);
    }
    forall i, j | 0 <= i < j < |stale| ensures !HasKey(stale[j], stale[i].call, stale[i].revision, stale[i].profile) {
      var a := db.documents[i];
      assert !HasKey(db.documents[j], a.call, a.revision, a.profile);
    }
  }

  lemma PutFaithful(transcripts: seq<Transcript>, documents: seq<Document>, d: Document)
    requires DocumentsFaithful(transcripts, documents) && IsFaithful(transcripts, d)
    ensures DocumentsFaithful(transcripts, Put(documents, d))
  {}

  predicate SameKey(a: Document, b: Document) {
    a.call == b.call && a.revision == b.revision && a.profile == b.profile
  }

  /** Where put puts the document, no other one has its key. */
  lemma PutKeys(documents: seq<Document>, d: Document)
    requires KeysDiffer(documents)
    ensures KeysDiffer(Put(documents, d))
  {
    var put := Put(documents, d);
    var found := FindDocument(documents, d.call, d.revision, d.profile);
    if found.Some? {
      assert forall k :: 0 <= k < |documents| ==> SameKey(put[k], documents[k]);
      forall i, j | 0 <= i < j < |put| ensures !HasKey(put[j], put[i].call, put[i].revision, put[i].profile) {
        var a := documents[i];
        assert SameKey(put[i], a) && !HasKey(documents[j], a.call, a.revision, a.profile);
      }
    }
  }

  lemma PutReady(documents: seq<Document>, d: Document)
    requires OneReady(documents) && forall k :: 0 <= k < |documents| ==> !IsReadyFor(documents[k], d.call, d.profile)
    ensures OneReady(Put(documents, d))
  {
    var put := Put(documents, d);
    forall i, j | 0 <= i < j < |put| && put[i].status.Ready? && put[j].status.Ready?
      ensures put[i].call != put[j].call || put[i].profile != put[j].profile
    {
      assert i < |documents| && put[i] == documents[i] ==> !IsReadyFor(documents[i], d.call, d.profile);
      assert j < |documents| && put[j] == documents[j] ==> !IsReadyFor(documents[j], d.call, d.profile);
    }
  }

  lemma PutKeeps(transcripts: seq<Transcript>, documents: seq<Document>, d: Document)
    requires DocumentsSound(transcripts, documents)
    requires IsFaithful(transcripts, d)
    requires forall k :: 0 <= k < |documents| ==> !IsReadyFor(documents[k], d.call, d.profile)
    ensures DocumentsSound(transcripts, Put(documents, d))
  {
    PutFaithful(transcripts, documents, d);
    PutKeys(documents, d);
    PutReady(documents, d);
  }

  lemma UpsertedIsFaithful(transcripts: seq<Transcript>, documents: seq<Document>, c: Candidate, profile: nat, now: nat)
    requires DocumentsFaithful(transcripts, documents) && IsRead(transcripts, c)
    ensures var d := Upserted(documents, c, profile, now);
            d.call == c.call && d.profile == profile && d.revision == c.revision && d.content == c.payload
  {
    var found := FindDocument(documents, c.call, c.revision, profile);
    if found.Some? { assert IsFaithful(transcripts, documents[found.value]); }
  }

  lemma IndexKeeps(db: Tables, profile: nat, c: Candidate, db': Tables)
    requires DocumentsSound(db.transcripts, db.documents)
    requires IsRead(db.transcripts, c) && db' == IndexCandidate(db, profile, c).0
    ensures db' == db.(documents := db'.documents)
    ensures DocumentsSound(db.transcripts, db'.documents)
  {
    if db' != db {
      var stale := MarkStale(db.documents, c.call, profile, db.now);
      StaleKeeps(db, c.call, profile);
      UpsertedIsFaithful(db.transcripts, stale, c, profile, db.now);
      CandidateTranscribed(c);
      var d := Upserted(stale, c, profile, db.now).(chunks := CandidateRows(c), status := Ready, updatedAt := db.now);
      PutKeeps(db.transcripts, stale, d);
    }
  }

  lemma WriteKeeps(s: State, i: nat, s': State)
    requires Invariant(s) && Enabled(s, Write(i)) && s' == WriteFirst(s, i)
    ensures Invariant(s')
  {
    var c := s.indexers[i].candidates[0];
    assert AllRead(s.db.transcripts, s.indexers[i].candidates);
    assert IsRead(s.db.transcripts, c);
    if CandidateRows(c) != [] { IndexKeeps(s.db, s.indexers[i].profile, c, s'.db); }
    forall k | 0 <= k < |s'.indexers| ensures AllRead(s'.db.transcripts, s'.indexers[k].candidates) {
      assert AllRead(s.db.transcripts, s.indexers[k].candidates);
    }
  }

  lemma StepKeeps(s: State, step: Step, s': State)
    requires Invariant(s) && Enabled(s, step) && s' == Next(s, step)
    ensures Invariant(s')
  {
    match step
    case Read(i, profile, calls, analyses) => ReadKeeps(s, i, s');
    case Write(i) => WriteKeeps(s, i, s');
    case Abandon(i) => ReadKeeps(s, i, s');
    case _ => GrowthKeeps(s, s'.db);
  }

  /** An indexer that has read calls holds what their active revisions say. */
  lemma ReadKeeps(s: State, i: nat, s': State)
    requires Invariant(s) && i < |s.indexers| && s'.db == s.db && |s'.indexers| == |s.indexers|
    requires AllRead(s.db.transcripts, s'.indexers[i].candidates)
    requires forall k :: 0 <= k < |s.indexers| && k != i ==> s'.indexers[k] == s.indexers[k]
    ensures Invariant(s')
  {
    forall k | 0 <= k < |s'.indexers| ensures AllRead(s'.db.transcripts, s'.indexers[k].candidates) {
      assert AllRead(s.db.transcripts, s.indexers[k].candidates);
    }
  }

  lemma {:induction false} RunKeeps(s: State, steps: seq<Step>)
    requires Invariant(s) && CanRun(s, steps)
    ensures Invariant(After(s, steps))
    decreases |steps|
  {
    if steps != [] {
      StepKeeps(s, steps[0], Next(s, steps[0]));
      RunKeeps(Next(s, steps[0]), steps[1..]);
    }
  }

  // ----- what a search finds -----

  /** However edits and indexers interleave, a call has at most one document that counts as current, and
      its transcript chunks are those of the active revision. */
  lemma SearchIsFaithful(indexers: nat, steps: seq<Step>, db: Tables, i: nat)
    requires CanRun(Init(indexers), steps) && db == After(Init(indexers), steps).db
    requires i < |db.documents| && IsCurrent(db, db.documents[i])
    ensures forall j :: 0 <= j < |db.documents| && j != i && IsCurrent(db, db.documents[j]) ==>
              db.documents[j].call != db.documents[i].call
    ensures var d, t := db.documents[i], db.transcripts[db.documents[i].call];
            Transcribed(d.chunks) == PayloadChunks(t.revisions[t.active])
  {
    RunKeeps(Init(indexers), steps);
    var d := db.documents[i];
    assert IsFaithful(db.transcripts, d);
    forall j | 0 <= j < |db.documents| && j != i && IsCurrent(db, db.documents[j])
      ensures db.documents[j].call != d.call
    {
      CurrentIsOne(db, i, j);
    }
  }

  lemma CurrentIsOne(db: Tables, i: nat, j: nat)
    requires KeysDiffer(db.documents) && OneProfile(db.profiles)
    requires i < |db.documents| && j < |db.documents| && i != j
    requires IsCurrent(db, db.documents[i]) && IsCurrent(db, db.documents[j])
    ensures db.documents[i].call != db.documents[j].call
  {
    var a, b := db.documents[i], db.documents[j];
    assert a.profile == b.profile;
    assert !HasKey(b, a.call, a.revision, a.profile) && !HasKey(a, b.call, b.revision, b.profile) by {
      if i < j {
        assert !HasKey(b, a.call, a.revision, a.profile);
      } else {
        assert !HasKey(a, b.call, b.revision, b.profile);
      }
    }
  }

  /** So a current document quotes what was said, word for word, and leaves out only whitespace. */
  lemma QuotesWhatWasSaid(indexers: nat, steps: seq<Step>, db: Tables, i: nat)
    requires CanRun(Init(indexers), steps) && db == After(Init(indexers), steps).db
    requires i < |db.documents| && IsCurrent(db, db.documents[i])
    ensures var d, t := db.documents[i], db.transcripts[db.documents[i].call];
            var p := t.revisions[t.active];
            && Quotes(Transcribed(d.chunks), p)
            && Squeezed(Joined(Texts(Transcribed(d.chunks)))) ==
               Squeezed(if p.segments == [] then p.text else Spoken(p.segments))
  {
    SearchIsFaithful(indexers, steps, db, i);
    var t := db.transcripts[db.documents[i].call];
    PayloadIsQuoted(t.revisions[t.active]);
    PayloadIsKept(t.revisions[t.active]);
  }

  lemma PayloadIsKept(p: Payload)
    ensures Squeezed(Joined(Texts(PayloadChunks(p)))) ==
            Squeezed(if p.segments == [] then p.text else Spoken(p.segments))
  {
    if p.segments == [] {
      SplitHolds(p.text, MAX_CHUNK);
      TextsMore([], SplitChunks(p.text, MAX_CHUNK), "", 0.0, 0.0);
      assert [] + Timed(SplitChunks(p.text, MAX_CHUNK), "", 0.0, 0.0) == PayloadChunks(p);
      assert Texts([]) + SplitChunks(p.text, MAX_CHUNK) == SplitChunks(p.text, MAX_CHUNK);
    } else {
      SegmentsAreKept(p.segments);
    }
  }
}
