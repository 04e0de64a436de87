/** What a change of access does to a search, and when a document that was written can be found. */
module IndexAccess {
  import opened TextSplitter
  import opened SearchIndex
  import opened IndexSystem
  import opened DocumentStore

  /** No access was changed in the future. */
  predicate AccessIsPast(db: Tables) {
    forall c :: c in db.privacy ==> db.privacy[c].updatedAt <= db.now
  }

  /** The last change of access to the call was no earlier than the time. */
  predicate ChangedSince(privacy: map<nat, Privacy>, call: nat, since: nat) {
    call in privacy && since <= privacy[call].updatedAt
  }

  lemma StepKeepsAccess(s: State, step: Step, s': State, call: nat, since: nat)
    requires AccessIsPast(s.db) && Enabled(s, step) && s' == Next(s, step) && since <= s.db.now
    ensures AccessIsPast(s'.db) && s.db.now <= s'.db.now
    ensures ChangedSince(s.db.privacy, call, since) ==> ChangedSince(s'.db.privacy, call, since)
  {}

  lemma {:induction false} RunKeepsAccess(s: State, steps: seq<Step>, call: nat, since: nat)
    requires AccessIsPast(s.db) && CanRun(s, steps) && since <= s.db.now
    ensures AccessIsPast(After(s, steps).db) && s.db.now <= After(s, steps).db.now
    ensures ChangedSince(s.db.privacy, call, since) ==> ChangedSince(After(s, steps).db.privacy, call, since)
    decreases |steps|
  {
    if steps != [] {
      StepKeepsAccess(s, steps[0], Next(s, steps[0]), call, since);
      RunKeepsAccess(Next(s, steps[0]), steps[1..], call, since);
    }
  }

  /** What was written before access to its call was last changed is never found again, however access
      changes afterwards, unless it is written anew. */
  lemma AccessChangeHides(s: State, call: nat, open: bool, steps: seq<Step>, db: Tables, d: Document)
    requires AccessIsPast(s.db) && CanRun(Next(s, SetPrivacy(call, open)), steps)
    requires db == After(Next(s, SetPrivacy(call, open)), steps).db
    requires d.call == call && d.updatedAt < s.db.now
    ensures !IsCurrent(db, d)
  {
    var changed := Next(s, SetPrivacy(call, open));
    StepKeepsAccess(s, SetPrivacy(call, open), changed, call, 0);
    RunKeepsAccess(changed, steps, call, s.db.now);
  }

  /** Nothing of a closed call is found. */
  lemma ClosedIsHidden(db: Tables, d: Document)
    requires d.call in db.privacy && !db.privacy[d.call].open
    ensures !IsCurrent(db, d)
  {}

  /** Nothing under a retired profile, or of another revision than the active one, is found. */
  lemma OldIsHidden(db: Tables, d: Document)
    requires || d.profile >= |db.profiles| || !db.profiles[d.profile]
             || d.call >= |db.transcripts| || d.revision != db.transcripts[d.call].active
    ensures !IsCurrent(db, d)
  {}

  /** The call is open, and the revision that was read is still the active one, under the active profile. */
  predicate IsUpToDate(db: Tables, profile: nat, c: Candidate) {
    && c.call < |db.transcripts| && c.revision < |db.transcripts[c.call].revisions|
    && db.transcripts[c.call].active == c.revision
    && profile < |db.profiles| && db.profiles[profile]
    && (c.call in db.privacy ==> db.privacy[c.call].open)
  }

  lemma WrittenContent(db: Tables, documents: seq<Document>, profile: nat, c: Candidate, k: nat)
    requires DocumentsSound(db.transcripts, db.documents) && IsRead(db.transcripts, c)
    requires |db.documents| <= |documents| && k < |documents|
    requires WritesAt(db.documents, documents, profile, c, db.now, k)
    ensures documents[k].content == c.payload
  {
    if k < |db.documents| { assert IsFaithful(db.transcripts, db.documents[k]); }
  }

  /** In every run of the system, a write of what is up to date leaves a document that a search finds, with
      the chunks of the active revision. */
  lemma WrittenIsFound(indexers: nat, steps: seq<Step>, s: State, i: nat)
    requires CanRun(Init(indexers), steps) && s == After(Init(indexers), steps)
    requires i < |s.indexers| && s.indexers[i].candidates != []
    requires var c := s.indexers[i].candidates[0];
             CandidateRows(c) != [] && IsUpToDate(s.db, s.indexers[i].profile, c)
    ensures var c, db := s.indexers[i].candidates[0], Next(s, Write(i)).db;
            exists k :: && 0 <= k < |db.documents| && IsCurrent(db, db.documents[k])
                        && IsWritten(db.documents[k], s.indexers[i].profile, c, s.db.now)
  {
    var c, profile := s.indexers[i].candidates[0], s.indexers[i].profile;
    RunKeeps(Init(indexers), steps);
    RunKeepsAccess(Init(indexers), steps, 0, 0);
    assert AllRead(s.db.transcripts, s.indexers[i].candidates);
    assert IsRead(s.db.transcripts, c);
    IndexIndexes(s.db, profile, c);
    var db := IndexCandidate(s.db, profile, c).0;
    assert Next(s, Write(i)).db == db;
    var k :| 0 <= k < |db.documents| && WritesAt(s.db.documents, db.documents, profile, c, s.db.now, k);
    WrittenContent(s.db, db.documents, profile, c, k);
    IndexOnlyDocuments(s.db, profile, c);
    assert IsCurrent(db, db.documents[k]);
  }

  lemma IndexOnlyDocuments(db: Tables, profile: nat, c: Candidate)
    ensures var db' := IndexCandidate(db, profile, c).0; db' == db.(documents := db'.documents)
  {}

  // ----- reads, edits and profiles -----

  /** An indexer reads open calls only, each in the words of its active revision, under a known profile. */
  lemma ReadsOpenCalls(s: State, i: nat, profile: nat, calls: seq<nat>, analyses: seq<seq<Chunk>>, s': State, k: nat)
    requires Enabled(s, Read(i, profile, calls, analyses)) && s' == Next(s, Read(i, profile, calls, analyses))
    requires k < |calls|
    ensures |s'.indexers| == |s.indexers| && s'.indexers[i].profile == profile < |s.db.profiles|
    ensures |s'.indexers[i].candidates| == |calls| && calls[k] < |s.db.transcripts|
    ensures calls[k] in s.db.privacy ==> s.db.privacy[calls[k]].open
    ensures var c, t := s'.indexers[i].candidates[k], s.db.transcripts[calls[k]];
            && c.call == calls[k] && c.revision == t.active < |t.revisions| && c.payload == t.revisions[t.active]
            && c.analysis == analyses[k]
  {}

  /** An edit adds a revision and makes it the active one; until the call is indexed again, a search finds
      nothing of it. */
  lemma EditHides(s: State, call: nat, payload: Payload, s': State)
    requires Invariant(s) && call < |s.db.transcripts| && s' == Next(s, Edit(call, payload))
    ensures var t, t' := s.db.transcripts[call], s'.db.transcripts[call];
            t'.revisions == t.revisions + [payload] && t'.active == |t.revisions|
    ensures forall k :: 0 <= k < |s'.db.documents| && s'.db.documents[k].call == call ==>
              !IsCurrent(s'.db, s'.db.documents[k])
  {
    forall k | 0 <= k < |s'.db.documents| && s'.db.documents[k].call == call
      ensures !IsCurrent(s'.db, s'.db.documents[k])
    {
      assert IsFaithful(s.db.transcripts, s.db.documents[k]);
    }
  }

  /** A new call says what was recorded; a selected revision is the active one and is not rewritten. */
  lemma RevisionsStay(s: State, payload: Payload, call: nat, revision: nat)
    requires HasRevision(s.db.transcripts, call, revision)
    ensures Next(s, AddCall(payload)).db.transcripts == s.db.transcripts + [Transcript([payload], 0)]
    ensures var t, t' := s.db.transcripts[call], Next(s, Select(call, revision)).db.transcripts[call];
            t'.revisions == t.revisions && t'.active == revision
  {}

  /** Switching profiles leaves just that one active, and hides the documents of all others. */
  lemma ActivateSwitches(s: State, profile: nat, s': State)
    requires profile <= |s.db.profiles| && s' == Next(s, Activate(profile))
    ensures forall p :: 0 <= p < |s'.db.profiles| ==> (s'.db.profiles[p] <==> p == profile)
    ensures profile < |s'.db.profiles| && |s.db.profiles| <= |s'.db.profiles|
    ensures forall d: Document :: d.profile != profile ==> !IsCurrent(s'.db, d)
  {}
}
