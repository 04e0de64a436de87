/** The search index next to the transcripts it is derived from: revisions are edited and selected,
    profiles are switched and access is changed while any number of indexers read calls and write
    documents. */
module SearchIndex {
  import opened TextSplitter
  import opened Options

  /** The revisions of a call's transcript, none of which is ever rewritten, and the active one. */
  datatype Transcript = Transcript(revisions: seq<Payload>, active: nat)

  datatype Privacy = Privacy(open: bool, updatedAt: nat)

  datatype SourceKind = Transcription | Analysis

  datatype Row = Row(chunk: Chunk, kind: SourceKind)

  datatype Status = Indexing | Ready | Stale

  /** content stands for the hash of the revision's content. */
  datatype Document = Document(
    call: nat, revision: nat, content: Payload, profile: nat, status: Status, updatedAt: nat, chunks: seq<Row>)

  datatype Tables = Tables(
    transcripts: seq<Transcript>, privacy: map<nat, Privacy>, profiles: seq<bool>, documents: seq<Document>, now: nat)

  /** What an indexer read of a call, to write later. */
  datatype Candidate = Candidate(call: nat, revision: nat, payload: Payload, analysis: seq<Chunk>)

  predicate HasRevision(transcripts: seq<Transcript>, call: nat, revision: nat) {
    call < |transcripts| && revision < |transcripts[call].revisions|
  }

  predicate IsActiveRevision(transcripts: seq<Transcript>, call: nat, revision: nat) {
    HasRevision(transcripts, call, revision) && transcripts[call].active == revision
  }

  predicate Hidden(privacy: map<nat, Privacy>, d: Document) {
    d.call in privacy && (!privacy[d.call].open || privacy[d.call].updatedAt > d.updatedAt)
  }

  /** The document is of the active revision and its content, under an active profile, and not hidden. */
  predicate IsCurrent(db: Tables, d: Document) {
    && IsActiveRevision(db.transcripts, d.call, d.revision)
    && db.transcripts[d.call].revisions[d.revision] == d.content
    && d.profile < |db.profiles| && db.profiles[d.profile]
    && !Hidden(db.privacy, d)
  }

  // ----- writing a document -----

  function Rows(chunks: seq<Chunk>, kind: SourceKind): seq<Row> {
    seq(|chunks|, k requires 0 <= k < |chunks| => Row(chunks[k], kind))
  }

  function CandidateRows(c: Candidate): seq<Row> {
    Rows(PayloadChunks(c.payload), Transcription) + Rows(c.analysis, Analysis)
  }

  predicate IsReadyFor(d: Document, call: nat, profile: nat) {
    d.call == call && d.profile == profile && d.status.Ready?
  }

  function Staled(d: Document, call: nat, profile: nat, now: nat): Document {
    if IsReadyFor(d, call, profile) then d.(status := Stale, updatedAt := now) else d
  }

  function MarkStale(documents: seq<Document>, call: nat, profile: nat, now: nat): seq<Document> {
    seq(|documents|, k requires 0 <= k < |documents| => Staled(documents[k], call, profile, now))
  }

  predicate HasKey(d: Document, call: nat, revision: nat, profile: nat) {
    d.call == call && d.revision == revision && d.profile == profile
  }

  /** The document of a call, a revision and a profile. */
  function FindDocument(documents: seq<Document>, call: nat, revision: nat, profile: nat): (found: Option<nat>)
    ensures found.Some? ==> found.value < |documents| && HasKey(documents[found.value], call, revision, profile)
    ensures found.None? ==> forall k :: 0 <= k < |documents| ==> !HasKey(documents[k], call, revision, profile)
  {
    if documents == [] then None
    else if HasKey(documents[|documents| - 1], call, revision, profile) then Some(|documents| - 1)
    else FindDocument(documents[..|documents| - 1], call, revision, profile)
  }

  /** INSERT … ON CONFLICT DO UPDATE: a document that is there keeps its content hash. */
  function Upserted(documents: seq<Document>, c: Candidate, profile: nat, now: nat): Document {
    match FindDocument(documents, c.call, c.revision, profile)
    case None => Document(c.call, c.revision, c.payload, profile, Indexing, now, [])
    case Some(k) => documents[k].(status := Indexing, updatedAt := now)
  }

  function Put(documents: seq<Document>, d: Document): seq<Document> {
    match FindDocument(documents, d.call, d.revision, d.profile)
    case None => documents + [d]
    case Some(k) => documents[k := d]
  }

  /** The transaction of one candidate; without effect if its revision is no longer active. */
  function IndexCandidate(db: Tables, profile: nat, c: Candidate): (Tables, bool) {
    var stale := MarkStale(db.documents, c.call, profile, db.now);
    var d := Upserted(stale, c, profile, db.now).(chunks := CandidateRows(c));
    if IsActiveRevision(db.transcripts, d.call, d.revision)
    then (db.(documents := Put(stale, d.(status := Ready, updatedAt := db.now))), true)
    else (db, false)
  }
}
