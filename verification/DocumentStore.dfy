/** The search documents as they are updated in place, and what each update keeps of them. */
module DocumentStore {
  import opened TextSplitter
  import opened SearchIndex
  import opened IndexSystem

  /** The chunks of the transcript, and then those of the analysis. */
  predicate AreRows(rows: seq<Row>, said: seq<Chunk>, analysis: seq<Chunk>) {
    && |rows| == |said| + |analysis|
    && (forall k :: 0 <= k < |said| ==> rows[k] == Row(said[k], Transcription))
    && forall k :: 0 <= k < |analysis| ==> rows[|said| + k] == Row(analysis[k], Analysis)
  }

  /** The document was written just now from the candidate. */
  predicate IsWritten(d: Document, profile: nat, c: Candidate, now: nat) {
    && d.call == c.call && d.revision == c.revision && d.profile == profile && d.status == Ready && d.updatedAt == now
    && AreRows(d.chunks, PayloadChunks(c.payload), c.analysis)
  }

  predicate IsOf(d: Document, call: nat, profile: nat) {
    d.call == call && d.profile == profile
  }

  /** One document is written, in the place of its key or at the end; it keeps the content it had, and has
      the candidate's if it is new. */
  ghost predicate Indexes(
    documents: seq<Document>, after: seq<Document>, profile: nat, c: Candidate, now: nat)
  {
    && |documents| <= |after| <= |documents| + 1
    && exists k :: 0 <= k < |after| && WritesAt(documents, after, profile, c, now, k)
  }

  ghost predicate WritesAt(
    documents: seq<Document>, after: seq<Document>, profile: nat, c: Candidate, now: nat, k: nat)
    requires |documents| <= |after| && k < |after|
  {
    && IsWritten(after[k], profile, c, now)
    && (if k < |documents|
        then && |after| == |documents| && after[k].content == documents[k].content
             && HasKey(documents[k], c.call, c.revision, profile)
        else && |after| == |documents| + 1 && after[k].content == c.payload
             && forall j :: 0 <= j < |documents| ==> !HasKey(documents[j], c.call, c.revision, profile))
    && forall j :: 0 <= j < |documents| && j != k ==>
         after[j] == if IsOf(documents[j], c.call, profile) && documents[j].status == Ready
                     then documents[j].(status := Stale, updatedAt := now) else documents[j]
  }

  lemma CandidateRowsAre(c: Candidate)
    ensures AreRows(CandidateRows(c), PayloadChunks(c.payload), c.analysis)
  {}

  lemma IndexIndexes(db: Tables, profile: nat, c: Candidate)
    ensures var (db', ok) := IndexCandidate(db, profile, c);
            && (ok <==> IsActiveRevision(db.transcripts, c.call, c.revision))
            && (ok ==> Indexes(db.documents, db'.documents, profile, c, db.now))
  {
    var (db', ok) := IndexCandidate(db, profile, c);
    if ok {
      var stale := MarkStale(db.documents, c.call, profile, db.now);
      var found := FindDocument(stale, c.call, c.revision, profile);
      CandidateRowsAre(c);
      assert WritesAt(
          db.documents, db'.documents, profile, c, db.now, if found.Some? then found.value else |stale|) by {
        if found.None? {
          forall j | 0 <= j < |stale| ensures !HasKey(db.documents[j], c.call, c.revision, profile) {
            assert !HasKey(stale[j], c.call, c.revision, profile);
          }
        }
      }
    }
  }

  ghost predicate Preserves(transcripts: seq<Transcript>, documents: seq<Document>, after: seq<Document>) {
    DocumentsSound(transcripts, documents) ==> DocumentsSound(transcripts, after)
  }

  lemma IndexPreserves(db: Tables, profile: nat, c: Candidate, after: seq<Document>)
    requires after == IndexCandidate(db, profile, c).0.documents
    ensures IsRead(db.transcripts, c) ==> Preserves(db.transcripts, db.documents, after)
  {
    if DocumentsSound(db.transcripts, db.documents) && IsRead(db.transcripts, c) {
      IndexKeeps(db, profile, c, IndexCandidate(db, profile, c).0);
    }
  }

  class IndexStore {
    var transcripts: seq<Transcript>
    var privacy: map<nat, Privacy>
    var profiles: seq<bool>
    var documents: seq<Document>
    var now: nat

    ghost function Db(): Tables
      reads this
    {
      Tables(transcripts, privacy, profiles, documents, now)
    }

    constructor ()
      ensures Db() == Tables([], map[], [], [], 0)
    {
      transcripts, privacy, profiles, documents, now := [], map[], [], [], 0;
    }

    /** UPDATE … SET status='stale' over the ready documents of a call under a profile. */
    method Stale(call: nat, profile: nat)
      modifies this`documents
      ensures documents == MarkStale(old(documents), call, profile, now)
      ensures |documents| == |old(documents)|
      ensures forall k :: 0 <= k < |documents| ==>
                documents[k] ==
                if IsOf(old(documents)[k], call, profile) && old(documents)[k].status == Ready
                then old(documents)[k].(status := Status.Stale, updatedAt := now) else old(documents)[k]
      ensures Preserves(transcripts, old(documents), documents)
    {
      if DocumentsSound(transcripts, documents) { StaleKeeps(Db(), call, profile); }
      ghost var was := documents;
      for k := 0 to |documents|
        invariant |documents| == |was|
        invariant forall j :: 0 <= j < |was| ==>
                    documents[j] == if j < k then Staled(was[j], call, profile, now) else was[j]
      {
        if IsReadyFor(documents[k], call, profile) {
          documents := documents[k := documents[k].(status := Status.Stale, updatedAt := now)];
        }
      }
    }

    /** Writes the document and its chunks, or rolls everything back. */
    method Index(profile: nat, c: Candidate) returns (ok: bool)
      modifies this`documents
      ensures (Db(), ok) == IndexCandidate(old(Db()), profile, c)
      ensures ok <==> IsActiveRevision(transcripts, c.call, c.revision)
      ensures if ok then Indexes(old(documents), documents, profile, c, now) else documents == old(documents)
      ensures IsRead(transcripts, c) ==> Preserves(transcripts, old(documents), documents)
    {
      IndexIndexes(Db(), profile, c);
      IndexPreserves(Db(), profile, c, IndexCandidate(Db(), profile, c).0.documents);
      var before := documents;
      Stale(c.call, profile);
      ghost var stale := documents;
      var chunks := ChunkPayload(c.payload);
      var found := FindDocument(documents, c.call, c.revision, profile);
      var d: Document;
      if found.Some? {
        d := documents[found.value].(status := Indexing, updatedAt := now);
        d := d.(chunks := Rows(chunks, Transcription) + Rows(c.analysis, Analysis));
        documents := documents[found.value := d];
      } else {
        d := Document(c.call, c.revision, c.payload, profile, Indexing, now, []);
        d := d.(chunks := Rows(chunks, Transcription) + Rows(c.analysis, Analysis));
        documents := documents + [d];
      }
      var row := if found.Some? then found.value else |documents| - 1;
      ok := IsActiveRevision(transcripts, d.call, d.revision);
      if ok {
        documents := documents[row := d.(status := Ready, updatedAt := now)];
        assert documents == Put(stale, d.(status := Ready, updatedAt := now));
      } else {
        documents := before;
      }
    }
  }
}
