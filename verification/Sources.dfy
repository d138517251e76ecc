/** Deleting a source and changing its containers, across the source, document,
    search, vector and sync-state stores. Pages, map-iteration order and store
    failures are part of the model. */
module Sources {

  datatype Container = Container(id: string, name: string)

  datatype Doc = Doc(id: string, sourceID: string, containerID: string)

  /** A row of the vector index. */
  datatype Embedding = Embedding(docID: string, sourceID: string)

  datatype SyncTask = SyncContainer(teamID: string, sourceID: string, containerID: string)

  datatype Notice = DocumentDeleted(sourceID: string, doc: Doc) | SourceDeleted(sourceID: string)

  datatype Error = NotFound | StoreFailed

  datatype Outcome = Ok | Err(error: Error)

  /** The store calls of Delete that can fail. */
  datatype Fault = Collect | SearchDelete | VectorDelete | DocumentDelete | SyncDelete | SourceDelete

  /** The store calls of UpdateContainers that can fail, by container; `save` is the
      final one. */
  datatype ContainerFaults = ContainerFaults(
    search: set<string>,
    vectors: set<string>,
    documents: set<string>,
    enqueue: set<string>,
    save: bool)

  // ---- documents ---------------------------------------------------------

  /** The documents of a source, in the store's order. */
  function DocsOf(docs: seq<Doc>, sourceID: string): seq<Doc> {
    if docs == [] then []
    else (if docs[0].sourceID == sourceID then [docs[0]] else []) + DocsOf(docs[1..], sourceID)
  }

  /** The documents outside the given containers of a source. */
  function Without(docs: seq<Doc>, sourceID: string, containers: set<string>): seq<Doc> {
    if docs == [] then []
    else
      (if docs[0].sourceID == sourceID && docs[0].containerID in containers then [] else [docs[0]])
      + Without(docs[1..], sourceID, containers)
  }

  /** The documents of other sources. */
  function WithoutSource(docs: seq<Doc>, sourceID: string): seq<Doc> {
    if docs == [] then []
    else (if docs[0].sourceID == sourceID then [] else [docs[0]]) + WithoutSource(docs[1..], sourceID)
  }

  function Ids(docs: seq<Doc>): set<string> {
    set d | d in docs :: d.id
  }

  predicate DistinctDocs(docs: seq<Doc>) {
    forall i, j :: 0 <= i < j < |docs| ==> docs[i].id != docs[j].id
  }

  lemma {:induction false} InDocsOf(docs: seq<Doc>, sourceID: string, d: Doc)
    ensures d in DocsOf(docs, sourceID) <==> d in docs && d.sourceID == sourceID
    ensures d in WithoutSource(docs, sourceID) <==> d in docs && d.sourceID != sourceID
  {
    if docs != [] {
      InDocsOf(docs[1..], sourceID, d);
      assert docs == [docs[0]] + docs[1..];
    }
  }

  lemma {:induction false} InWithout(docs: seq<Doc>, sourceID: string, containers: set<string>, d: Doc)
    ensures d in Without(docs, sourceID, containers) <==>
              d in docs && !(d.sourceID == sourceID && d.containerID in containers)
  {
    if docs != [] {
      InWithout(docs[1..], sourceID, containers, d);
      assert docs == [docs[0]] + docs[1..];
    }
  }

  lemma {:induction false} WithoutTwice(docs: seq<Doc>, sourceID: string, a: set<string>, b: set<string>)
    ensures Without(Without(docs, sourceID, a), sourceID, b) == Without(docs, sourceID, a + b)
  {
    if docs != [] {
      WithoutTwice(docs[1..], sourceID, a, b);
      var rest := Without(docs[1..], sourceID, a);
      assert ([docs[0]] + rest)[1..] == rest && [] + rest == rest;
    }
  }

  lemma {:induction false} WithoutNone(docs: seq<Doc>, sourceID: string)
    ensures Without(docs, sourceID, {}) == docs
  {
    if docs != [] { WithoutNone(docs[1..], sourceID); }
  }

  lemma {:induction false} DocsOfDistinct(docs: seq<Doc>, sourceID: string)
    requires DistinctDocs(docs)
    ensures DistinctDocs(DocsOf(docs, sourceID))
  {
    if docs != [] {
      forall i, j | 0 <= i < j < |docs[1..]| ensures docs[1..][i].id != docs[1..][j].id {
        assert docs[i + 1].id != docs[j + 1].id;
      }
      DocsOfDistinct(docs[1..], sourceID);
      var rest := DocsOf(docs[1..], sourceID);
      forall k | 0 <= k < |rest| ensures rest[k].id != docs[0].id {
        InDocsOf(docs[1..], sourceID, rest[k]);
        var j :| 0 <= j < |docs[1..]| && docs[1..][j] == rest[k];
        assert docs[0].id != docs[j + 1].id;
      }
    }
  }

  /** LIMIT and OFFSET. */
  function Page(docs: seq<Doc>, limit: nat, offset: nat): seq<Doc> {
    if offset >= |docs| then []
    else if offset + limit <= |docs| then docs[offset..offset + limit]
    else docs[offset..]
  }

  // ---- the stores --------------------------------------------------------

  datatype Stores = Stores(
    sources: map<string, seq<Container>>,   // source id to its selected containers
    docs: seq<Doc>,
    index: set<Doc>,                        // search entries, one per indexed document
    embeddings: map<string, Embedding>,
    syncStates: set<string>)

  /** Which optional collaborators are wired in. */
  datatype Wiring = Wiring(search: bool, vectors: bool, queue: bool, observer: bool)

  function PruneDocs(embeddings: map<string, Embedding>, ids: set<string>): map<string, Embedding> {
    map e | e in embeddings && embeddings[e].docID !in ids :: embeddings[e]
  }

  function IndexWithoutSource(index: set<Doc>, sourceID: string): set<Doc> {
    set d | d in index && d.sourceID != sourceID
  }

  // ---- the effect of Delete ----------------------------------------------

  /** What Delete leaves in the stores, given which calls fail: failures of the
      search, vector and sync-state stores are passed over, the others stop it. */
  function AfterDelete(w: Wiring, s: Stores, id: string, faults: set<Fault>): Stores {
    if id !in s.sources || Collect in faults then s
    else
      var s2 := Unindexed(w, s, id, faults);
      if DocumentDelete in faults then s2
      else
        var s3 := s2.(docs := WithoutSource(s2.docs, id));
        var s4 := if SyncDelete in faults then s3 else s3.(syncStates := s3.syncStates - {id});
        if SourceDelete in faults then s4 else s4.(sources := s4.sources - {id})
  }

  /** The best-effort part of Delete: the search index and the embeddings. */
  function Unindexed(w: Wiring, s: Stores, id: string, faults: set<Fault>): Stores {
    var s1 := if w.search && SearchDelete !in faults then s.(index := IndexWithoutSource(s.index, id)) else s;
    if w.vectors && VectorDelete !in faults
    then s1.(embeddings := PruneDocs(s1.embeddings, Ids(DocsOf(s.docs, id)))) else s1
  }

  lemma UnindexedOrKept(w: Wiring, s: Stores, id: string, faults: set<Fault>)
    ensures var t := Unindexed(w, s, id, faults);
            && t == s.(index := t.index, embeddings := t.embeddings)
            && t.index == (if w.search && SearchDelete !in faults then IndexWithoutSource(s.index, id) else s.index)
            && t.embeddings == if w.vectors && VectorDelete !in faults
                               then PruneDocs(s.embeddings, Ids(DocsOf(s.docs, id))) else s.embeddings
  {
  }

  function DeleteOutcome(s: Stores, id: string, faults: set<Fault>): Outcome {
    if id !in s.sources then Err(NotFound)
    else if Collect in faults || DocumentDelete in faults || SourceDelete in faults then Err(StoreFailed)
    else Ok
  }

  /** What observers are told: every document, then the source. */
  function Notices(id: string, docs: seq<Doc>): seq<Notice> {
    if docs == [] then [SourceDeleted(id)] else [DocumentDeleted(id, docs[0])] + Notices(id, docs[1..])
  }

  /** Nothing that belongs to the source is stored anywhere. */
  predicate Gone(s: Stores, id: string) {
    && id !in s.sources
    && (forall d :: d in s.docs ==> d.sourceID != id)
    && (forall d :: d in s.index ==> d.sourceID != id)
    && Unsourced(s.embeddings, id)
    && id !in s.syncStates
  }

  /** Every embedding of the source belongs to one of the source's document rows. */
  predicate Owned(s: Stores, id: string) {
    forall e :: e in s.embeddings && s.embeddings[e].sourceID == id ==> s.embeddings[e].docID in Ids(DocsOf(s.docs, id))
  }

  /** Each document id is owned by one source, and embeddings carry its source. */
  predicate Coherent(s: Stores) {
    && DistinctDocs(s.docs)
    && forall e, d :: e in s.embeddings && d in s.docs && s.embeddings[e].docID == d.id ==>
         s.embeddings[e].sourceID == d.sourceID
  }

  /** Delete gets past its two lookups: the source and its documents. */
  predicate Started(s: Stores, id: string, faults: set<Fault>) {
    id in s.sources && Collect !in faults
  }

  /** Which failing call leaves which store as it was: nothing changes unless both
      lookups succeed; then every store is cleared of the source unless its own call
      failed, the last three also unless the document call did. */
  lemma DeletedOrKept(w: Wiring, s: Stores, id: string, faults: set<Fault>)
    ensures var t := AfterDelete(w, s, id, faults);
            var started := Started(s, id, faults);
            && t.index == (if started && w.search && SearchDelete !in faults
                           then IndexWithoutSource(s.index, id) else s.index)
            && t.embeddings == (if started && w.vectors && VectorDelete !in faults
                                then PruneDocs(s.embeddings, Ids(DocsOf(s.docs, id))) else s.embeddings)
            && t.docs == (if started && DocumentDelete !in faults then WithoutSource(s.docs, id) else s.docs)
            && t.syncStates == (if started && DocumentDelete !in faults && SyncDelete !in faults
                                then s.syncStates - {id} else s.syncStates)
            && t.sources == (if DeleteOutcome(s, id, faults).Ok? then s.sources - {id} else s.sources)
  {
    UnindexedOrKept(w, s, id, faults);
  }

  /** What Delete reports: an unknown source, or a failure of one of the three calls it
      depends on; a failure of the other three it keeps to itself. */
  lemma DeleteReports(s: Stores, id: string, faults: set<Fault>)
    ensures var r := DeleteOutcome(s, id, faults);
            && (r == Err(NotFound) <==> id !in s.sources)
            && (r == Ok <==> id in s.sources && faults <= {SearchDelete, VectorDelete, SyncDelete})
  {
    if DeleteOutcome(s, id, faults).Ok? {
      forall f | f in faults ensures f in {SearchDelete, VectorDelete, SyncDelete} { OneOfThree(f); }
    }
  }

  lemma OneOfThree(f: Fault)
    ensures f in {SearchDelete, VectorDelete, SyncDelete} <==>
              f != Collect && f != DocumentDelete && f != SourceDelete
  {
  }

  /** What a failed or missing call would leave behind, where Delete itself reports no
      error: search entries, embeddings out of reach, the sync state. */
  predicate NothingMissed(w: Wiring, s: Stores, id: string, faults: set<Fault>) {
    && ((w.search && SearchDelete !in faults) || forall d :: d in s.index ==> d.sourceID != id)
    && (if w.vectors && VectorDelete !in faults then Owned(s, id)
        else Unsourced(s.embeddings, id))
    && (SyncDelete !in faults || id !in s.syncStates)
  }

  /** Exactly when Delete leaves no trace of a source, whatever is wired and whatever
      fails: it reports success, and nothing was missed on the way. */
  lemma CleanDeleteIff(w: Wiring, s: Stores, id: string, faults: set<Fault>)
    requires id in s.sources
    ensures Gone(AfterDelete(w, s, id, faults), id) <==>
              DeleteOutcome(s, id, faults).Ok? && NothingMissed(w, s, id, faults)
  {
    DeletedOrKept(w, s, id, faults);
    if DeleteOutcome(s, id, faults).Ok? {
      var t := AfterDelete(w, s, id, faults);
      forall d | d in t.docs ensures d.sourceID != id { InDocsOf(s.docs, id, d); }
      EmbeddingsGone(s, id);
      IndexGone(s.index, id);
    }
  }

  /** No embedding of the source is left. */
  predicate Unsourced(embeddings: map<string, Embedding>, id: string) {
    forall e :: e in embeddings ==> embeddings[e].sourceID != id
  }

  /** Pruning by document rows removes the embeddings of a source exactly when its
      rows own them. */
  lemma EmbeddingsGone(s: Stores, id: string)
    ensures var left := PruneDocs(s.embeddings, Ids(DocsOf(s.docs, id)));
            Owned(s, id) <==> Unsourced(left, id)
  {
    var ids := Ids(DocsOf(s.docs, id));
    var left := PruneDocs(s.embeddings, ids);
    assert forall e :: e in left <==> e in s.embeddings && s.embeddings[e].docID !in ids;
    assert forall e :: e in left ==> left[e] == s.embeddings[e];
    if Owned(s, id) {
    } else {
      var e :| e in s.embeddings && s.embeddings[e].sourceID == id && s.embeddings[e].docID !in ids;
      assert e in left && left[e].sourceID == id;
      assert !Unsourced(left, id);
    }
  }

  lemma IndexGone(index: set<Doc>, id: string)
    ensures forall d :: d in IndexWithoutSource(index, id) ==> d.sourceID != id
    ensures forall d: Doc :: d in index && d.sourceID != id ==> d in IndexWithoutSource(index, id)
  {
  }

  /** With every store working and wired, Delete removes every trace of the source
      exactly when its embeddings are all owned by its documents. */
  lemma CleanDelete(w: Wiring, s: Stores, id: string)
    requires w.search && w.vectors && id in s.sources
    ensures DeleteOutcome(s, id, {}).Ok?
    ensures Gone(AfterDelete(w, s, id, {}), id) <==> Owned(s, id)
  {
    CleanDeleteIff(w, s, id, {});
  }

  /** A Delete can report success and leave a search entry of one owned document. */
  lemma SuccessLeavesEntry(w: Wiring, id: string, d: Doc)
    requires d.sourceID == id
    ensures var s := Stores(map[id := []], [d], {d}, map[], {});
            && DeleteOutcome(s, id, {SearchDelete}).Ok? && Owned(s, id) && Coherent(s)
            && d in AfterDelete(w, s, id, {SearchDelete}).index
            && !Gone(AfterDelete(w, s, id, {SearchDelete}), id)
  {
    var s := Stores(map[id := []], [d], {d}, map[], {});
    DeletedOrKept(w, s, id, {SearchDelete});
    CleanDeleteIff(w, s, id, {SearchDelete});
  }

  /** Whatever fails, the data of any other source is the same before and after. */
  lemma OtherSourcesUntouched(w: Wiring, s: Stores, id: string, faults: set<Fault>, other: string)
    requires other != id && Coherent(s)
    ensures var t := AfterDelete(w, s, id, faults);
            && (other in t.sources <==> other in s.sources)
            && (other in t.sources ==> t.sources[other] == s.sources[other])
            && DocsOf(t.docs, other) == DocsOf(s.docs, other)
            && (forall d: Doc :: d.sourceID == other ==> (d in t.index <==> d in s.index))
            && (forall e :: e in s.embeddings && s.embeddings[e].sourceID == other ==>
                  e in t.embeddings && t.embeddings[e] == s.embeddings[e])
            && t.embeddings.Keys <= s.embeddings.Keys
            && (other in t.syncStates <==> other in s.syncStates)
  {
    DeletedOrKept(w, s, id, faults);
    DocsOfOther(s.docs, id, other);
    forall e | e in s.embeddings && s.embeddings[e].sourceID == other
      ensures s.embeddings[e].docID !in Ids(DocsOf(s.docs, id))
    {
      forall d | d in DocsOf(s.docs, id) ensures d.id != s.embeddings[e].docID { InDocsOf(s.docs, id, d); }
    }
  }

  lemma {:induction false} DocsOfOther(docs: seq<Doc>, id: string, other: string)
    requires other != id
    ensures DocsOf(WithoutSource(docs, id), other) == DocsOf(docs, other)
  {
    if docs != [] {
      DocsOfOther(docs[1..], id, other);
      var rest := WithoutSource(docs[1..], id);
      assert ([docs[0]] + rest)[1..] == rest && [] + rest == rest;
    }
  }

  /** Observers are told of every document exactly once, in the order collected, and
      of the source last. */
  lemma {:induction false} NoticesShape(id: string, docs: seq<Doc>)
    ensures |Notices(id, docs)| == |docs| + 1
    ensures Notices(id, docs)[|docs|] == SourceDeleted(id)
    ensures forall k :: 0 <= k < |docs| ==> Notices(id, docs)[k] == DocumentDeleted(id, docs[k])
  {
    if docs != [] { NoticesShape(id, docs[1..]); }
  }

  lemma NoticesOnce(s: Stores, id: string, d: Doc)
    requires Coherent(s)
    ensures var ns := Notices(id, DocsOf(s.docs, id));
            d in s.docs && d.sourceID == id <==> multiset(ns)[DocumentDeleted(id, d)] == 1
  {
    var ds := DocsOf(s.docs, id);
    InDocsOf(s.docs, id, d);
    DocsOfDistinct(s.docs, id);
    NoticeCount(id, ds, d);
  }

  lemma {:induction false} NoticeCount(id: string, ds: seq<Doc>, d: Doc)
    requires DistinctDocs(ds)
    ensures multiset(Notices(id, ds))[DocumentDeleted(id, d)] == if d in ds then 1 else 0
  {
    if ds != [] {
      var rest := ds[1..];
      forall i, j | 0 <= i < j < |rest| ensures rest[i].id != rest[j].id { assert ds[i + 1].id != ds[j + 1].id; }
      NoticeCount(id, rest, d);
      assert ds == [ds[0]] + rest;
      if d in rest {
        var k :| 0 <= k < |rest| && rest[k] == d;
        assert ds[0].id != ds[k + 1].id;
      }
    }
  }

  // ---- the effect of UpdateContainers ------------------------------------

  function ContainerIds(cs: seq<Container>): set<string> {
    set c | c in cs :: c.id
  }

  /** The ids of a source's documents in the given containers. */
  function IdsIn(docs: seq<Doc>, sourceID: string, containers: set<string>): set<string> {
    set d | d in docs && d.sourceID == sourceID && d.containerID in containers :: d.id
  }

  /** The removed containers whose search entries are deleted. */
  function Unsearched(w: Wiring, removed: set<string>, f: ContainerFaults): set<string> {
    if w.search then removed - f.search else {}
  }

  /** The containers whose deletion gets past the search engine. */
  function PastSearch(w: Wiring, removed: set<string>, f: ContainerFaults): set<string> {
    if w.search then removed - f.search else removed
  }

  /** The removed containers whose embeddings are deleted. */
  function Unembedded(w: Wiring, removed: set<string>, f: ContainerFaults): set<string> {
    if w.vectors then PastSearch(w, removed, f) - f.vectors else {}
  }

  /** The removed containers whose documents are deleted: every call before succeeded. */
  function Undocumented(w: Wiring, removed: set<string>, f: ContainerFaults): set<string> {
    (if w.vectors then PastSearch(w, removed, f) - f.vectors else PastSearch(w, removed, f)) - f.documents
  }

  function IndexWithout(index: set<Doc>, id: string, containers: set<string>): set<Doc> {
    set d | d in index && !(d.sourceID == id && d.containerID in containers)
  }

  /** The stores after the data of some containers is deleted: the first failing call
      ends a container's deletion. The vector rows are found through the document
      rows, which therefore go last. */
  function AfterRemoval(w: Wiring, s: Stores, id: string, removed: set<string>, f: ContainerFaults): Stores {
    s.(index := IndexWithout(s.index, id, Unsearched(w, removed, f)),
       embeddings := PruneDocs(s.embeddings, IdsIn(s.docs, id, Unembedded(w, removed, f))),
       docs := Without(s.docs, id, Undocumented(w, removed, f)))
  }

  /** Containers one after another are containers together, whatever fails. */
  lemma RemovalSteps(w: Wiring, s: Stores, id: string, removed: set<string>, c: string, f: ContainerFaults)
    requires c !in removed
    ensures AfterRemoval(w, AfterRemoval(w, s, id, removed, f), id, {c}, f) == AfterRemoval(w, s, id, removed + {c}, f)
  {
    IndexSteps(s.index, id, Unsearched(w, removed, f), Unsearched(w, {c}, f));
    assert Unsearched(w, removed + {c}, f) == Unsearched(w, removed, f) + Unsearched(w, {c}, f);
    var a, b := Undocumented(w, removed, f), Undocumented(w, {c}, f);
    assert Undocumented(w, removed + {c}, f) == a + b;
    WithoutTwice(s.docs, id, a, b);
    var v, u := Unembedded(w, removed, f), Unembedded(w, {c}, f);
    assert Unembedded(w, removed + {c}, f) == v + u;
    EmbeddingSteps(s, id, a, v, u);
  }

  lemma IndexSteps(index: set<Doc>, id: string, a: set<string>, b: set<string>)
    ensures IndexWithout(IndexWithout(index, id, a), id, b) == IndexWithout(index, id, a + b)
  {
  }

  lemma EmbeddingSteps(s: Stores, id: string, gone: set<string>, v: set<string>, u: set<string>)
    requires gone !! u
    ensures PruneDocs(PruneDocs(s.embeddings, IdsIn(s.docs, id, v)), IdsIn(Without(s.docs, id, gone), id, u))
         == PruneDocs(s.embeddings, IdsIn(s.docs, id, v + u))
  {
    var t := Without(s.docs, id, gone);
    assert IdsIn(t, id, u) == IdsIn(s.docs, id, u) by {
      forall d
        ensures d in t && d.sourceID == id && d.containerID in u <==>
                  d in s.docs && d.sourceID == id && d.containerID in u
      {
        InWithout(s.docs, id, gone, d);
      }
    }
    assert IdsIn(s.docs, id, v + u) == IdsIn(s.docs, id, v) + IdsIn(s.docs, id, u);
    assert PruneDocs(PruneDocs(s.embeddings, IdsIn(s.docs, id, v)), IdsIn(s.docs, id, u))
        == PruneDocs(s.embeddings, IdsIn(s.docs, id, v + u));
  }

  /** Exactly one task for each of the given containers. */
  ghost predicate OneTaskEach(tasks: seq<SyncTask>, teamID: string, sourceID: string, containers: set<string>) {
    && (forall i, j :: 0 <= i < j < |tasks| ==> tasks[i] != tasks[j])
    && (forall t :: t in tasks <==> t == SyncContainer(teamID, sourceID, t.containerID) && t.containerID in containers)
  }

  /** Documents, search entries and embeddings of containers that are kept, or of
      other sources, are the same before and after. */
  lemma KeptContainersUntouched(w: Wiring, s: Stores, id: string, removed: set<string>, f: ContainerFaults, d: Doc)
    requires DistinctDocs(s.docs) && d in s.docs && !(d.sourceID == id && d.containerID in removed)
    ensures var t := AfterRemoval(w, s, id, removed, f);
            && d in t.docs
            && (d in t.index <==> d in s.index)
            && (forall e :: e in s.embeddings && s.embeddings[e].docID == d.id ==>
                  e in t.embeddings && t.embeddings[e] == s.embeddings[e])
  {
    InWithout(s.docs, id, Undocumented(w, removed, f), d);
    IdsAreOwn(s.docs, id, Unembedded(w, removed, f), d);
  }

  lemma IdsAreOwn(docs: seq<Doc>, id: string, containers: set<string>, d: Doc)
    requires DistinctDocs(docs) && d in docs
    ensures d.id in IdsIn(docs, id, containers) <==> d.sourceID == id && d.containerID in containers
  {
    forall x | x in docs && x.id == d.id ensures x == d {
      var i :| 0 <= i < |docs| && docs[i] == x;
      var j :| 0 <= j < |docs| && docs[j] == d;
    }
  }

  /** Exactly what is left of a document of a removed container: a search entry if the
      search call failed, a document row if any call failed, its embeddings if the
      search or the vector call failed or the document has no row to find them by. */
  lemma LeftOfRemoved(w: Wiring, s: Stores, id: string, removed: set<string>, f: ContainerFaults, d: Doc)
    requires w.search && w.vectors && DistinctDocs(s.docs) && d.sourceID == id && d.containerID in removed
    ensures var t, c := AfterRemoval(w, s, id, removed, f), d.containerID;
            && (d in t.index <==> d in s.index && c in f.search)
            && (d in t.docs <==> d in s.docs && c in f.search + f.vectors + f.documents)
            && (forall e :: e in s.embeddings && s.embeddings[e].docID == d.id ==>
                  && (d in s.docs ==> (e in t.embeddings <==> c in f.search + f.vectors))
                  && (d.id !in Ids(s.docs) ==> e in t.embeddings))
  {
    InWithout(s.docs, id, Undocumented(w, removed, f), d);
    if d in s.docs {
      IdsAreOwn(s.docs, id, Unembedded(w, removed, f), d);
    }
    assert IdsIn(s.docs, id, Unembedded(w, removed, f)) <= Ids(s.docs);
  }

  /** A document of a source in one of the given containers. */
  predicate Dropped(d: Doc, id: string, removed: set<string>) {
    d.sourceID == id && d.containerID in removed
  }

  /** The documents of the containers that the search engine or the document store knows. */
  function Known(s: Stores, id: string, removed: set<string>): set<Doc> {
    set d | d in s.index + (set x | x in s.docs) && Dropped(d, id, removed)
  }

  /** No store holds anything of the given documents, once of the containers. */
  predicate NoneLeft(t: Stores, known: set<Doc>) {
    && (forall d :: d in known ==> d !in t.index && d !in t.docs)
    && (forall e :: e in t.embeddings ==> t.embeddings[e].docID !in IdsOf(known))
  }

  function IdsOf(docs: set<Doc>): set<string> {
    set d | d in docs :: d.id
  }

  /** Whether the search call for a container is made and succeeds, and whether the
      deletion of its embeddings and of its documents does. */
  predicate SearchCleared(w: Wiring, c: string, f: ContainerFaults) {
    w.search && c !in f.search
  }

  predicate VectorsCleared(w: Wiring, c: string, f: ContainerFaults) {
    w.vectors && c !in f.vectors && (w.search ==> c !in f.search)
  }

  predicate DocumentsCleared(w: Wiring, c: string, f: ContainerFaults) {
    c !in f.documents && (w.vectors ==> c !in f.vectors) && (w.search ==> c !in f.search)
  }

  /** A document row by which the embeddings are found. */
  ghost predicate FoundBy(w: Wiring, s: Stores, id: string, removed: set<string>, f: ContainerFaults, docID: string) {
    exists x :: x in s.docs && x.id == docID && Dropped(x, id, removed) && VectorsCleared(w, x.containerID, f)
  }

  /** Exactly when nothing is left of dropped containers, whatever is wired and
      whatever fails: every search entry and document row is in a container whose call
      was made and succeeded, and every embedding is found by such a row. */
  lemma CleanRemovalIff(w: Wiring, s: Stores, id: string, removed: set<string>, f: ContainerFaults)
    ensures NoneLeft(AfterRemoval(w, s, id, removed, f), Known(s, id, removed)) <==>
              && (forall d :: d in s.index && Dropped(d, id, removed) ==> SearchCleared(w, d.containerID, f))
              && (forall d :: d in s.docs && Dropped(d, id, removed) ==> DocumentsCleared(w, d.containerID, f))
              && (forall e :: e in s.embeddings && s.embeddings[e].docID in IdsOf(Known(s, id, removed)) ==>
                    FoundBy(w, s, id, removed, f, s.embeddings[e].docID))
  {
    var t, known := AfterRemoval(w, s, id, removed, f), Known(s, id, removed);
    forall d | Dropped(d, id, removed)
      ensures d in t.index <==> d in s.index && !SearchCleared(w, d.containerID, f)
      ensures d in t.docs <==> d in s.docs && !DocumentsCleared(w, d.containerID, f)
    {
      InWithout(s.docs, id, Undocumented(w, removed, f), d);
    }
    forall e | e in s.embeddings
      ensures e in t.embeddings <==> !FoundBy(w, s, id, removed, f, s.embeddings[e].docID)
    {
      FoundByRow(w, s, id, removed, f, s.embeddings[e].docID);
    }
    assert forall e :: e in t.embeddings ==> e in s.embeddings && t.embeddings[e] == s.embeddings[e];
    assert forall d :: d in known <==> (d in s.index || d in s.docs) && Dropped(d, id, removed);
  }

  lemma FoundByRow(w: Wiring, s: Stores, id: string, removed: set<string>, f: ContainerFaults, docID: string)
    ensures docID in IdsIn(s.docs, id, Unembedded(w, removed, f)) <==> FoundBy(w, s, id, removed, f, docID)
  {
    if docID in IdsIn(s.docs, id, Unembedded(w, removed, f)) {
      var x :| x in s.docs && x.sourceID == id && x.containerID in Unembedded(w, removed, f) && x.id == docID;
      assert Dropped(x, id, removed) && VectorsCleared(w, x.containerID, f);
    }
  }

  /** With every store working and wired, nothing is left of dropped containers exactly
      when every embedding of an indexed document has a row of theirs. */
  lemma CleanRemoval(w: Wiring, s: Stores, id: string, removed: set<string>, f: ContainerFaults)
    requires w.search && w.vectors && removed !! f.search + f.vectors + f.documents
    ensures NoneLeft(AfterRemoval(w, s, id, removed, f), Known(s, id, removed)) <==>
              forall e :: e in s.embeddings && s.embeddings[e].docID in IdsOf(Known(s, id, removed)) ==>
                exists x :: x in s.docs && x.id == s.embeddings[e].docID && Dropped(x, id, removed)
  {
    CleanRemovalIff(w, s, id, removed, f);
    forall x | Dropped(x, id, removed) ensures VectorsCleared(w, x.containerID, f) {}
    forall e | e in s.embeddings
      ensures FoundBy(w, s, id, removed, f, s.embeddings[e].docID) <==>
                exists x :: x in s.docs && x.id == s.embeddings[e].docID && Dropped(x, id, removed)
    {
    }
  }

  // ---- the service -------------------------------------------------------

  class SourceService {
    const wiring: Wiring
    const teamID: string
    var sources: map<string, seq<Container>>
    var docs: seq<Doc>
    var index: set<Doc>
    var embeddings: map<string, Embedding>
    var syncStates: set<string>
    var queue: seq<SyncTask>
    var notices: seq<Notice>

    constructor (wiring: Wiring, teamID: string, s: Stores)
      ensures this.wiring == wiring && this.teamID == teamID && View() == s && queue == [] && notices == []
    {
      this.wiring, this.teamID := wiring, teamID;
      sources, docs, index, embeddings, syncStates := s.sources, s.docs, s.index, s.embeddings, s.syncStates;
      queue, notices := [], [];
    }

    function View(): Stores
      reads this
    {
      Stores(sources, docs, index, embeddings, syncStates)
    }

    /** The paging loop collects all documents of the source, each once and in order. */
    method CollectDocumentsBySource(sourceID: string) returns (all: seq<Doc>)
      ensures all == DocsOf(docs, sourceID)
    {
      var pageSize := 500;
      all := [];
      var offset := 0;
      ghost var wanted := DocsOf(docs, sourceID);
      while true
        invariant all == if offset <= |wanted| then wanted[..offset] else wanted
        invariant offset >= 0
        decreases |wanted| + pageSize - offset
      {
        var page := Page(DocsOf(docs, sourceID), pageSize, offset);
        if |page| == 0 {
          break;
        }
        all := all + page;
        if |page| < pageSize {
          break;
        }
        offset := offset + pageSize;
      }
    }

    /** Delete, call by call. */
    method Delete(id: string, faults: set<Fault>) returns (r: Outcome)
      modifies this
      ensures View() == AfterDelete(wiring, old(View()), id, faults)
      ensures r == DeleteOutcome(old(View()), id, faults)
      ensures notices == old(notices) +
                if r.Ok? && wiring.observer then Notices(id, DocsOf(old(docs), id)) else []
      ensures queue == old(queue)
    {
      if id !in sources {
        return Err(NotFound);
      }
      if Collect in faults {
        return Err(StoreFailed);
      }
      var collected := CollectDocumentsBySource(id);
      Unindex(id, collected, faults);
      if DocumentDelete in faults {
        return Err(StoreFailed);
      }
      docs := WithoutSource(docs, id);
      if SyncDelete !in faults {
        syncStates := syncStates - {id};
      }
      if SourceDelete in faults {
        return Err(StoreFailed);
      }
      sources := sources - {id};
      if wiring.observer {
        NotifyAll(id, collected);
      }
      return Ok;
    }

    /** Delete's best-effort calls on the search index and the embeddings. */
    method Unindex(id: string, collected: seq<Doc>, faults: set<Fault>)
      requires collected == DocsOf(docs, id)
      modifies this`index, this`embeddings
      ensures View() == Unindexed(wiring, old(View()), id, faults)
    {
      if wiring.search && SearchDelete !in faults {
        index := IndexWithoutSource(index, id);
      }
      if wiring.vectors && |collected| > 0 {
        var docIDs := set i | 0 <= i < |collected| :: collected[i].id;
        if VectorDelete !in faults {
          assert docIDs == Ids(collected);
          embeddings := PruneDocs(embeddings, docIDs);
        }
      }
      assert collected == [] ==> PruneDocs(embeddings, Ids(collected)) == embeddings;
    }

    /** The observer calls at the end of Delete. */
    method NotifyAll(id: string, collected: seq<Doc>)
      modifies this`notices
      ensures notices == old(notices) + Notices(id, collected)
    {
      for k := 0 to |collected|
        invariant notices + Notices(id, collected[k..]) == old(notices) + Notices(id, collected)
      {
        assert collected[k..][1..] == collected[k + 1..];
        notices := notices + [DocumentDeleted(id, collected[k])];
      }
      notices := notices + [SourceDeleted(id)];
    }

    /** deleteContainerData, call by call; the first failing call ends it. */
    method DeleteContainerData(sourceID: string, containerID: string, f: ContainerFaults) returns (r: Outcome)
      modifies this`index, this`embeddings, this`docs
      ensures View() == AfterRemoval(wiring, old(View()), sourceID, {containerID}, f)
      ensures r.Ok? <==> containerID in Undocumented(wiring, {containerID}, f)
    {
      NothingMarked(View(), sourceID);
      OneContainer(wiring, containerID, f);
      if wiring.search {
        if containerID in f.search {
          return Err(StoreFailed);
        }
        index := IndexWithout(index, sourceID, {containerID});
      }
      if wiring.vectors {
        if containerID in f.vectors {
          return Err(StoreFailed);
        }
        embeddings := PruneDocs(embeddings, IdsIn(docs, sourceID, {containerID}));
      }
      if containerID in f.documents {
        return Err(StoreFailed);
      }
      docs := Without(docs, sourceID, {containerID});
      return Ok;
    }

    /** UpdateContainers, for any order in which the two maps are walked. Failed
        deletions and enqueues are passed over; only the last call decides the outcome,
        when the data is already gone. */
    method UpdateContainers(id: string, containers: seq<Container>, f: ContainerFaults) returns (r: Outcome)
      modifies this
      ensures id !in old(sources) ==> r == Err(NotFound) && View() == old(View()) && queue == old(queue)
      ensures id in old(sources) ==>
                var before, now := ContainerIds(old(sources)[id]), ContainerIds(containers);
                var cleared := AfterRemoval(wiring, old(View()), id, before - now, f);
                && r == (if f.save then Err(StoreFailed) else Ok)
                && View() == (if f.save then cleared else cleared.(sources := old(sources)[id := containers]))
                && old(queue) <= queue
                && OneTaskEach(queue[|old(queue)|..], teamID, id, if wiring.queue then now - before - f.enqueue else {})
      ensures notices == old(notices)
    {
      if id !in sources {
        return Err(NotFound);
      }
      var oldContainers := IndexById(sources[id]);
      var newContainers := IndexById(containers);
      var removed := oldContainers.Keys - newContainers.Keys;
      var added := newContainers.Keys - oldContainers.Keys;
      RemoveAll(id, removed, f);
      EnqueueAll(id, added, f);
      if f.save {
        return Err(StoreFailed);
      }
      sources := sources[id := containers];
      return Ok;
    }

    /** The loop that deletes the data of removed containers, in any order. */
    method RemoveAll(id: string, removed: set<string>, f: ContainerFaults)
      modifies this`index, this`embeddings, this`docs
      ensures View() == AfterRemoval(wiring, old(View()), id, removed, f)
    {
      var todo := removed;
      NothingRemoved(wiring, View(), id, f);
      assert removed - todo == {};
      while todo != {}
        invariant todo <= removed
        invariant View() == AfterRemoval(wiring, old(View()), id, removed - todo, f)
        decreases todo
      {
        var c :| c in todo;
        RemovalSteps(wiring, old(View()), id, removed - todo, c, f);
        assert removed - (todo - {c}) == (removed - todo) + {c};
        var _ := DeleteContainerData(id, c, f);
        todo := todo - {c};
      }
      assert removed - todo == removed;
    }

    /** The loop that enqueues a sync task for each added container, in any order. */
    method EnqueueAll(id: string, added: set<string>, f: ContainerFaults)
      modifies this`queue
      ensures old(queue) <= queue
      ensures OneTaskEach(queue[|old(queue)|..], teamID, id, if wiring.queue then added - f.enqueue else {})
    {
      var todo := added;
      ghost var tasks: seq<SyncTask> := [];
      while todo != {}
        invariant todo <= added && queue == old(queue) + tasks
        invariant OneTaskEach(tasks, teamID, id, if wiring.queue then added - todo - f.enqueue else {})
        decreases todo
      {
        var c :| c in todo;
        if wiring.queue && c !in f.enqueue {
          var task := SyncContainer(teamID, id, c);
          assert task !in tasks;
          queue := queue + [task];
          tasks := tasks + [task];
        }
        todo := todo - {c};
      }
      assert queue[|old(queue)|..] == tasks;
      assert added - todo == added;
    }
  }

  lemma OneContainer(w: Wiring, c: string, f: ContainerFaults)
    ensures var past := !(w.search && c in f.search);
            && Unsearched(w, {c}, f) == (if w.search && past then {c} else {})
            && Unembedded(w, {c}, f) == (if w.vectors && past && c !in f.vectors then {c} else {})
            && Undocumented(w, {c}, f) ==
               if past && !(w.vectors && c in f.vectors) && c !in f.documents then {c} else {}
  {
  }

  lemma NothingMarked(s: Stores, id: string)
    ensures IndexWithout(s.index, id, {}) == s.index && PruneDocs(s.embeddings, IdsIn(s.docs, id, {})) == s.embeddings
    ensures Without(s.docs, id, {}) == s.docs
  {
    WithoutNone(s.docs, id);
    assert IdsIn(s.docs, id, {}) == {};
  }

  lemma NothingRemoved(w: Wiring, s: Stores, id: string, f: ContainerFaults)
    ensures AfterRemoval(w, s, id, {}, f) == s
  {
    NothingMarked(s, id);
    assert Unsearched(w, {}, f) == {} && Unembedded(w, {}, f) == {} && Undocumented(w, {}, f) == {};
  }

  /** The container map built by a loop; of containers with the same id the last stays. */
  method IndexById(cs: seq<Container>) returns (m: map<string, Container>)
    ensures m.Keys == ContainerIds(cs)
    ensures forall i :: 0 <= i < |cs| && (forall j :: i < j < |cs| ==> cs[j].id != cs[i].id) ==> m[cs[i].id] == cs[i]
  {
    m := map[];
    for k := 0 to |cs|
      invariant m.Keys == set i | 0 <= i < k :: cs[i].id
      invariant forall i :: 0 <= i < k && (forall j :: i < j < k ==> cs[j].id != cs[i].id) ==> m[cs[i].id] == cs[i]
    {
      m := m[cs[k].id := cs[k]];
    }
  }
}
