/** Governed knowledge: documents that others must approve, and chunks that replies cite. */
module Documents {
  import opened Text
  import opened Ledger
  import Chunker

  /** `content` stands for the SHA-256 digest, taken to be injective; dates count days. */
  datatype Document = Document(tenant: Id, title: string, version: string, content: string,
                               effectiveFrom: Option<int>, effectiveTo: Option<int>,
                               approved: bool, approvedBy: Option<Id>)

  /** `norm` and `vector` are the derived columns. */
  datatype Chunk = Chunk(document: Id, number: nat, heading: Option<string>, text: string, norm: string,
      vector: seq<real>)

  datatype Citation = Citation(response: Id, chunk: Id, document: Id, quoted: string)

  /** What an audit row says besides its action: how many chunks there were. */
  type AuditRow = Row<Id, nat>
  type Rows = seq<Stamped<AuditRow>>

  /** `nextChunk` hands out new chunk identifiers. Two fields are requests under way:
      `processing` has a document once for each upload and each retry of it that still has
      its content to index, `found` the citations of replies that searched and are not yet
      stored. A request that dies stays there for good. */
  datatype Library = Library(docs: map<Id, Document>, chunks: map<Id, Chunk>, nextChunk: Id, citations: seq<Citation>,
                             rows: Rows, processing: multiset<Id>, found: set<Citation>)

  const EMPTY_LIBRARY := Library(map[], map[], 0, [], [], multiset{}, {})

  /** Functions outside this model: search normalisation and the embedding of a text. */
  datatype Derived = Derived(normalize: string -> string, embed: string -> seq<real>)

  /** What a caller hands in. */
  datatype Upload = Upload(title: string, version: string, content: string, effectiveFrom: Option<int>,
      effectiveTo: Option<int>)

  datatype Outcome = Done | Created(id: Id) | NotFound | Refused | Forbidden | Failure

  // ---------- chunks ----------

  function Sections(t: Chars, content: string, heading: Option<string>): seq<Chunker.Section> {
    Chunker.Printed(Chunker.Planned(t, content, heading))
  }

  function Without(chunks: map<Id, Chunk>, doc: Id): map<Id, Chunk> {
    map c | c in chunks && chunks[c].document != doc :: chunks[c]
  }

  function ChunkOf(d: Derived, doc: Id, number: nat, s: Chunker.Section): Chunk {
    Chunk(doc, number, s.heading, s.text, d.normalize(s.text), d.embed(s.text))
  }

  function ChunkAt(d: Derived, doc: Id, first: Id, sections: seq<Chunker.Section>, c: Id): Chunk
    requires first <= c < first + |sections|
  {
    ChunkOf(d, doc, c - first + 1, sections[c - first])
  }

  function NewChunks(d: Derived, doc: Id, first: Id, sections: seq<Chunker.Section>): map<Id, Chunk> {
    map c: Id | first <= c < first + |sections| :: ChunkAt(d, doc, first, sections, c)
  }

  /** DELETE the document's chunks, INSERT new ones under new identifiers. */
  function Replaced(d: Derived, lib: Library, doc: Id, sections: seq<Chunker.Section>): Library {
    lib.(chunks := Without(lib.chunks, doc) + NewChunks(d, doc, lib.nextChunk, sections),
        nextChunk := lib.nextChunk + |sections|)
  }

  // ---------- what the chunks must hold ----------

  /** A word with the heading it stands under. */
  datatype Under = Under(heading: Option<string>, word: string)

  function AllUnder(heading: Option<string>, words: seq<string>): (r: seq<Under>)
    ensures |r| == |words|
  {
    seq(|words|, k requires 0 <= k < |words| => Under(heading, words[k]))
  }

  /** The words of some chunks, one chunk after the other. */
  function Told(t: Chars, chunks: seq<Chunk>): seq<Under> {
    if chunks == [] then []
    else AllUnder(chunks[0].heading, Words(t.space, chunks[0].text)) + Told(t, chunks[1..])
  }

  /** The words of the text lines of the content, each under the heading in force there. */
  function Meant(tags: seq<Chunker.Tagged>): (r: seq<Under>)
    ensures |r| == |tags|
  {
    seq(|tags|, k requires 0 <= k < |tags| => Under(tags[k].heading, tags[k].word))
  }

  /** All chunks of the document, in the order of their numbers 1 to n. */
  ghost predicate InOrder(chunks: map<Id, Chunk>, doc: Id, cs: seq<Chunk>) {
    && (forall k | 0 <= k < |cs| :: cs[k].document == doc && cs[k].number == k + 1 && cs[k] in chunks.Values)
    && (forall c | c in chunks && chunks[c].document == doc :: chunks[c] in cs)
  }

  /** 1 to 180 words between single spaces, and the derived columns belong to the text. */
  predicate WellMade(t: Chars, d: Derived, c: Chunk) {
    && c.norm == d.normalize(c.text) && c.vector == d.embed(c.text)
    && var ws := Words(t.space, c.text); 1 <= |ws| <= 180 && c.text == Join(' ', ws)
  }

  /** In the order of their numbers the chunks of the document tell the content's words. */
  ghost predicate Indexes(t: Chars, d: Derived, chunks: map<Id, Chunk>, doc: Id, content: string,
                          heading: Option<string>) {
    exists cs: seq<Chunk> ::
      && InOrder(chunks, doc, cs) && (forall k | 0 <= k < |cs| :: WellMade(t, d, cs[k]))
      && Told(t, cs) == Meant(Chunker.TextTags(t, Chunker.Lines(content), heading, 0))
  }

  lemma MeantAppend(a: seq<Chunker.Tagged>, b: seq<Chunker.Tagged>)
    ensures Meant(a + b) == Meant(a) + Meant(b)
  {
  }

  lemma {:induction false} ToldPieces(t: Chars, cs: seq<Chunk>, pieces: seq<Chunker.Piece>)
    requires |cs| == |pieces|
    requires forall k | 0 <= k < |cs| ::
      cs[k].heading == pieces[k].heading && Words(t.space, cs[k].text) == pieces[k].words
    ensures Told(t, cs) == Meant(Chunker.PieceTags(pieces))
  {
    hide Words;
    if cs == [] {
    } else {
      var p := pieces[0];
      ToldPieces(t, cs[1..], pieces[1..]);
      MeantAppend(Chunker.Tag(p.paragraph, p.heading, p.words), Chunker.PieceTags(pieces[1..]));
      assert Meant(Chunker.Tag(p.paragraph, p.heading, p.words)) == AllUnder(p.heading, p.words);
    }
  }

  /** The document's chunks are those sections, under identifiers from `first` on. */
  ghost predicate MadeOf(d: Derived, chunks: map<Id, Chunk>, doc: Id, first: Id, sections: seq<Chunker.Section>) {
    && (forall c | c in chunks && chunks[c].document == doc :: first <= c < first + |sections|)
    && forall c: Id | first <= c < first + |sections| ::
        c in chunks && IsSection(d, chunks[c], doc, c - first + 1, sections[c - first])
  }

  predicate IsSection(d: Derived, c: Chunk, doc: Id, number: nat, s: Chunker.Section) {
    && c.document == doc && c.number == number && c.heading == s.heading && c.text == s.text
    && c.norm == d.normalize(s.text) && c.vector == d.embed(s.text)
  }

  lemma ReplacedMade(d: Derived, lib: Library, doc: Id, sections: seq<Chunker.Section>)
    ensures MadeOf(d, Replaced(d, lib, doc, sections).chunks, doc, lib.nextChunk, sections)
  {
  }

  function From(chunks: map<Id, Chunk>, first: Id, n: nat): (cs: seq<Chunk>)
    requires forall c: Id | first <= c < first + n :: c in chunks
    ensures |cs| == n
  {
    seq(n, k requires 0 <= k < n => chunks[first + k])
  }

  lemma MadeInOrder(d: Derived, chunks: map<Id, Chunk>, doc: Id, first: Id, sections: seq<Chunker.Section>)
    requires MadeOf(d, chunks, doc, first, sections)
    ensures var cs := From(chunks, first, |sections|);
      && InOrder(chunks, doc, cs) && |cs| == |sections|
      && forall k | 0 <= k < |cs| :: IsSection(d, cs[k], doc, k + 1, sections[k])
  {
    var cs := From(chunks, first, |sections|);
    forall k | 0 <= k < |cs|
      ensures IsSection(d, cs[k], doc, k + 1, sections[k]) && cs[k] in chunks.Values
    {
      assert cs[k] == chunks[first + k];
    }
    forall c | c in chunks && chunks[c].document == doc ensures chunks[c] in cs {
      assert cs[c - first] == chunks[c];
    }
  }

  /** What the cutting promises of one section. */
  lemma SectionFacts(t: Chars, content: string, heading: Option<string>, k: nat)
    requires Unicode(t) && k < |Sections(t, content, heading)|
    ensures var s, pieces := Sections(t, content, heading)[k], Chunker.Planned(t, content, heading);
      && |pieces| == |Sections(t, content, heading)|
      && s.heading == pieces[k].heading && Words(t.space, s.text) == pieces[k].words
      && 1 <= |pieces[k].words| <= 180 && s.text == Join(' ', pieces[k].words)
  {
    Chunker.SectionsConserveText(t, content, heading);
    hide Chunker.Plan, Chunker.Planned, Words, Chunker.TextTags, Chunker.Lines, Join, Chunker.PieceTags;
  }

  lemma SectionTags(t: Chars, content: string, heading: Option<string>)
    requires Unicode(t)
    ensures |Chunker.Planned(t, content, heading)| == |Sections(t, content, heading)|
    ensures Chunker.PieceTags(Chunker.Planned(t, content, heading)) ==
      Chunker.TextTags(t, Chunker.Lines(content), heading, 0)
  {
    Chunker.SectionsConserveText(t, content, heading);
    hide Chunker.Plan, Chunker.Planned, Words, Chunker.TextTags, Chunker.Lines, Join, Chunker.PieceTags;
  }

  /** From the sections to the content. */
  lemma MadeIndexes(t: Chars, d: Derived, chunks: map<Id, Chunk>, doc: Id, first: Id, content: string,
                    heading: Option<string>)
    requires Unicode(t) && MadeOf(d, chunks, doc, first, Sections(t, content, heading))
    ensures Indexes(t, d, chunks, doc, content, heading)
  {
    var pieces, sections := Chunker.Planned(t, content, heading), Sections(t, content, heading);
    MadeInOrder(d, chunks, doc, first, sections);
    SectionTags(t, content, heading);
    hide Sections, Chunker.Planned, Words, Chunker.TextTags, Chunker.Lines, Chunker.PieceTags, Told, Join, InOrder;
    hide Meant;
    var cs := From(chunks, first, |sections|);
    forall k | 0 <= k < |cs|
      ensures cs[k].heading == pieces[k].heading && Words(t.space, cs[k].text) == pieces[k].words
      ensures WellMade(t, d, cs[k])
    {
      hide MadeOf, From;
      SectionFacts(t, content, heading, k);
      assert IsSection(d, cs[k], doc, k + 1, sections[k]);
    }
    hide WellMade, IsSection, MadeOf;
    ToldPieces(t, cs, pieces);
  }

  predicate HasChunks(chunks: map<Id, Chunk>, doc: Id) { exists c | c in chunks :: chunks[c].document == doc }

  predicate Cited(citations: seq<Citation>, doc: Id) { exists k | 0 <= k < |citations| :: citations[k].document == doc }

  // ---------- operations ----------

  predicate Exists(lib: Library, tenant: Id, doc: Id) { doc in lib.docs && lib.docs[doc].tenant == tenant }

  predicate SameVersion(lib: Library, tenant: Id, u: Upload) {
    exists d | d in lib.docs ::
      lib.docs[d].tenant == tenant && lib.docs[d].content == u.content && lib.docs[d].title == u.title
          && lib.docs[d].version == u.version
  }

  function Recorded(lib: Library, now: int, tenant: Id, actor: Id, action: Action, doc: Id,
      count: Option<nat>): Library {
    lib.(rows := Append(lib.rows, now, Row(tenant, Some(actor), action, DocumentObject, Some(doc), None, count)))
  }

  function Fresh(tenant: Id, u: Upload): Document {
    Document(tenant, u.title, u.version, u.content, u.effectiveFrom, u.effectiveTo, false, None)
  }

  function CreateDocument(t: Chars, d: Derived, lib: Library, now: int, tenant: Id, actor: Id, u: Upload,
                          heading: Option<string>, newId: Id): (Library, Outcome) {
    var sections := Sections(t, u.content, heading);
    if SameVersion(lib, tenant, u) || sections == [] then (lib, Refused)
    else
      var inserted := Replaced(d, lib.(docs := lib.docs[newId := Fresh(tenant, u)]), newId, sections);
      (Recorded(inserted, now, tenant, actor, DocumentCreate, newId, Some(|sections|)), Created(newId))
  }

  /** Only the derived columns are new, and only when asked for. */
  predicate Rederived(d: Derived, before: Chunk, after: Chunk, wanted: bool) {
    && after.document == before.document && after.number == before.number && after.heading == before.heading
    && after.text == before.text
    && after.norm == (if wanted then d.normalize(before.text) else before.norm)
    && after.vector == (if wanted then d.embed(before.text) else before.vector)
  }

  /** The tenant has a document with this content, title and version. */
  predicate KnownVersion(docs: map<Id, Document>, tenant: Id, u: Upload) {
    exists d | d in docs ::
      && docs[d].tenant == tenant && docs[d].content == u.content && docs[d].title == u.title
      && docs[d].version == u.version
  }

  /** Some line other than a heading has a word. */
  predicate Readable(t: Chars, content: string, heading: Option<string>) {
    Chunker.TextTags(t, Chunker.Lines(content), heading, 0) != []
  }

  lemma ReadableIff(t: Chars, content: string, heading: Option<string>)
    requires Unicode(t)
    ensures Sections(t, content, heading) != [] <==> Readable(t, content, heading)
  {
    SectionTags(t, content, heading);
    if Sections(t, content, heading) != [] { SectionFacts(t, content, heading, 0); }
    hide Chunker.Plan, Chunker.Planned, Chunker.TextTags, Chunker.Lines;
  }

  /** What was handed in, neither approved nor anybody's yet. */
  predicate IsUpload(doc: Document, tenant: Id, u: Upload) {
    && doc.tenant == tenant && doc.title == u.title && doc.version == u.version && doc.content == u.content
    && doc.effectiveFrom == u.effectiveFrom && doc.effectiveTo == u.effectiveTo
    && !doc.approved && doc.approvedBy.None?
  }

  /** The first transaction of an upload. */
  function StartUpload(lib: Library, now: int, tenant: Id, actor: Id, u: Upload, newId: Id): (Library, Outcome) {
    if SameVersion(lib, tenant, u) then (lib, Refused)
    else
      var inserted :=
        lib.(docs := lib.docs[newId := Fresh(tenant, u)], processing := lib.processing + multiset{newId});
      (Recorded(inserted, now, tenant, actor, DocumentCreate, newId, None), Created(newId))
  }

  /** Extraction and indexing; `extracted` is None when extraction fails. */
  function IndexContent(t: Chars, d: Derived, lib: Library, now: int, tenant: Id, actor: Id, doc: Id,
                         extracted: Option<string>): (Library, Outcome) {
    if extracted.None? then (Recorded(lib, now, tenant, actor, OtherAction, doc, None), Failure)
    else
      var sections := Sections(t, extracted.value, None);
      if sections == [] then (lib, Refused)
      else (Recorded(Replaced(d, lib, doc, sections), now, tenant, actor, OtherAction, doc, Some(|sections|)), Done)
  }

  /** The second half of an upload and of a retry. It looks at nothing that happened
      since the first half. */
  function FinishProcessing(t: Chars, d: Derived, lib: Library, now: int, tenant: Id, actor: Id, doc: Id,
                            extracted: Option<string>): (Library, Outcome) {
    IndexContent(t, d, lib.(processing := lib.processing - multiset{doc}), now, tenant, actor, doc, extracted)
  }

  /** The first half of a retry: one query without a lock. The content is fetched next. */
  function CheckRetry(lib: Library, tenant: Id, doc: Id): (Library, Outcome) {
    if !Exists(lib, tenant, doc) then (lib, NotFound)
    else if lib.docs[doc].approved || Cited(lib.citations, doc) then (lib, Refused)
    else (lib.(processing := lib.processing + multiset{doc}), Done)
  }

  function IsCreation(tenant: Id, doc: Id): AuditRow -> bool {
    (r: AuditRow) => r.tenant == tenant && r.objectId == Some(doc) && r.action == DocumentCreate
  }

  /** The actor of the oldest creation row. */
  function Creator(rows: Rows, tenant: Id, doc: Id): Option<Id> {
    match Oldest(rows, IsCreation(tenant, doc))
    case None => None
    case Some(r) => r.row.actor
  }

  predicate Expired(doc: Document, today: int) { doc.effectiveTo.Some? && doc.effectiveTo.value <= today }

  function ApproveDocument(lib: Library, now: int, today: int, tenant: Id, doc: Id, approver: Id): (Library, Outcome) {
    if !Exists(lib, tenant, doc) then (lib, NotFound)
    else if lib.docs[doc].approved || !HasChunks(lib.chunks, doc) || Expired(lib.docs[doc], today) then (lib, Refused)
    else if Creator(lib.rows, tenant, doc) == Some(approver) then (lib, Forbidden)
    else
      var approved := lib.(docs := lib.docs[doc := lib.docs[doc].(approved := true, approvedBy := Some(approver))]);
      (Recorded(approved, now, tenant, approver, OtherAction, doc, None), Done)
  }

  function RetireDocument(lib: Library, now: int, today: int, tenant: Id, doc: Id, actor: Id): (Library, Outcome) {
    if !Exists(lib, tenant, doc) then (lib, NotFound)
    else if Expired(lib.docs[doc], today) then (lib, Refused)
    else
      var retired := lib.(docs := lib.docs[doc := lib.docs[doc].(approved := false, effectiveTo := Some(today))]);
      (Recorded(retired, now, tenant, actor, OtherAction, doc, None), Done)
  }

  /** Only the derived columns are computed again. */
  function Reindexed(d: Derived, chunks: map<Id, Chunk>, doc: Id): map<Id, Chunk> {
    map c | c in chunks ::
      if chunks[c].document == doc then chunks[c].(norm := d.normalize(chunks[c].text),
          vector := d.embed(chunks[c].text)) else chunks[c]
  }

  function ReindexDocument(d: Derived, lib: Library, now: int, tenant: Id, doc: Id, actor: Id): (Library, Outcome) {
    if !Exists(lib, tenant, doc) then (lib, NotFound)
    else if !HasChunks(lib.chunks, doc) then (lib, Refused)
    else (Recorded(lib.(chunks := Reindexed(d, lib.chunks, doc)), now, tenant, actor, OtherAction, doc, None), Done)
  }

  /** What a search may return. */
  predicate Retrievable(lib: Library, today: int, tenant: Id, chunk: Id) {
    && chunk in lib.chunks && Exists(lib, tenant, lib.chunks[chunk].document)
    && var doc := lib.docs[lib.chunks[chunk].document];
      doc.approved && (doc.effectiveFrom.Some? ==> doc.effectiveFrom.value <= today) && !Expired(doc, today)
  }

  function CitationOf(lib: Library, response: Id, chunk: Id): Citation
    requires chunk in lib.chunks
  {
    Citation(response, chunk, lib.chunks[chunk].document, lib.chunks[chunk].text)
  }

  /** A reply searches, and takes the best chunk along while its text is generated. */
  function Take(lib: Library, response: Id, chunk: Id): Library
    requires chunk in lib.chunks
  {
    lib.(found := lib.found + {CitationOf(lib, response, chunk)})
  }

  /** The reply is stored with that citation. It looks at the chunk no more. */
  function Cite(lib: Library, c: Citation): Library {
    lib.(citations := lib.citations + [c], found := lib.found - {c})
  }

  // ---------- steps ----------

  datatype Step =
    | Create(now: int, today: int, tenant: Id, actor: Id, upload: Upload, heading: Option<string>, newId: Id)
    | Start(now: int, today: int, tenant: Id, actor: Id, upload: Upload, newId: Id)
    | Finish(now: int, today: int, tenant: Id, actor: Id, doc: Id, extracted: Option<string>)
    | Again(now: int, today: int, tenant: Id, actor: Id, doc: Id)
    | Approve(now: int, today: int, tenant: Id, actor: Id, doc: Id)
    | Retire(now: int, today: int, tenant: Id, actor: Id, doc: Id)
    | Reindex(now: int, today: int, tenant: Id, actor: Id, doc: Id)
    | Search(now: int, today: int, tenant: Id, response: Id, chunk: Id)
    | Quote(now: int, today: int, citation: Citation)
    | Elsewhere(now: int, today: int, row: AuditRow)

  /** New identifiers are new, the clock does not go back, processing finishes after it
      started, replies quote what their search returned, and only this component
      records the creation of documents. */
  predicate Enabled(lib: Library, s: Step) {
    && NotBefore(s.now, lib.rows)
    && (s.Create? || s.Start? ==> s.newId !in lib.docs)
    && (s.Finish? ==> s.doc in lib.processing && Exists(lib, s.tenant, s.doc))
    && (s.Search? ==> Retrievable(lib, s.today, s.tenant, s.chunk))
    && (s.Quote? ==> s.citation in lib.found)
    && (s.Elsewhere? ==> s.row.action != DocumentCreate)
  }

  function Next(t: Chars, d: Derived, lib: Library, s: Step): Library
    requires Enabled(lib, s)
  {
    match s
    case Create(now, _, tenant, actor, u, heading, newId) =>
        CreateDocument(t, d, lib, now, tenant, actor, u, heading, newId).0
    case Start(now, _, tenant, actor, u, newId) => StartUpload(lib, now, tenant, actor, u, newId).0
    case Finish(now, _, tenant, actor, doc, extracted) =>
        FinishProcessing(t, d, lib, now, tenant, actor, doc, extracted).0
    case Again(_, _, tenant, _, doc) => CheckRetry(lib, tenant, doc).0
    case Approve(now, today, tenant, actor, doc) => ApproveDocument(lib, now, today, tenant, doc, actor).0
    case Retire(now, today, tenant, actor, doc) => RetireDocument(lib, now, today, tenant, doc, actor).0
    case Reindex(now, _, tenant, actor, doc) => ReindexDocument(d, lib, now, tenant, doc, actor).0
    case Search(_, _, _, response, chunk) => Take(lib, response, chunk)
    case Quote(_, _, citation) => Cite(lib, citation)
    case Elsewhere(now, _, row) => lib.(rows := Append(lib.rows, now, row))
  }

  // ---------- the service ----------

  class Knowledge {
    const t: Chars
    const d: Derived
    var docs: map<Id, Document>
    var chunks: map<Id, Chunk>
    var nextChunk: Id
    var citations: seq<Citation>
    var rows: Rows
    var processing: multiset<Id>
    var found: set<Citation>

    function State(): Library
      reads this
    {
      Library(docs, chunks, nextChunk, citations, rows, processing, found)
    }

    constructor (t: Chars, d: Derived)
      ensures this.t == t && this.d == d && State() == EMPTY_LIBRARY
    {
      this.t, this.d := t, d;
      docs, chunks, nextChunk, citations, rows, processing, found := map[], map[], 0, [], [], multiset{}, {};
    }

    method WriteAudit(now: int, tenant: Id, actor: Id, action: Action, doc: Id, count: Option<nat>)
      modifies this`rows
      ensures State() == Recorded(old(State()), now, tenant, actor, action, doc, count)
    {
      rows := rows + [Stamped(NextId(rows), now,
          Row(tenant, Some(actor), action, DocumentObject, Some(doc), None, count))];
    }

    method ReplaceChunks(doc: Id, sections: seq<Chunker.Section>)
      modifies this`chunks, this`nextChunk
      ensures State() == Replaced(d, old(State()), doc, sections)
      ensures MadeOf(d, chunks, doc, old(nextChunk), sections)
    {
      hide ChunkOf, MadeOf;
      ghost var first := nextChunk;
      NoNewChunks(d, doc, first);
      chunks := map c | c in chunks && chunks[c].document != doc :: chunks[c];
      for i := 0 to |sections|
        invariant nextChunk == first + i
        invariant chunks == Without(old(chunks), doc) + NewChunks(d, doc, first, sections[..i])
      {
        hide Without, NewChunks;
        NewChunksNext(d, doc, first, sections, i);
        chunks := chunks[nextChunk := ChunkOf(d, doc, i + 1, sections[i])];
        nextChunk := nextChunk + 1;
      }
      assert sections[..|sections|] == sections;
      ReplacedMade(d, old(State()), doc, sections);
    }

    method Create(now: int, tenant: Id, actor: Id, u: Upload, heading: Option<string>, newId: Id) returns (out: Outcome)
      modifies this
      ensures (State(), out) == CreateDocument(t, d, old(State()), now, tenant, actor, u, heading, newId)
      ensures !out.Created? ==> State() == old(State())
      ensures Unicode(t) ==>
        (out == Refused <==> KnownVersion(old(docs), tenant, u) || !Readable(t, u.content, heading))
      ensures out.Created? ==> newId in docs && IsUpload(docs[newId], tenant, u)
      ensures out.Created? && Unicode(t) ==> Indexes(t, d, chunks, newId, u.content, heading)
    {
      hide MadeOf, Indexes;
      if SameVersion(State(), tenant, u) { return Refused; }
      var sections := Sections(t, u.content, heading);
      if Unicode(t) { ReadableIff(t, u.content, heading); }
      if sections == [] { return Refused; }
      docs := docs[newId := Document(tenant, u.title, u.version, u.content, u.effectiveFrom, u.effectiveTo, false,
          None)];
      ghost var first := nextChunk;
      ReplaceChunks(newId, sections);
      if Unicode(t) { MadeIndexes(t, d, chunks, newId, first, u.content, heading); }
      WriteAudit(now, tenant, actor, DocumentCreate, newId, Some(|sections|));
      out := Created(newId);
    }

    /** The first transaction of an upload. */
    method Receive(now: int, tenant: Id, actor: Id, u: Upload, newId: Id) returns (out: Outcome)
      modifies this
      ensures (State(), out) == StartUpload(old(State()), now, tenant, actor, u, newId)
      ensures out == Refused <==> KnownVersion(old(docs), tenant, u)
      ensures out == Refused ==> State() == old(State())
      ensures out.Created? ==> newId in docs && IsUpload(docs[newId], tenant, u) && chunks == old(chunks)
    {
      if SameVersion(State(), tenant, u) { return Refused; }
      docs := docs[newId := Document(tenant, u.title, u.version, u.content, u.effectiveFrom, u.effectiveTo, false,
          None)];
      processing := processing + multiset{newId};
      WriteAudit(now, tenant, actor, DocumentCreate, newId, None);
      out := Created(newId);
    }

    /** The second half of an upload and of a retry. */
    method Process(now: int, tenant: Id, actor: Id, doc: Id, extracted: Option<string>) returns (out: Outcome)
      modifies this`chunks, this`nextChunk, this`rows, this`processing
      ensures (State(), out) == FinishProcessing(t, d, old(State()), now, tenant, actor, doc, extracted)
      ensures !out.Done? ==> chunks == old(chunks)
      ensures out == Failure <==> extracted.None?
      ensures Unicode(t) && extracted.Some? ==> (out == Done <==> Readable(t, extracted.value, None))
      ensures out.Done? && Unicode(t) ==> extracted.Some? && Indexes(t, d, chunks, doc, extracted.value, None)
    {
      hide MadeOf, Indexes;
      processing := processing - multiset{doc};
      if extracted.None? {
        WriteAudit(now, tenant, actor, OtherAction, doc, None);
        return Failure;
      }
      var sections := Sections(t, extracted.value, None);
      if Unicode(t) { ReadableIff(t, extracted.value, None); }
      if sections == [] { return Refused; }
      ghost var first := nextChunk;
      ReplaceChunks(doc, sections);
      if Unicode(t) { MadeIndexes(t, d, chunks, doc, first, extracted.value, None); }
      WriteAudit(now, tenant, actor, OtherAction, doc, Some(|sections|));
      out := Done;
    }

    /** The first half of a retry; `Process` is the second. */
    method RetryIngestion(tenant: Id, doc: Id) returns (out: Outcome)
      modifies this`processing
      ensures (State(), out) == CheckRetry(old(State()), tenant, doc)
      ensures out == NotFound <==> doc !in docs || docs[doc].tenant != tenant
      ensures out == Done <==>
        && doc in docs && docs[doc].tenant == tenant && !docs[doc].approved
        && forall k | 0 <= k < |citations| :: citations[k].document != doc
    {
      if !Exists(State(), tenant, doc) { return NotFound; }
      if docs[doc].approved || Cited(citations, doc) { return Refused; }
      processing := processing + multiset{doc};
      out := Done;
    }

    /** A reply's search, whose best result is the given chunk. */
    method Search(today: int, tenant: Id, response: Id, chunk: Id) returns (c: Citation)
      requires Retrievable(State(), today, tenant, chunk)
      modifies this`found
      ensures State() == Take(old(State()), response, chunk) && c == CitationOf(State(), response, chunk)
    {
      c := Citation(response, chunk, chunks[chunk].document, chunks[chunk].text);
      found := found + {c};
    }

    method StoreReply(c: Citation)
      requires c in found
      modifies this`citations, this`found
      ensures State() == Cite(old(State()), c)
    {
      citations, found := citations + [c], found - {c};
    }

    method Approve(now: int, today: int, tenant: Id, doc: Id, approver: Id) returns (out: Outcome)
      modifies this
      ensures (State(), out) == ApproveDocument(old(State()), now, today, tenant, doc, approver)
      ensures out != Done ==> State() == old(State())
      ensures out == Done ==>
        && doc in old(docs) && var r := old(docs)[doc];
        && r.tenant == tenant && !r.approved && (r.effectiveTo.Some? ==> today < r.effectiveTo.value)
        && docs == old(docs)[doc := r.(approved := true, approvedBy := Some(approver))]
        && chunks == old(chunks) && citations == old(citations)
    {
      if !Exists(State(), tenant, doc) { return NotFound; }
      var row := docs[doc];
      if row.approved { return Refused; }
      if !HasChunks(chunks, doc) { return Refused; }
      if row.effectiveTo.Some? && row.effectiveTo.value <= today { return Refused; }
      var creator := Oldest(rows, IsCreation(tenant, doc));
      if creator.Some? && creator.value.row.actor == Some(approver) { return Forbidden; }
      docs := docs[doc := row.(approved := true, approvedBy := Some(approver))];
      WriteAudit(now, tenant, approver, OtherAction, doc, None);
      out := Done;
    }

    method Retire(now: int, today: int, tenant: Id, doc: Id, actor: Id) returns (out: Outcome)
      modifies this
      ensures (State(), out) == RetireDocument(old(State()), now, today, tenant, doc, actor)
      ensures out != Done ==> State() == old(State())
      ensures out == Done ==>
        && doc in old(docs) && old(docs)[doc].tenant == tenant
        && docs == old(docs)[doc := old(docs)[doc].(approved := false, effectiveTo := Some(today))]
        && chunks == old(chunks) && citations == old(citations)
    {
      if !Exists(State(), tenant, doc) { return NotFound; }
      var row := docs[doc];
      if row.effectiveTo.Some? && row.effectiveTo.value <= today { return Refused; }
      docs := docs[doc := row.(approved := false, effectiveTo := Some(today))];
      WriteAudit(now, tenant, actor, OtherAction, doc, None);
      out := Done;
    }

    /** Updates the document's chunks one by one, in any order. */
    method Reindex(now: int, tenant: Id, doc: Id, actor: Id) returns (out: Outcome)
      modifies this
      ensures (State(), out) == ReindexDocument(d, old(State()), now, tenant, doc, actor)
      ensures chunks.Keys == old(chunks).Keys && docs == old(docs) && citations == old(citations)
      ensures forall c | c in chunks ::
        Rederived(d, old(chunks)[c], chunks[c], out == Done && chunks[c].document == doc)
    {
      if !Exists(State(), tenant, doc) { return NotFound; }
      var todo := set c | c in chunks && chunks[c].document == doc;
      hide HasChunks, IsCreation, Cited;
      ToDo(chunks, doc, todo);
      if todo == {} { return Refused; }
      ghost var before := chunks;
      while todo != {}
        invariant chunks.Keys == before.Keys && todo <= before.Keys
        invariant forall c | c in todo :: before[c].document == doc
        invariant forall c | c in before :: chunks[c] == if c in todo then before[c] else Reindexed(d, before, doc)[c]
        modifies this`chunks
      {
        var c :| c in todo;
        chunks := chunks[c := chunks[c].(norm := d.normalize(chunks[c].text), vector := d.embed(chunks[c].text))];
        todo := todo - {c};
      }
      assert chunks == Reindexed(d, before, doc);
      WriteAudit(now, tenant, actor, OtherAction, doc, None);
      out := Done;
    }
  }

  lemma ToDo(chunks: map<Id, Chunk>, doc: Id, todo: set<Id>)
    requires todo == set c | c in chunks && chunks[c].document == doc
    ensures HasChunks(chunks, doc) <==> todo != {}
  {
    if HasChunks(chunks, doc) {
      var c :| c in chunks && chunks[c].document == doc;
      assert c in todo;
    }
    if todo != {} {
      var c :| c in todo;
      assert c in chunks && chunks[c].document == doc;
    }
  }

  lemma NoNewChunks(d: Derived, doc: Id, first: Id)
    ensures NewChunks(d, doc, first, []) == map[]
  {
  }

  lemma NewChunksNext(d: Derived, doc: Id, first: Id, sections: seq<Chunker.Section>, i: nat)
    requires i < |sections|
    ensures NewChunks(d, doc, first, sections[..i + 1]) ==
        NewChunks(d, doc, first, sections[..i])[first + i := ChunkOf(d, doc, i + 1, sections[i])]
  {
    var a, b := NewChunks(d, doc, first, sections[..i + 1]), NewChunks(d, doc, first, sections[..i]);
    forall c | c in a ensures a[c] == b[first + i := ChunkOf(d, doc, i + 1, sections[i])][c] {
      assert sections[..i + 1][c - first] == sections[c - first];
      if c < first + i { assert sections[..i][c - first] == sections[c - first]; }
    }
  }

  // ---------- the invariant ----------

  /** A citation's chunk is there, in the cited document, with the quoted text. */
  predicate Good(lib: Library, c: Citation) {
    c.chunk in lib.chunks && lib.chunks[c.chunk].document == c.document && lib.chunks[c.chunk].text == c.quoted
  }

  ghost predicate Stable(lib: Library) { forall k | 0 <= k < |lib.citations| :: Good(lib, lib.citations[k]) }

  /** An approved document has content, and its approver is not the creator on record. */
  ghost predicate Governed(lib: Library) {
    forall d | d in lib.docs ::
      && Creator(lib.rows, lib.docs[d].tenant, d).Some?
      && (lib.docs[d].approved ==>
            HasChunks(lib.chunks, d) && lib.docs[d].approvedBy.Some?
                && lib.docs[d].approvedBy != Creator(lib.rows, lib.docs[d].tenant, d))
  }

  ghost predicate Tidy(lib: Library) {
    && Ordered(lib.rows)
    && (forall c | c in lib.chunks :: c < lib.nextChunk && lib.chunks[c].document in lib.docs)
    && (forall k | 0 <= k < |lib.rows| :: lib.rows[k].row.action == DocumentCreate ==>
          lib.rows[k].row.actor.Some? && lib.rows[k].row.objectId.Some? && lib.rows[k].row.objectId.value in lib.docs)
    && (forall d | d in lib.processing :: d in lib.docs)
    && OncePerVersion(lib.docs)
  }

  ghost predicate OncePerVersion(docs: map<Id, Document>) {
    forall d, e | d in docs && e in docs && d != e ::
      !(docs[d].tenant == docs[e].tenant && docs[d].content == docs[e].content
        && docs[d].title == docs[e].title && docs[d].version == docs[e].version)
  }

  ghost predicate Inv(lib: Library) { Tidy(lib) && Governed(lib) }

  lemma ReplacedChunks(d: Derived, lib: Library, doc: Id, sections: seq<Chunker.Section>)
    requires Tidy(lib)
    ensures var r := Replaced(d, lib, doc, sections);
      && (forall c | c in lib.chunks && lib.chunks[c].document != doc :: c in r.chunks && r.chunks[c] == lib.chunks[c])
      && (forall c | c in r.chunks :: c < r.nextChunk &&
            (if c < lib.nextChunk then c in lib.chunks && r.chunks[c] == lib.chunks[c] && r.chunks[c].document != doc
             else r.chunks[c].document == doc))
      && (HasChunks(r.chunks, doc) <==> sections != [])
  {
    var r := Replaced(d, lib, doc, sections);
    if sections != [] {
      assert lib.nextChunk in r.chunks && r.chunks[lib.nextChunk].document == doc;
    }
  }

  lemma CreatorAppend(rows: Rows, now: int, row: AuditRow, tenant: Id, doc: Id)
    requires Ordered(rows) && NotBefore(now, rows)
    ensures Oldest(Append(rows, now, row), IsCreation(tenant, doc)) ==
      if Oldest(rows, IsCreation(tenant, doc)).Some? || !IsCreation(tenant, doc)(row)
      then Oldest(rows, IsCreation(tenant, doc))
      else Some(Stamped(NextId(rows), now, row))
  {
    OldestAppend(rows, now, row, IsCreation(tenant, doc));
  }

  /** No creation row without a document. */
  lemma NoCreator(lib: Library, tenant: Id, doc: Id)
    requires Tidy(lib) && doc !in lib.docs
    ensures Oldest(lib.rows, IsCreation(tenant, doc)).None?
  {
    var k := OldestFound(lib.rows, IsCreation(tenant, doc));
  }

  // ---------- what each kind of change keeps ----------

  /** Only rows that create no document were added, and no document is new. */
  lemma SameCreators(lib: Library, lib': Library, now: int, row: AuditRow)
    requires Tidy(lib) && NotBefore(now, lib.rows) && row.action != DocumentCreate
    requires lib'.rows == Append(lib.rows, now, row)
    ensures forall tenant, doc :: Creator(lib'.rows, tenant, doc) == Creator(lib.rows, tenant, doc)
    ensures Ordered(lib'.rows)
  {
    hide Ordered, Oldest, Append;
    AppendOrdered(lib.rows, now, row);
    forall tenant, doc ensures Creator(lib'.rows, tenant, doc) == Creator(lib.rows, tenant, doc) {
      CreatorAppend(lib.rows, now, row, tenant, doc);
    }
  }

  /** A new document's creator is the actor of its first row; the others keep theirs. */
  lemma NewCreator(lib: Library, lib': Library, now: int, tenant: Id, actor: Id, newId: Id, count: Option<nat>)
    requires Tidy(lib) && NotBefore(now, lib.rows) && newId !in lib.docs
    requires lib'.rows == Append(lib.rows, now,
        Row(tenant, Some(actor), DocumentCreate, DocumentObject, Some(newId), None, count))
    ensures Creator(lib'.rows, tenant, newId) == Some(actor)
    ensures forall t, doc | doc != newId :: Creator(lib'.rows, t, doc) == Creator(lib.rows, t, doc)
    ensures Ordered(lib'.rows)
  {
    hide Ordered, Oldest, Append;
    var row := Row(tenant, Some(actor), DocumentCreate, DocumentObject, Some(newId), None, count);
    AppendOrdered(lib.rows, now, row);
    NoCreator(lib, tenant, newId);
    CreatorAppend(lib.rows, now, row, tenant, newId);
    forall t, doc | doc != newId ensures Creator(lib'.rows, t, doc) == Creator(lib.rows, t, doc) {
      CreatorAppend(lib.rows, now, row, t, doc);
    }
  }

  /** Indexing a document that exists: the rest of the library is as it was. */
  lemma ProcessKeeps(t: Chars, d: Derived, lib: Library, now: int, tenant: Id, actor: Id, doc: Id,
      extracted: Option<string>)
    requires Inv(lib) && NotBefore(now, lib.rows) && doc in lib.docs
    ensures Inv(IndexContent(t, d, lib, now, tenant, actor, doc, extracted).0)
  {
    hide Sections, Ordered, Oldest, Creator, HasChunks, Replaced;
    var (lib', out) := IndexContent(t, d, lib, now, tenant, actor, doc, extracted);
    if out.Done? {
      var sections := Sections(t, extracted.value, None);
      ReplacedChunks(d, lib, doc, sections);
      ReplacedRest(d, lib, doc, sections);
      ChunksRemain(lib, lib', doc);
      SameCreators(lib, lib', now, Row(tenant, Some(actor), OtherAction, DocumentObject, Some(doc), None,
          Some(|sections|)));
    } else if out.Failure? {
      SameCreators(lib, lib', now, Row(tenant, Some(actor), OtherAction, DocumentObject, Some(doc), None, None));
    }
  }

  lemma ReplacedRest(d: Derived, lib: Library, doc: Id, sections: seq<Chunker.Section>)
    ensures var r := Replaced(d, lib, doc, sections);
      r.docs == lib.docs && r.citations == lib.citations && r.rows == lib.rows && r.processing == lib.processing
      && r.found == lib.found && r.nextChunk == lib.nextChunk + |sections|
  {
  }

  /** Other documents keep their chunks. */
  lemma ChunksRemain(lib: Library, lib': Library, doc: Id)
    requires forall c | c in lib.chunks && lib.chunks[c].document != doc ::
        c in lib'.chunks && lib'.chunks[c] == lib.chunks[c]
    requires HasChunks(lib'.chunks, doc)
    ensures forall e | HasChunks(lib.chunks, e) :: HasChunks(lib'.chunks, e)
  {
    forall e | HasChunks(lib.chunks, e) ensures HasChunks(lib'.chunks, e) {
      var c :| c in lib.chunks && lib.chunks[c].document == e;
      if e != doc { assert c in lib'.chunks; }
    }
  }

  /** A new document, with the chunks its first transaction gives it. */
  lemma InsertKeeps(d: Derived, lib: Library, lib': Library, now: int, tenant: Id, actor: Id, u: Upload, newId: Id,
                    sections: seq<Chunker.Section>, count: Option<nat>)
    requires Inv(lib) && NotBefore(now, lib.rows) && newId !in lib.docs && !SameVersion(lib, tenant, u)
    requires lib'.docs == lib.docs[newId := Fresh(tenant, u)]
        && lib'.citations == lib.citations && lib'.found == lib.found
    requires lib'.chunks == Replaced(d, lib, newId, sections).chunks && lib'.nextChunk == lib.nextChunk + |sections|
    requires lib'.processing == lib.processing || lib'.processing == lib.processing + multiset{newId}
    requires lib'.rows == Append(lib.rows, now,
        Row(tenant, Some(actor), DocumentCreate, DocumentObject, Some(newId), None, count))
    ensures Inv(lib')
  {
    hide Ordered, Oldest, Creator, Replaced, HasChunks, Append, NotBefore, OncePerVersion, SameVersion;
    ReplacedChunks(d, lib, newId, sections);
    AnotherVersion(lib, tenant, u, newId);
    ReplacedRest(d, lib, newId, sections);
    NewCreator(lib, lib', now, tenant, actor, newId, count);
    assert Governed(lib') by {
      hide Tidy;
      forall e | HasChunks(lib.chunks, e) ensures HasChunks(lib'.chunks, e) {
        ChunksSurvive(lib.chunks, lib'.chunks, e);
      }
    }
    assert Tidy(lib') by {
      hide Governed;
      RowsTidy(lib, lib', now, Row(tenant, Some(actor), DocumentCreate, DocumentObject, Some(newId), None, count));
    }
  }

  lemma AnotherVersion(lib: Library, tenant: Id, u: Upload, newId: Id)
    requires OncePerVersion(lib.docs) && newId !in lib.docs && !SameVersion(lib, tenant, u)
    ensures OncePerVersion(lib.docs[newId := Fresh(tenant, u)])
  {
  }

  lemma ChunksSurvive(a: map<Id, Chunk>, b: map<Id, Chunk>, doc: Id)
    requires HasChunks(a, doc) && forall c | c in a :: c in b && b[c].document == a[c].document
    ensures HasChunks(b, doc)
  {
    var c :| c in a && a[c].document == doc;
    assert c in b;
  }

  /** A document changes its approval or its dates, or chunks their derived columns. */
  lemma TouchKeeps(lib: Library, lib': Library, now: int, row: AuditRow, doc: Id, after: Document)
    requires Inv(lib) && NotBefore(now, lib.rows) && doc in lib.docs && row.action != DocumentCreate
    requires lib'.rows == Append(lib.rows, now, row)
    requires lib'.docs == lib.docs[doc := after] && lib'.citations == lib.citations
        && lib'.nextChunk == lib.nextChunk && lib'.processing == lib.processing && lib'.found == lib.found
    requires lib'.chunks.Keys == lib.chunks.Keys
    requires forall c | c in lib.chunks :: lib'.chunks[c].document == lib.chunks[c].document
    requires var before := lib.docs[doc];
      after.tenant == before.tenant && after.content == before.content && after.title == before.title
          && after.version == before.version
    requires after.approved ==>
        HasChunks(lib.chunks, doc) && after.approvedBy.Some? && after.approvedBy != Creator(lib.rows, after.tenant, doc)
    ensures Inv(lib')
  {
    hide Ordered, Oldest, Creator, HasChunks, Append, NotBefore, OncePerVersion;
    SameVersionStays(lib.docs, doc, after);
    SameCreators(lib, lib', now, row);
    forall e | HasChunks(lib.chunks, e) ensures HasChunks(lib'.chunks, e) { ChunksSurvive(lib.chunks, lib'.chunks, e); }
    assert Governed(lib') by { hide Tidy; }
    assert Tidy(lib') by { RowsTidy(lib, lib', now, row); }
  }

  lemma SameVersionStays(docs: map<Id, Document>, doc: Id, after: Document)
    requires OncePerVersion(docs) && doc in docs
    requires var before := docs[doc];
      after.tenant == before.tenant && after.content == before.content && after.title == before.title
          && after.version == before.version
    ensures OncePerVersion(docs[doc := after])
  {
  }

  lemma RowsTidy(lib: Library, lib': Library, now: int, row: AuditRow)
    requires Tidy(lib) && lib'.rows == Append(lib.rows, now, row) && forall d | d in lib.docs :: d in lib'.docs
    requires row.action == DocumentCreate ==> row.actor.Some? && row.objectId.Some? && row.objectId.value in lib'.docs
    ensures forall k | 0 <= k < |lib'.rows| :: lib'.rows[k].row.action == DocumentCreate ==>
      lib'.rows[k].row.actor.Some? && lib'.rows[k].row.objectId.Some? && lib'.rows[k].row.objectId.value in lib'.docs
  {
    hide Ordered;
  }

  lemma StepKeeps(t: Chars, d: Derived, lib: Library, s: Step)
    requires Inv(lib) && Enabled(lib, s)
    ensures Inv(Next(t, d, lib, s))
  {
    hide Sections, Ordered, Oldest, Creator, HasChunks, Append, NotBefore, Tidy, Governed, Replaced, IndexContent;
    var lib' := Next(t, d, lib, s);
    match s
    case Create(now, _, tenant, actor, u, heading, newId) =>
      if lib' != lib {
        var sections := Sections(t, u.content, heading);
        var inserted := lib.(docs := lib.docs[newId := Fresh(tenant, u)]);
        ReplacedRest(d, inserted, newId, sections);
        SameReplacement(d, inserted, lib, newId, sections);
        InsertKeeps(d, lib, lib', now, tenant, actor, u, newId, sections, Some(|sections|));
      }
    case Start(now, _, tenant, actor, u, newId) =>
      if lib' != lib {
        NothingReplaced(d, lib, newId);
        InsertKeeps(d, lib, lib', now, tenant, actor, u, newId, [], None);
      }
    case Finish(now, _, tenant, actor, doc, extracted) =>
      Underway(lib, doc, lib.processing - multiset{doc});
      ProcessKeeps(t, d, lib.(processing := lib.processing - multiset{doc}), now, tenant, actor, doc, extracted);
    case Again(_, _, tenant, _, doc) => if lib' != lib { Underway(lib, doc, lib.processing + multiset{doc}); }
    case Approve(now, today, tenant, actor, doc) =>
      if lib' != lib {
        TouchKeeps(lib, lib', now, Row(tenant, Some(actor), OtherAction, DocumentObject, Some(doc), None, None), doc,
            lib'.docs[doc]);
      }
    case Retire(now, today, tenant, actor, doc) =>
      if lib' != lib {
        TouchKeeps(lib, lib', now, Row(tenant, Some(actor), OtherAction, DocumentObject, Some(doc), None, None), doc,
            lib'.docs[doc]);
      }
    case Reindex(now, _, tenant, actor, doc) =>
      if lib' != lib {
        Approvals(lib, doc);
        assert lib'.docs == lib.docs[doc := lib.docs[doc]];
        TouchKeeps(lib, lib', now, Row(tenant, Some(actor), OtherAction, DocumentObject, Some(doc), None, None), doc,
            lib.docs[doc]);
      }
    case Search(_, _, _, _, _) => RestKeeps(lib, lib');
    case Quote(_, _, _) => RestKeeps(lib, lib');
    case Elsewhere(now, _, row) => ElsewhereKeeps(lib, now, row);
  }

  lemma Approvals(lib: Library, doc: Id)
    requires Inv(lib) && doc in lib.docs
    ensures lib.docs[doc].approved ==>
      HasChunks(lib.chunks, doc) && lib.docs[doc].approvedBy.Some?
          && lib.docs[doc].approvedBy != Creator(lib.rows, lib.docs[doc].tenant, doc)
  {
  }

  lemma SameReplacement(d: Derived, a: Library, b: Library, doc: Id, sections: seq<Chunker.Section>)
    requires a.chunks == b.chunks && a.nextChunk == b.nextChunk
    ensures Replaced(d, a, doc, sections).chunks == Replaced(d, b, doc, sections).chunks
  {
  }

  lemma NothingReplaced(d: Derived, lib: Library, doc: Id)
    requires Tidy(lib) && doc !in lib.docs
    ensures Replaced(d, lib, doc, []).chunks == lib.chunks
  {
    assert Without(lib.chunks, doc) == lib.chunks;
  }

  lemma Underway(lib: Library, doc: Id, processing: multiset<Id>)
    requires Inv(lib) && doc in lib.docs && processing <= lib.processing + multiset{doc}
    ensures Inv(lib.(processing := processing))
  {
    hide Ordered, Oldest, Creator, HasChunks;
  }

  /** Nothing changes but what replies found and quoted. */
  lemma RestKeeps(lib: Library, lib': Library)
    requires Inv(lib) && lib' == lib.(citations := lib'.citations, found := lib'.found)
    ensures Inv(lib')
  {
    hide Ordered, Oldest, Creator, HasChunks;
  }

  lemma ElsewhereKeeps(lib: Library, now: int, row: AuditRow)
    requires Inv(lib) && NotBefore(now, lib.rows) && row.action != DocumentCreate
    ensures Inv(lib.(rows := Append(lib.rows, now, row)))
  {
    hide Ordered, Oldest, Creator, HasChunks;
    SameCreators(lib, lib.(rows := Append(lib.rows, now, row)), now, row);
  }

  // ---------- all runs: governance ----------

  ghost predicate Run(t: Chars, d: Derived, lib: Library, steps: seq<Step>)
    decreases |steps|
  {
    steps == [] || (Enabled(lib, steps[0]) && Run(t, d, Next(t, d, lib, steps[0]), steps[1..]))
  }

  function After(t: Chars, d: Derived, lib: Library, steps: seq<Step>): Library
    requires Run(t, d, lib, steps)
    decreases |steps|
  {
    if steps == [] then lib else After(t, d, Next(t, d, lib, steps[0]), steps[1..])
  }

  lemma {:induction false} RunKeeps(t: Chars, d: Derived, lib: Library, steps: seq<Step>)
    requires Inv(lib) && Run(t, d, lib, steps)
    ensures Inv(After(t, d, lib, steps))
    decreases |steps|
  {
    hide Inv, Next, Enabled;
    if steps == [] {
    } else {
      StepKeeps(t, d, lib, steps[0]);
      RunKeeps(t, d, Next(t, d, lib, steps[0]), steps[1..]);
    }
  }

  lemma EmptyInv()
    ensures Inv(EMPTY_LIBRARY)
  {
  }

  /** Whatever a search may return belongs to a document with content, in force, whose
      approver is somebody other than its creator on record. */
  lemma OnlyGoverned(t: Chars, d: Derived, steps: seq<Step>, today: int, tenant: Id, chunk: Id)
    requires Run(t, d, EMPTY_LIBRARY, steps)
    requires Retrievable(After(t, d, EMPTY_LIBRARY, steps), today, tenant, chunk)
    ensures var lib := After(t, d, EMPTY_LIBRARY, steps);
      var id := lib.chunks[chunk].document;
      var creator, approver := Creator(lib.rows, tenant, id), lib.docs[id].approvedBy;
      && HasChunks(lib.chunks, id) && lib.docs[id].approved && lib.docs[id].tenant == tenant
      && (lib.docs[id].effectiveFrom.Some? ==> lib.docs[id].effectiveFrom.value <= today)
      && (lib.docs[id].effectiveTo.Some? ==> today < lib.docs[id].effectiveTo.value)
      && creator.Some? && approver.Some? && creator != approver
  {
    hide Run, After, Creator;
    EmptyInv();
    RunKeeps(t, d, EMPTY_LIBRARY, steps);
  }

  /** Dates that do not go back, from the given day on. */
  predicate Days(today: int, steps: seq<Step>)
    decreases |steps|
  {
    steps == [] || (today <= steps[0].today && Days(steps[0].today, steps[1..]))
  }

  lemma ExpiryStays(t: Chars, d: Derived, lib: Library, s: Step, doc: Id, today: int)
    requires Enabled(lib, s) && doc in lib.docs && Expired(lib.docs[doc], today) && today <= s.today
    ensures var lib' := Next(t, d, lib, s);
      doc in lib'.docs && Expired(lib'.docs[doc], today) && lib'.docs[doc].tenant == lib.docs[doc].tenant
  {
    hide Sections, Append, Creator, HasChunks, Without, NewChunks;
  }

  /** A retired or expired document is never found again, whatever is done to it later. */
  lemma {:induction false} NeverFoundAgain(t: Chars, d: Derived, lib: Library, doc: Id, today: int, steps: seq<Step>,
      later: int)
    requires Run(t, d, lib, steps) && Days(today, steps)
    requires doc in lib.docs && Expired(lib.docs[doc], today) && today <= later
    ensures var lib' := After(t, d, lib, steps);
      forall tenant, chunk | chunk in lib'.chunks && lib'.chunks[chunk].document == doc ::
          !Retrievable(lib', later, tenant, chunk)
    decreases |steps|
  {
    hide Next, Enabled;
    if steps == [] {
    } else {
      ExpiryStays(t, d, lib, steps[0], doc, today);
      DaysFrom(today, steps);
      NeverFoundAgain(t, d, Next(t, d, lib, steps[0]), doc, today, steps[1..], later);
      assert After(t, d, lib, steps) == After(t, d, Next(t, d, lib, steps[0]), steps[1..]);
    }
  }

  lemma DaysFrom(today: int, steps: seq<Step>)
    requires Days(today, steps) && steps != []
    ensures today <= steps[0].today && Days(today, steps[1..])
  {
    if |steps| > 1 { assert Days(steps[0].today, steps[1..]); }
  }

  /** In particular after it has been retired. */
  lemma RetiredForGood(t: Chars, d: Derived, lib: Library, retire: Step, steps: seq<Step>, later: int)
    requires retire.Retire? && Enabled(lib, retire)
    requires RetireDocument(lib, retire.now, retire.today, retire.tenant, retire.doc, retire.actor).1.Done?
    requires Run(t, d, Next(t, d, lib, retire), steps) && Days(retire.today, steps) && retire.today <= later
    ensures var lib' := After(t, d, Next(t, d, lib, retire), steps);
      forall tenant, chunk | chunk in lib'.chunks && lib'.chunks[chunk].document == retire.doc ::
          !Retrievable(lib', later, tenant, chunk)
  {
    hide Run, After, Retrievable;
    NeverFoundAgain(t, d, Next(t, d, lib, retire), retire.doc, retire.today, steps, later);
  }

  // ---------- citation stability ----------

  /** A chunk that a reply took along is as it was, unless it is gone. */
  ghost predicate Traced(lib: Library) {
    forall c | c in lib.found :: c.chunk < lib.nextChunk && (c.chunk in lib.chunks ==> Good(lib, c))
  }

  /** Identifiers of chunks are not used again, and texts of chunks do not change. */
  ghost predicate SameTexts(lib: Library, lib': Library) {
    && lib.nextChunk <= lib'.nextChunk
    && forall c | c in lib'.chunks && c < lib.nextChunk ::
        c in lib.chunks && lib'.chunks[c].document == lib.chunks[c].document
        && lib'.chunks[c].text == lib.chunks[c].text
  }

  lemma ReplacedTexts(d: Derived, lib: Library, lib': Library, doc: Id, sections: seq<Chunker.Section>)
    requires Tidy(lib) && lib'.nextChunk == lib.nextChunk + |sections|
    requires lib'.chunks == Replaced(d, lib, doc, sections).chunks
    ensures SameTexts(lib, lib')
    ensures forall c | c in lib.chunks && lib.chunks[c].document != doc :: c in lib'.chunks
  {
    hide Replaced, Ordered, Tidy, HasChunks;
    ReplacedRest(d, lib, doc, sections);
    ReplacedChunks(d, lib, doc, sections);
  }

  ghost predicate SameChunks(lib: Library, lib': Library, but: Option<Id>) {
    SameTexts(lib, lib') && forall c | c in lib.chunks && Some(lib.chunks[c].document) != but :: c in lib'.chunks
  }

  lemma CreateChunks(t: Chars, d: Derived, lib: Library, s: Step)
    requires Tidy(lib) && Enabled(lib, s) && s.Create?
    ensures SameChunks(lib, Next(t, d, lib, s), None)
  {
    hide Sections, Append, NotBefore, SameVersion, Replaced, Ordered;
    var inserted := lib.(docs := lib.docs[s.newId := Fresh(s.tenant, s.upload)]);
    SameReplacement(d, inserted, lib, s.newId, Sections(t, s.upload.content, s.heading));
    ReplacedRest(d, inserted, s.newId, Sections(t, s.upload.content, s.heading));
    if Next(t, d, lib, s) != lib {
      ReplacedTexts(d, lib, Next(t, d, lib, s), s.newId, Sections(t, s.upload.content, s.heading));
    }
  }

  lemma FinishChunks(t: Chars, d: Derived, lib: Library, s: Step)
    requires Tidy(lib) && Enabled(lib, s) && s.Finish?
    ensures SameChunks(lib, Next(t, d, lib, s), Some(s.doc))
  {
    hide Sections, Append, NotBefore, Replaced, Tidy;
    if s.extracted.Some? && Sections(t, s.extracted.value, None) != [] {
      var lib0 := lib.(processing := lib.processing - multiset{s.doc});
      SameReplacement(d, lib0, lib, s.doc, Sections(t, s.extracted.value, None));
      ReplacedRest(d, lib0, s.doc, Sections(t, s.extracted.value, None));
      ReplacedTexts(d, lib, Next(t, d, lib, s), s.doc, Sections(t, s.extracted.value, None));
    }
  }

  /** Only indexing a document takes its chunks away. */
  lemma StepChunks(t: Chars, d: Derived, lib: Library, s: Step)
    requires Tidy(lib) && Enabled(lib, s)
    ensures SameChunks(lib, Next(t, d, lib, s), if s.Finish? then Some(s.doc) else None)
  {
    if s.Create? {
      hide *;
      CreateChunks(t, d, lib, s);
    } else if s.Finish? {
      hide *;
      FinishChunks(t, d, lib, s);
    } else {
      hide Append, NotBefore, Creator, HasChunks, SameVersion, Tidy, Cited;
    }
  }

  lemma StepFound(t: Chars, d: Derived, lib: Library, s: Step)
    requires Enabled(lib, s)
    ensures Next(t, d, lib, s).found <=
      lib.found + if s.Search? then {CitationOf(lib, s.response, s.chunk)} else {}
  {
    hide Sections, Append, Creator, NotBefore, SameVersion, HasChunks, Cited, Without, NewChunks;
  }

  lemma StepTraced(t: Chars, d: Derived, lib: Library, s: Step)
    requires Tidy(lib) && Traced(lib) && Enabled(lib, s)
    ensures Traced(Next(t, d, lib, s))
  {
    hide Next, Enabled, Ordered;
    StepChunks(t, d, lib, s);
    StepFound(t, d, lib, s);
    if s.Search? { Searched(lib, s); }
  }

  lemma Searched(lib: Library, s: Step)
    requires s.Search? && Enabled(lib, s)
    ensures s.chunk in lib.chunks && lib.chunks[s.chunk].document in lib.docs
    ensures lib.docs[lib.chunks[s.chunk].document].approved
  {
  }

  lemma ReplacedStable(d: Derived, lib: Library, lib': Library, doc: Id, sections: seq<Chunker.Section>)
    requires Tidy(lib) && Stable(lib) && !Cited(lib.citations, doc)
    requires lib'.chunks == Replaced(d, lib, doc, sections).chunks && lib'.citations == lib.citations
    ensures Stable(lib')
  {
    hide Tidy, Replaced, Ordered;
    ReplacedChunks(d, lib, doc, sections);
    forall k | 0 <= k < |lib.citations| ensures Good(lib', lib.citations[k]) { assert Good(lib, lib.citations[k]); }
  }

  lemma ReplacedUnstable(d: Derived, lib: Library, lib': Library, doc: Id, sections: seq<Chunker.Section>)
    requires Tidy(lib) && Stable(lib) && Cited(lib.citations, doc)
    requires lib'.chunks == Replaced(d, lib, doc, sections).chunks && lib'.citations == lib.citations
    ensures !Stable(lib')
  {
    hide Replaced, Ordered;
    ReplacedChunks(d, lib, doc, sections);
    var k :| 0 <= k < |lib.citations| && lib.citations[k].document == doc;
    assert Good(lib, lib.citations[k]);
    assert !Good(lib', lib.citations[k]);
  }

  /** The step indexes readable text for a document already cited, or stores a reply whose
      chunk has been replaced since its search. */
  predicate TooLate(t: Chars, lib: Library, s: Step) {
    || (s.Finish? && s.extracted.Some? && Sections(t, s.extracted.value, None) != [] && Cited(lib.citations, s.doc))
    || (s.Quote? && s.citation.chunk !in lib.chunks)
  }

  /** Finishing an upload or a retry keeps every citation good exactly when there is no
      readable text, or nobody has cited the document meanwhile. */
  lemma FinishStableIff(t: Chars, d: Derived, lib: Library, s: Step)
    requires Inv(lib) && Stable(lib) && s.Finish? && Enabled(lib, s)
    ensures Stable(Next(t, d, lib, s)) <==> !TooLate(t, lib, s)
  {
    hide Sections, Append, Governed, Ordered, Cited, Good;
    var lib0 := lib.(processing := lib.processing - multiset{s.doc});
    Underway(lib, s.doc, lib0.processing);
    var lib' := Next(t, d, lib, s);
    if FinishProcessing(t, d, lib, s.now, s.tenant, s.actor, s.doc, s.extracted).1.Done? {
      var sections := Sections(t, s.extracted.value, None);
      SameGood(lib, lib0);
      if Cited(lib.citations, s.doc) {
        ReplacedUnstable(d, lib0, lib', s.doc, sections);
      } else {
        ReplacedStable(d, lib0, lib', s.doc, sections);
      }
    } else {
      SameGood(lib, lib');
    }
  }

  lemma SameGood(a: Library, b: Library)
    requires a.chunks == b.chunks && a.citations == b.citations
    ensures Stable(a) <==> Stable(b)
  {
    assert forall c :: Good(a, c) <==> Good(b, c);
  }

  /** Storing a reply keeps every citation good exactly when its chunk is still there. */
  lemma QuoteStableIff(t: Chars, d: Derived, lib: Library, s: Step)
    requires Inv(lib) && Stable(lib) && Traced(lib) && s.Quote? && Enabled(lib, s)
    ensures Stable(Next(t, d, lib, s)) <==> !TooLate(t, lib, s)
  {
    hide Tidy, Governed, Sections;
    var lib' := Next(t, d, lib, s);
    assert lib'.citations[|lib.citations|] == s.citation;
    if s.citation.chunk in lib.chunks {
      forall k | 0 <= k < |lib'.citations| ensures Good(lib', lib'.citations[k]) {
        if k < |lib.citations| { assert Good(lib, lib.citations[k]); }
      }
    }
  }

  /** Every other step keeps every citation good. */
  lemma StepStable(t: Chars, d: Derived, lib: Library, s: Step)
    requires Inv(lib) && Stable(lib) && Enabled(lib, s) && !s.Finish? && !s.Quote?
    ensures Stable(Next(t, d, lib, s))
  {
    hide Sections, Append, Governed, Ordered, Cited, Good, Tidy, Stable, Creator, HasChunks, Replaced;
    var lib' := Next(t, d, lib, s);
    match s
    case Create(now, _, tenant, actor, u, heading, newId) =>
      if lib' != lib {
        var inserted := lib.(docs := lib.docs[newId := Fresh(tenant, u)]);
        SameReplacement(d, inserted, lib, newId, Sections(t, u.content, heading));
        ReplacedRest(d, inserted, newId, Sections(t, u.content, heading));
        NotYetCited(lib, newId);
        ReplacedStable(d, lib, lib', newId, Sections(t, u.content, heading));
      }
    case Start(_, _, _, _, _, _) => SameGood(lib, lib');
    case Again(_, _, _, _, _) => SameGood(lib, lib');
    case Approve(_, _, _, _, _) => SameGood(lib, lib');
    case Retire(_, _, _, _, _) => SameGood(lib, lib');
    case Reindex(_, _, _, _, doc) => ReindexStable(d, lib, lib', doc);
    case Search(_, _, _, _, _) => SameGood(lib, lib');
    case Elsewhere(_, _, _) => SameGood(lib, lib');
  }

  lemma NotYetCited(lib: Library, doc: Id)
    requires Tidy(lib) && Stable(lib) && doc !in lib.docs
    ensures !Cited(lib.citations, doc)
  {
    forall k | 0 <= k < |lib.citations| ensures lib.citations[k].document != doc { assert Good(lib, lib.citations[k]); }
  }

  lemma ReindexStable(d: Derived, lib: Library, lib': Library, doc: Id)
    requires Stable(lib) && lib'.citations == lib.citations
    requires lib'.chunks == lib.chunks || lib'.chunks == Reindexed(d, lib.chunks, doc)
    ensures Stable(lib')
  {
    forall k | 0 <= k < |lib.citations| ensures Good(lib', lib.citations[k]) { assert Good(lib, lib.citations[k]); }
  }

  // ---------- citation stability over runs ----------

  ghost predicate StableThroughout(t: Chars, d: Derived, lib: Library, steps: seq<Step>)
    requires Run(t, d, lib, steps)
    decreases |steps|
  {
    Stable(lib) && (steps == [] || StableThroughout(t, d, Next(t, d, lib, steps[0]), steps[1..]))
  }

  ghost predicate NeverTooLate(t: Chars, d: Derived, lib: Library, steps: seq<Step>)
    requires Run(t, d, lib, steps)
    decreases |steps|
  {
    steps == [] || (!TooLate(t, lib, steps[0]) && NeverTooLate(t, d, Next(t, d, lib, steps[0]), steps[1..]))
  }

  lemma StepStableIff(t: Chars, d: Derived, lib: Library, s: Step)
    requires Inv(lib) && Stable(lib) && Traced(lib) && Enabled(lib, s)
    ensures Stable(Next(t, d, lib, s)) <==> !TooLate(t, lib, s)
  {
    hide *;
    if s.Finish? {
      FinishStableIff(t, d, lib, s);
    } else if s.Quote? {
      QuoteStableIff(t, d, lib, s);
    } else {
      StepStable(t, d, lib, s);
      OnlyTwo(t, lib, s);
    }
  }

  lemma OnlyTwo(t: Chars, lib: Library, s: Step)
    ensures TooLate(t, lib, s) ==> (s.Finish? && Cited(lib.citations, s.doc)) || s.Quote?
  {
    hide Sections;
  }

  lemma {:induction false} StableIffFrom(t: Chars, d: Derived, lib: Library, steps: seq<Step>)
    requires Inv(lib) && Stable(lib) && Traced(lib) && Run(t, d, lib, steps)
    ensures StableThroughout(t, d, lib, steps) <==> NeverTooLate(t, d, lib, steps)
    decreases |steps|
  {
    hide Tidy, Governed, Next, Enabled, Stable, Traced, TooLate;
    if steps == [] {
    } else {
      var next := Next(t, d, lib, steps[0]);
      StepKeeps(t, d, lib, steps[0]);
      StepTraced(t, d, lib, steps[0]);
      StepStableIff(t, d, lib, steps[0]);
      if Stable(next) {
        StableIffFrom(t, d, next, steps[1..]);
      } else {
        UnstableAtOnce(t, d, next, steps[1..]);
      }
    }
  }

  lemma UnstableAtOnce(t: Chars, d: Derived, lib: Library, steps: seq<Step>)
    requires !Stable(lib) && Run(t, d, lib, steps)
    ensures !StableThroughout(t, d, lib, steps)
  {
  }

  /** Exactly: in any run each citation's chunk is there, belongs to the cited document
      and has the quoted text, at every moment, if and only if no step of the run finishes
      an upload with readable text for a document already cited. */
  lemma StableIff(t: Chars, d: Derived, steps: seq<Step>)
    requires Run(t, d, EMPTY_LIBRARY, steps)
    ensures StableThroughout(t, d, EMPTY_LIBRARY, steps) <==> NeverTooLate(t, d, EMPTY_LIBRARY, steps)
  {
    EmptyInv();
    StableIffFrom(t, d, EMPTY_LIBRARY, steps);
  }

  predicate Finishes(steps: seq<Step>, doc: Id) {
    exists k | 0 <= k < |steps| :: steps[k].Finish? && steps[k].doc == doc
  }

  /** No processing of a document finishes after an approval of it was asked for. */
  predicate InTurn(steps: seq<Step>) {
    forall j, k | 0 <= j < k < |steps| :: steps[j].Approve? && steps[k].Finish? ==> steps[j].doc != steps[k].doc
  }

  /** The document was never approved, so no search found it. */
  ghost predicate Unused(lib: Library, doc: Id) {
    && (doc in lib.docs ==> !lib.docs[doc].approved)
    && !Cited(lib.citations, doc) && forall c | c in lib.found :: c.document != doc
  }

  /** Documents still to be processed are unused, and what replies took along is there. */
  ghost predicate Settled(lib: Library, steps: seq<Step>) {
    && Traced(lib) && (forall e | Finishes(steps, e) :: Unused(lib, e))
    && forall c | c in lib.found :: c.chunk in lib.chunks
  }

  lemma StaysUnused(t: Chars, d: Derived, lib: Library, s: Step, e: Id)
    requires Unused(lib, e) && Enabled(lib, s) && (s.Approve? ==> s.doc != e)
    ensures Unused(Next(t, d, lib, s), e)
  {
    hide Sections, Append, Creator, NotBefore, SameVersion, HasChunks, Without, NewChunks;
  }

  /** Only indexing an unused document takes chunks away. */
  lemma StaysThere(t: Chars, d: Derived, lib: Library, s: Step)
    requires Tidy(lib) && Traced(lib) && Enabled(lib, s) && (s.Finish? ==> Unused(lib, s.doc))
    requires forall c | c in lib.found :: c.chunk in lib.chunks
    ensures forall c | c in Next(t, d, lib, s).found :: c.chunk in Next(t, d, lib, s).chunks
  {
    hide Next, Enabled, Ordered, Cited;
    StepChunks(t, d, lib, s);
    StepFound(t, d, lib, s);
    if s.Search? { Searched(lib, s); }
    forall c | c in lib.found ensures Good(lib, c) {}
  }

  lemma StepSettled(t: Chars, d: Derived, lib: Library, steps: seq<Step>)
    requires steps != [] && Inv(lib) && Settled(lib, steps) && Enabled(lib, steps[0]) && InTurn(steps)
    ensures Settled(Next(t, d, lib, steps[0]), steps[1..]) && InTurn(steps[1..])
  {
    hide Tidy, Governed, Next, Enabled, Unused, Traced;
    var lib', rest := Next(t, d, lib, steps[0]), steps[1..];
    if steps[0].Finish? { assert Finishes(steps, steps[0].doc); }
    StaysThere(t, d, lib, steps[0]);
    StepTraced(t, d, lib, steps[0]);
    forall e | Finishes(rest, e) ensures Unused(lib', e) {
      var k :| 0 <= k < |rest| && rest[k].Finish? && rest[k].doc == e;
      assert steps[k + 1] == rest[k];
      assert Finishes(steps, e);
      StaysUnused(t, d, lib, steps[0], e);
    }
    assert forall k | 0 <= k < |rest| :: rest[k] == steps[k + 1];
  }

  lemma {:induction false} SettledRun(t: Chars, d: Derived, lib: Library, steps: seq<Step>)
    requires Inv(lib) && Settled(lib, steps) && Run(t, d, lib, steps) && InTurn(steps)
    ensures NeverTooLate(t, d, lib, steps)
    decreases |steps|
  {
    hide Inv, Next, Enabled, Settled, TooLate, InTurn;
    if steps == [] {
    } else {
      SettledStep(t, lib, steps);
      StepKeeps(t, d, lib, steps[0]);
      StepSettled(t, d, lib, steps);
      SettledRun(t, d, Next(t, d, lib, steps[0]), steps[1..]);
    }
  }

  lemma SettledStep(t: Chars, lib: Library, steps: seq<Step>)
    requires steps != [] && Settled(lib, steps) && Enabled(lib, steps[0])
    ensures !TooLate(t, lib, steps[0])
  {
    hide Sections, Cited;
    if steps[0].Finish? { assert Finishes(steps, steps[0].doc); }
  }

  /** In particular citations are stable in every run in which no processing of a document
      finishes after an approval of it was asked for; retrying an upload that died does no harm. */
  lemma CitationsStable(t: Chars, d: Derived, steps: seq<Step>)
    requires Run(t, d, EMPTY_LIBRARY, steps) && InTurn(steps)
    ensures StableThroughout(t, d, EMPTY_LIBRARY, steps)
  {
    EmptyInv();
    SettledRun(t, d, EMPTY_LIBRARY, steps);
    StableIff(t, d, steps);
  }

  // ---------- without interruption ----------

  /** A request that runs through with no other in between. */
  predicate Through(t: Chars, lib: Library, a: Step, b: Step)
    requires Enabled(lib, a)
  {
    || (a.Start? && b.Finish? && b.doc == a.newId)
    || (a.Again? && b.Finish? && b.doc == a.doc && CheckRetry(lib, a.tenant, a.doc).1.Done?)
    || (a.Search? && b.Quote? && b.citation == CitationOf(lib, a.response, a.chunk))
  }

  /** Every second half follows its first half at once; a first half may be all there is. */
  ghost predicate Uninterrupted(t: Chars, d: Derived, lib: Library, steps: seq<Step>)
    requires Run(t, d, lib, steps)
    decreases |steps|
  {
    || steps == []
    || (!steps[0].Finish? && !steps[0].Quote? && Uninterrupted(t, d, Next(t, d, lib, steps[0]), steps[1..]))
    || (|steps| > 1 && Through(t, lib, steps[0], steps[1])
        && Rest(t, d, lib, steps) && Uninterrupted(t, d, AfterTwo(t, d, lib, steps), steps[2..]))
  }

  ghost predicate Rest(t: Chars, d: Derived, lib: Library, steps: seq<Step>)
    requires |steps| > 1 && Enabled(lib, steps[0])
  {
    Enabled(Next(t, d, lib, steps[0]), steps[1]) && Run(t, d, AfterTwo(t, d, lib, steps), steps[2..])
  }

  function AfterTwo(t: Chars, d: Derived, lib: Library, steps: seq<Step>): Library
    requires |steps| > 1 && Enabled(lib, steps[0]) && Enabled(Next(t, d, lib, steps[0]), steps[1])
  {
    Next(t, d, Next(t, d, lib, steps[0]), steps[1])
  }

  lemma ThroughInTime(t: Chars, d: Derived, lib: Library, a: Step, b: Step)
    requires Inv(lib) && Stable(lib) && Enabled(lib, a) && Through(t, lib, a, b)
    ensures !TooLate(t, lib, a) && !TooLate(t, Next(t, d, lib, a), b)
  {
    hide Sections, Append, Governed, Ordered, Creator, NotBefore, HasChunks;
    if a.Start? { NotYetCited(lib, a.newId); }
  }

  lemma {:induction false} UninterruptedInTime(t: Chars, d: Derived, lib: Library, steps: seq<Step>)
    requires Inv(lib) && Stable(lib) && Traced(lib) && Run(t, d, lib, steps) && Uninterrupted(t, d, lib, steps)
    ensures NeverTooLate(t, d, lib, steps)
    decreases |steps|
  {
    hide Tidy, Governed, Next, Enabled, Stable, Traced, TooLate, Through;
    if steps == [] {
    } else {
      var a, next := steps[0], Next(t, d, lib, steps[0]);
      StepKeeps(t, d, lib, a);
      StepTraced(t, d, lib, a);
      if !a.Finish? && !a.Quote? && Uninterrupted(t, d, next, steps[1..]) {
        StepStable(t, d, lib, a);
        OnlyTwo(t, lib, a);
        UninterruptedInTime(t, d, next, steps[1..]);
      } else {
        var b := steps[1];
        assert steps[1..][1..] == steps[2..];
        ThroughInTime(t, d, lib, a, b);
        StepStableIff(t, d, lib, a);
        StepKeeps(t, d, next, b);
        StepTraced(t, d, next, b);
        StepStableIff(t, d, next, b);
        UninterruptedInTime(t, d, AfterTwo(t, d, lib, steps), steps[2..]);
      }
    }
  }

  /** The checks do what they are for as long as nothing comes between a check and what
      it guards: then citations are stable, in runs of any uploads, retries and replies. */
  lemma ChecksSuffice(t: Chars, d: Derived, steps: seq<Step>)
    requires Run(t, d, EMPTY_LIBRARY, steps) && Uninterrupted(t, d, EMPTY_LIBRARY, steps)
    ensures StableThroughout(t, d, EMPTY_LIBRARY, steps)
  {
    EmptyInv();
    UninterruptedInTime(t, d, EMPTY_LIBRARY, steps);
    StableIff(t, d, steps);
  }

  // ---------- the runs that break a citation ----------

  predicate InForce(u: Upload, today: int) {
    (u.effectiveFrom.Some? ==> u.effectiveFrom.value <= today) && (u.effectiveTo.Some? ==> today < u.effectiveTo.value)
  }

  /** What the request is checked for: the end comes after the beginning. */
  predicate DatesOrdered(u: Upload) {
    u.effectiveFrom.Some? && u.effectiveTo.Some? ==> u.effectiveFrom.value < u.effectiveTo.value
  }

  function SomeDay(u: Upload): (today: int)
    requires DatesOrdered(u)
    ensures InForce(u, today)
  {
    if u.effectiveFrom.Some? then u.effectiveFrom.value else if u.effectiveTo.Some? then u.effectiveTo.value - 1 else 0
  }

  /** A library of one document that nobody has approved or cited yet. */
  ghost predicate OneDraft(lib: Library, u: Upload) {
    && Inv(lib) && lib.docs == map[0 := Fresh(0, u)] && lib.citations == [] && NotBefore(0, lib.rows)
    && Creator(lib.rows, 0, 0) == Some(1)
  }

  const CHECK := Again(0, 0, 0, 1, 0)

  function Ends(extracted: Option<string>): Step { Finish(0, 0, 0, 1, 0, extracted) }

  lemma Uploaded(t: Chars, d: Derived, u: Upload)
    ensures var s := Start(0, 0, 0, 1, u, 0);
      && Enabled(EMPTY_LIBRARY, s)
      && var lib := Next(t, d, EMPTY_LIBRARY, s); OneDraft(lib, u) && lib.processing == multiset{0}
  {
    hide Creator;
    var s := Start(0, 0, 0, 1, u, 0);
    EmptyInv();
    StepKeeps(t, d, EMPTY_LIBRARY, s);
    NewCreator(EMPTY_LIBRARY, Next(t, d, EMPTY_LIBRARY, s), 0, 0, 1, 0, None);
  }

  lemma Checked(t: Chars, d: Derived, lib: Library, u: Upload)
    requires OneDraft(lib, u)
    ensures Enabled(lib, CHECK)
    ensures var lib' := Next(t, d, lib, CHECK);
      OneDraft(lib', u) && lib'.processing == lib.processing + multiset{0} && lib'.chunks == lib.chunks
  {
    hide Inv, Creator;
    StepKeeps(t, d, lib, CHECK);
  }

  lemma Ended(t: Chars, d: Derived, lib: Library, u: Upload, extracted: Option<string>)
    requires OneDraft(lib, u) && 0 in lib.processing
    ensures Enabled(lib, Ends(extracted))
    ensures var lib' := Next(t, d, lib, Ends(extracted));
      && OneDraft(lib', u) && lib'.processing == lib.processing - multiset{0}
      && (extracted.Some? && Sections(t, extracted.value, None) != [] ==> HasChunks(lib'.chunks, 0))
  {
    hide Sections, Creator, HasChunks, Governed, Ordered, Replaced;
    var s := Ends(extracted);
    var lib' := Next(t, d, lib, s);
    StepKeeps(t, d, lib, s);
    var count := None;
    if extracted.Some? {
      var sections := Sections(t, extracted.value, None);
      count := Some(|sections|);
      var lib0 := lib.(processing := lib.processing - multiset{0});
      ReplacedRest(d, lib0, 0, sections);
      ReplacedChunks(d, lib0, 0, sections);
    }
    if lib'.rows != lib.rows {
      SameCreators(lib, lib', 0, Row(0, Some(1), OtherAction, DocumentObject, Some(0), None, count));
    }
  }

  /** The document is approved, and a reply has taken one of its chunks along. */
  ghost predicate Poised(lib: Library, c: Citation) {
    && Inv(lib) && lib.citations == [] && c in lib.found && c.document == 0 && c.chunk in lib.chunks && Good(lib, c)
    && 0 in lib.processing && Exists(lib, 0, 0) && NotBefore(0, lib.rows)
  }

  function Approval(today: int): Step { Approve(0, today, 0, 2, 0) }

  function Lookup(today: int, chunk: Id): Step { Search(0, today, 0, 5, chunk) }

  lemma Found(t: Chars, d: Derived, lib: Library, u: Upload, today: int) returns (chunk: Id, c: Citation)
    requires OneDraft(lib, u) && HasChunks(lib.chunks, 0) && 0 in lib.processing && InForce(u, today)
    ensures Enabled(lib, Approval(today))
    ensures var lib1 := Next(t, d, lib, Approval(today));
      Enabled(lib1, Lookup(today, chunk)) && Poised(Next(t, d, lib1, Lookup(today, chunk)), c)
  {
    hide Tidy, Governed, Creator;
    chunk :| chunk in lib.chunks && lib.chunks[chunk].document == 0;
    c := CitationOf(lib, 5, chunk);
    StepKeeps(t, d, lib, Approval(today));
    var lib1 := Next(t, d, lib, Approval(today));
    StepKeeps(t, d, lib1, Lookup(today, chunk));
  }

  /** Quoted, the chunk is deleted by the processing that finishes late. */
  lemma LateFinish(t: Chars, d: Derived, lib: Library, c: Citation, text: string)
    requires Poised(lib, c) && Sections(t, text, None) != []
    ensures Enabled(lib, Quote(0, 0, c))
    ensures var lib1 := Next(t, d, lib, Quote(0, 0, c));
      Enabled(lib1, Ends(Some(text))) && !Stable(Next(t, d, lib1, Ends(Some(text))))
  {
    hide Sections, Tidy, Governed;
    StepKeeps(t, d, lib, Quote(0, 0, c));
    var lib1 := Next(t, d, lib, Quote(0, 0, c));
    assert lib1.citations == [c];
    assert Cited(lib1.citations, 0) by { assert lib1.citations[0].document == 0; }
    FinishStableIff(t, d, lib1, Ends(Some(text)));
  }

  /** Deleted first, the chunk is quoted all the same. */
  lemma LateQuote(t: Chars, d: Derived, lib: Library, c: Citation, text: string)
    requires Poised(lib, c) && Sections(t, text, None) != []
    ensures Enabled(lib, Ends(Some(text)))
    ensures var lib1 := Next(t, d, lib, Ends(Some(text)));
      Enabled(lib1, Quote(0, 0, c)) && !Stable(Next(t, d, lib1, Quote(0, 0, c)))
  {
    hide Sections, Governed, Replaced, Ordered, HasChunks;
    var sections := Sections(t, text, None);
    var lib0 := lib.(processing := lib.processing - multiset{0});
    Underway(lib, 0, lib0.processing);
    ReplacedRest(d, lib0, 0, sections);
    ReplacedChunks(d, lib0, 0, sections);
    var lib1 := Next(t, d, lib, Ends(Some(text)));
    var lib2 := Next(t, d, lib1, Quote(0, 0, c));
    assert lib2.citations[0] == c;
  }

  ghost predicate Breaks(t: Chars, d: Derived, lib: Library, steps: seq<Step>) {
    Run(t, d, lib, steps) && !Stable(After(t, d, lib, steps))
  }

  lemma BreaksLater(t: Chars, d: Derived, lib: Library, s: Step, rest: seq<Step>)
    requires Enabled(lib, s) && Breaks(t, d, Next(t, d, lib, s), rest)
    ensures Breaks(t, d, lib, [s] + rest)
  {
    hide Enabled, Next, Stable;
    assert ([s] + rest)[1..] == rest;
  }

  predicate QuotedThenIndexed(s: seq<Step>) {
    |s| == 4 && s[0].Approve? && s[1].Search? && s[2].Quote? && s[3].Finish?
  }

  predicate IndexedThenQuoted(s: seq<Step>) {
    |s| == 4 && s[0].Approve? && s[1].Search? && s[2].Finish? && s[3].Quote?
  }

  lemma TwoMore(t: Chars, d: Derived, lib: Library, a: Step, b: Step, rest: seq<Step>)
    requires Enabled(lib, a) && Enabled(Next(t, d, lib, a), b)
    requires Breaks(t, d, Next(t, d, Next(t, d, lib, a), b), rest)
    ensures Breaks(t, d, lib, [a, b] + rest)
  {
    hide *;
    BreaksLater(t, d, Next(t, d, lib, a), b, rest);
    BreaksLater(t, d, lib, a, [b] + rest);
    assert [a] + ([b] + rest) == [a, b] + rest;
  }

  lemma FourSteps(t: Chars, d: Derived, lib: Library, a: Step, b: Step, x: Step, y: Step)
    requires Enabled(lib, a) && Enabled(Next(t, d, lib, a), b)
    requires var lib2 := Next(t, d, Next(t, d, lib, a), b);
      && Enabled(lib2, x) && Enabled(Next(t, d, lib2, x), y) && !Stable(Next(t, d, Next(t, d, lib2, x), y))
    ensures Breaks(t, d, lib, [a, b, x, y])
  {
    var lib2 := Next(t, d, Next(t, d, lib, a), b);
    assert Breaks(t, d, Next(t, d, Next(t, d, lib2, x), y), []) by { hide Enabled, Next, Stable; }
    hide *;
    TwoMore(t, d, lib2, x, y, []);
    TwoMore(t, d, lib, a, b, [x, y] + []);
    assert [a, b] + ([x, y] + []) == [a, b, x, y];
  }

  /** A document with content and a processing still under way: both ways to break. */
  lemma Endings(t: Chars, d: Derived, lib: Library, u: Upload, text: string) returns (q: seq<Step>, i: seq<Step>)
    requires OneDraft(lib, u) && HasChunks(lib.chunks, 0) && 0 in lib.processing
    requires Sections(t, text, None) != [] && DatesOrdered(u)
    ensures QuotedThenIndexed(q) && Breaks(t, d, lib, q)
    ensures IndexedThenQuoted(i) && Breaks(t, d, lib, i)
  {
    hide Sections, OneDraft, HasChunks, Enabled, Next, Stable, Poised, Run, Breaks, InForce;
    var today := SomeDay(u);
    var chunk, c := Found(t, d, lib, u, today);
    var a, s, quote, end := Approval(today), Lookup(today, chunk), Quote(0, 0, c), Ends(Some(text));
    q, i := [a, s, quote, end], [a, s, end, quote];
    var lib2 := Next(t, d, Next(t, d, lib, a), s);
    LateFinish(t, d, lib2, c, text);
    FourSteps(t, d, lib, a, s, quote, end);
    LateQuote(t, d, lib2, c, text);
    FourSteps(t, d, lib, a, s, end, quote);
  }

  /** The guarantee can fail, for every upload with readable text: a retry overtakes the
      upload, its result is approved and quoted, and the upload's own processing finishes.
      Or the processing finishes between a reply's search and the moment it is stored. */
  lemma ImpatientRetry(t: Chars, d: Derived, u: Upload, text: string)
    requires Sections(t, text, None) != [] && DatesOrdered(u)
    ensures var steps := [Start(0, 0, 0, 1, u, 0), CHECK, Ends(Some(text))];
      && (exists rest :: QuotedThenIndexed(rest) && Breaks(t, d, EMPTY_LIBRARY, steps + rest))
      && (exists rest :: IndexedThenQuoted(rest) && Breaks(t, d, EMPTY_LIBRARY, steps + rest))
  {
    hide Sections, Enabled, Next, Inv, Run, Stable, Breaks, HasChunks, Creator, NotBefore;
    var start := Start(0, 0, 0, 1, u, 0);
    Uploaded(t, d, u);
    var lib1 := Next(t, d, EMPTY_LIBRARY, start);
    Checked(t, d, lib1, u);
    var lib2 := Next(t, d, lib1, CHECK);
    Ended(t, d, lib2, u, Some(text));
    var lib3 := Next(t, d, lib2, Ends(Some(text)));
    var q, i := Endings(t, d, lib3, u, text);
    forall rest | rest == q || rest == i
      ensures Breaks(t, d, EMPTY_LIBRARY, [start, CHECK, Ends(Some(text))] + rest)
    {
      BreaksLater(t, d, lib2, Ends(Some(text)), rest);
      TwoMore(t, d, EMPTY_LIBRARY, start, CHECK, [Ends(Some(text))] + rest);
      assert [start, CHECK] + ([Ends(Some(text))] + rest) == [start, CHECK, Ends(Some(text))] + rest;
    }
  }

  /** One retry is enough when the upload itself is long done: whoever approves and quotes
      the document after the retry's check has the chunks deleted. */
  lemma LoneRetry(t: Chars, d: Derived, u: Upload, text: string)
    requires Sections(t, text, None) != [] && DatesOrdered(u)
    ensures var steps := [Start(0, 0, 0, 1, u, 0), Ends(Some(text)), CHECK];
      exists rest :: QuotedThenIndexed(rest) && Breaks(t, d, EMPTY_LIBRARY, steps + rest)
  {
    hide Sections, Enabled, Next, Inv, Run, Stable, Breaks, HasChunks, Creator, NotBefore;
    var start := Start(0, 0, 0, 1, u, 0);
    Uploaded(t, d, u);
    var lib1 := Next(t, d, EMPTY_LIBRARY, start);
    Ended(t, d, lib1, u, Some(text));
    var lib2 := Next(t, d, lib1, Ends(Some(text)));
    Checked(t, d, lib2, u);
    var lib3 := Next(t, d, lib2, CHECK);
    var q, _ := Endings(t, d, lib3, u, text);
    BreaksLater(t, d, lib2, CHECK, q);
    TwoMore(t, d, EMPTY_LIBRARY, start, Ends(Some(text)), [CHECK] + q);
    assert [start, Ends(Some(text))] + ([CHECK] + q) == [start, Ends(Some(text)), CHECK] + q;
  }

  /** Two retries of an upload whose extraction failed. */
  lemma CrossingRetries(t: Chars, d: Derived, u: Upload, text: string)
    requires Sections(t, text, None) != [] && DatesOrdered(u)
    ensures var steps := [Start(0, 0, 0, 1, u, 0), Ends(None), CHECK, CHECK, Ends(Some(text))];
      exists rest :: QuotedThenIndexed(rest) && Breaks(t, d, EMPTY_LIBRARY, steps + rest)
  {
    hide Sections, Enabled, Next, Inv, Run, Stable, Breaks, HasChunks, Creator, NotBefore;
    var start, e := Start(0, 0, 0, 1, u, 0), Ends(Some(text));
    Uploaded(t, d, u);
    var lib1 := Next(t, d, EMPTY_LIBRARY, start);
    Ended(t, d, lib1, u, None);
    var lib2 := Next(t, d, lib1, Ends(None));
    Checked(t, d, lib2, u);
    var lib3 := Next(t, d, lib2, CHECK);
    Checked(t, d, lib3, u);
    var lib4 := Next(t, d, lib3, CHECK);
    Ended(t, d, lib4, u, Some(text));
    var q, _ := Endings(t, d, Next(t, d, lib4, e), u, text);
    BreaksLater(t, d, lib4, e, q);
    TwoMore(t, d, lib2, CHECK, CHECK, [e] + q);
    TwoMore(t, d, EMPTY_LIBRARY, start, Ends(None), [CHECK, CHECK] + ([e] + q));
    assert [start, Ends(None)] + ([CHECK, CHECK] + ([e] + q)) == [start, Ends(None), CHECK, CHECK, e] + q;
  }
}
