/** `documentController.js`: uploading a medical document to object storage with its
    record, and deleting both. */
module DocumentController {
  import opened Common
  import opened Text
  import opened ObjectKeys
  import opened Records
  import opened Store

  /** The `tags` field of a multipart body: absent (the destructuring default `[]` applies),
      repeated and so an array, or one text value. */
  datatype TagsField = NoTags | TagArray(items: seq<string>) | TagText(text: string)

  /** The body fields the upload reads. */
  datatype DocumentRequest = DocumentRequest(patientId: Option<Id>, category: Option<string>, tags: TagsField)

  /** The multipart file: the client's file name, its MIME type and its size in bytes. */
  datatype DocumentFile = DocumentFile(originalname: string, mimetype: string, size: int)

  const DocumentFolder: string := "documents"
  /** The destructuring default of `category`. */
  const DefaultCategory: string := "other"

  // ---------------------------------------------------------------------------
  // tags

  /** `.map(t => t.trim())`. */
  function TrimAll(xs: seq<string>): (ys: seq<string>)
    ensures |ys| == |xs|
    ensures forall k :: 0 <= k < |xs| ==> ys[k] == Trim(xs[k])
  {
    if |xs| == 0 then [] else [Trim(xs[0])] + TrimAll(xs[1..])
  }

  /** `.filter(Boolean)` on strings: every non-empty element, as often as it occurs, and
      no empty one. */
  function NonEmptyOnly(xs: seq<string>): (ys: seq<string>)
    ensures |ys| <= |xs|
    ensures forall k :: 0 <= k < |ys| ==> ys[k] != "" && ys[k] in xs
    ensures "" !in ys
    ensures multiset(ys) == multiset(xs)["" := 0]
    ensures (forall k :: 0 <= k < |xs| ==> xs[k] != "") ==> ys == xs
  {
    if |xs| == 0 then []
    else
      assert xs == [xs[0]] + xs[1..];
      if xs[0] == "" then NonEmptyOnly(xs[1..])
      else [xs[0]] + NonEmptyOnly(xs[1..])
  }

  /** The controller's expression for `tags`: an array is kept, a non-empty text is split on
      commas with each piece trimmed and the empty pieces dropped, anything else is `[]`. */
  function ParsedTags(f: TagsField): seq<string>
  {
    match f
    case NoTags => []
    case TagArray(items) => items
    case TagText(t) => if t == "" then [] else NonEmptyOnly(TrimAll(Split(t, ',')))
  }

  /** The tags as stored: the schema's `trim: true` trims each element on assignment. */
  function StoredTags(f: TagsField): (tags: seq<string>)
    ensures |tags| == |ParsedTags(f)|
    ensures forall k :: 0 <= k < |tags| ==> Trim(tags[k]) == tags[k]
  {
    TrimAllTrimmed(ParsedTags(f));
    TrimAll(ParsedTags(f))
  }

  /** Every element of a trimmed list is its own trim. */
  lemma TrimAllTrimmed(xs: seq<string>)
    ensures forall k :: 0 <= k < |xs| ==> Trim(TrimAll(xs)[k]) == TrimAll(xs)[k]
  {
    forall k | 0 <= k < |xs| {
      TrimIdempotent(xs[k]);
    }
  }

  /** A character absent from a string is absent from its trimmed form. */
  lemma TrimKeepsOut(s: string, c: char)
    requires c !in s
    ensures c !in Trim(s)
  {
    TrimInfix(s);
  }

  /** A list of strings that are their own trims is its own `TrimAll`. */
  lemma TrimAllFixed(xs: seq<string>)
    requires forall k :: 0 <= k < |xs| ==> Trim(xs[k]) == xs[k]
    ensures TrimAll(xs) == xs
  {
  }

  /** Trimmed comma-free pieces are their own trims and stay free of commas. */
  lemma TrimmedPiecesNormal(pieces: seq<string>)
    requires forall k :: 0 <= k < |pieces| ==> ',' !in pieces[k]
    ensures forall k :: 0 <= k < |pieces| ==> Trim(TrimAll(pieces)[k]) == TrimAll(pieces)[k] && ',' !in TrimAll(pieces)[k]
  {
    forall k | 0 <= k < |pieces|
      ensures Trim(Trim(pieces[k])) == Trim(pieces[k]) && ',' !in Trim(pieces[k])
    {
      TrimIdempotent(pieces[k]);
      TrimKeepsOut(pieces[k], ',');
    }
  }

  /** Dropping the empty strings from a list of trimmed comma-free strings leaves non-empty,
      trimmed, comma-free strings. */
  lemma NonEmptyOnlyNormal(xs: seq<string>)
    requires forall k :: 0 <= k < |xs| ==> Trim(xs[k]) == xs[k] && ',' !in xs[k]
    ensures forall k :: 0 <= k < |NonEmptyOnly(xs)| ==>
      NonEmptyOnly(xs)[k] != "" && Trim(NonEmptyOnly(xs)[k]) == NonEmptyOnly(xs)[k] && ',' !in NonEmptyOnly(xs)[k]
  {
    var ys := NonEmptyOnly(xs);
    forall k | 0 <= k < |ys|
      ensures ys[k] != "" && Trim(ys[k]) == ys[k] && ',' !in ys[k]
    {
      assert ys[k] in xs;
      var j :| 0 <= j < |xs| && xs[j] == ys[k];
    }
  }

  /** Tags parsed from non-empty text are non-empty, trimmed and free of commas. */
  lemma TextTagsNormal(t: string)
    requires t != ""
    ensures forall k :: 0 <= k < |ParsedTags(TagText(t))| ==>
      var tag := ParsedTags(TagText(t))[k];
      tag != "" && Trim(tag) == tag && ',' !in tag
  {
    var pieces := Split(t, ',');
    SplitPiecesFree(t, ',');
    TrimmedPiecesNormal(pieces);
    NonEmptyOnlyNormal(TrimAll(pieces));
    assert ParsedTags(TagText(t)) == NonEmptyOnly(TrimAll(pieces));
  }

  /** Tags parsed from text are non-empty, trimmed and free of commas, and the schema's trim
      then leaves them as they are; array tags keep their number and order and are only
      trimmed. */
  lemma TagsNormalised(f: TagsField)
    ensures f.TagText? ==> forall k :: 0 <= k < |ParsedTags(f)| ==>
      ParsedTags(f)[k] != "" && Trim(ParsedTags(f)[k]) == ParsedTags(f)[k] && ',' !in ParsedTags(f)[k]
    ensures f.TagText? ==> StoredTags(f) == ParsedTags(f)
    ensures f.TagArray? ==> StoredTags(f) == TrimAll(f.items)
    ensures f.NoTags? || (f.TagText? && f.text == "") ==> StoredTags(f) == []
  {
    if f.TagText? && f.text != "" {
      TextTagsNormal(f.text);
      TrimAllFixed(ParsedTags(f));
    }
  }

  /** A join starts with its first piece, so it is non-empty when that piece is. */
  lemma JoinNonEmpty(tags: seq<string>, sep: char)
    requires |tags| >= 1 && tags[0] != ""
    ensures Join(tags, sep) != ""
  {
    if |tags| > 1 {
      assert Join(tags, sep) == tags[0] + [sep] + Join(tags[1..], sep);
    }
  }

  /** Text joined from non-empty, trimmed, comma-free tags parses back to those tags. */
  lemma TagsRoundTrip(tags: seq<string>)
    requires |tags| >= 1
    requires forall k :: 0 <= k < |tags| ==> tags[k] != "" && Trim(tags[k]) == tags[k] && ',' !in tags[k]
    ensures ParsedTags(TagText(Join(tags, ','))) == tags
  {
    var text := Join(tags, ',');
    JoinNonEmpty(tags, ',');
    SplitJoin(tags, ',');
    TrimAllFixed(tags);
    assert ParsedTags(TagText(text)) == NonEmptyOnly(TrimAll(tags));
  }

  // ---------------------------------------------------------------------------
  // uploadDocument

  /** `documents/<patientId>/<now>_<originalname>`. */
  function DocumentKey(patientId: Id, now: nat, file: DocumentFile): string
  {
    StorageKey(DocumentFolder, patientId, now, file.originalname)
  }

  /** The record `uploadDocument` builds for an upload by `caller` at instant `now`. */
  function NewDocument(r: DocumentRequest, file: DocumentFile, caller: Id, now: nat): Document
    requires Truthy(r.patientId)
  {
    var key := DocumentKey(r.patientId.value, now, file);
    Document(r.patientId.value, caller, file.originalname, LastSegment(key, '/'), key, file.size,
             file.mimetype, if r.category.Some? then r.category.value else DefaultCategory,
             StoredTags(r.tags))
  }

  /** The new record points at the uploaded key; its file name is the key's last segment,
      which is `<now>_<originalname>` when neither the patient id nor the client's name
      holds a slash; the category defaults to `other`; the tags are normalised. */
  lemma NewDocumentFields(r: DocumentRequest, file: DocumentFile, caller: Id, now: nat)
    requires Truthy(r.patientId)
    ensures NewDocument(r, file, caller, now).fileUrl == DocumentKey(r.patientId.value, now, file)
    ensures '/' !in r.patientId.value && '/' !in file.originalname ==>
      NewDocument(r, file, caller, now).fileName == FileStamp(now, file.originalname)
    ensures r.category.None? ==> NewDocument(r, file, caller, now).category == DefaultCategory
    ensures r.category.Some? ==> NewDocument(r, file, caller, now).category == r.category.value
    ensures NewDocument(r, file, caller, now).patient == r.patientId.value
    ensures NewDocument(r, file, caller, now).uploadedBy == caller
    ensures NewDocument(r, file, caller, now).tags == StoredTags(r.tags)
  {
    if '/' !in r.patientId.value && '/' !in file.originalname {
      KeyParts(DocumentFolder, r.patientId.value, now, file.originalname);
    }
  }

  const FileRequired: Reply := Reply(400, "file required")
  const PatientIdRequired: Reply := Reply(400, "patientId required")
  /** The 201 reply carries the document and no message. */
  const DocumentUploaded: Reply := Reply(201, "")
  const DocumentNotFound: Reply := Reply(404, "Document not found")
  const DocumentDeleted: Reply := Reply(200, "Document deleted")
  const ServerError: Reply := Reply(500, "Server error")

  /** `uploadDocument` with `storageService` imported, as the lab order controller imports
      it: a file and a patient id are required before anything is written; the file then
      goes to the bucket and the record is saved. A failed save is answered
      500 and leaves the uploaded object in the bucket. */
  method UploadDocument(db: Db, file: Option<DocumentFile>, r: DocumentRequest, caller: Id, now: nat, newId: Id)
    returns (reply: Reply)
    requires newId !in db.documents
    modifies db`documents, db`blobs
    ensures file.None? ==>
      reply == FileRequired && db.documents == old(db.documents) && db.blobs == old(db.blobs)
    ensures file.Some? && !Truthy(r.patientId) ==>
      reply == PatientIdRequired && db.documents == old(db.documents) && db.blobs == old(db.blobs)
    ensures file.Some? && Truthy(r.patientId) ==>
      db.blobs == old(db.blobs) + {DocumentKey(r.patientId.value, now, file.value)}
    ensures file.Some? && Truthy(r.patientId) && !DocumentSaveable(NewDocument(r, file.value, caller, now)) ==>
      reply == ServerError && db.documents == old(db.documents)
    ensures file.Some? && Truthy(r.patientId) && DocumentSaveable(NewDocument(r, file.value, caller, now)) ==>
      reply == DocumentUploaded && db.documents == old(db.documents)[newId := NewDocument(r, file.value, caller, now)]
  {
    if file.None? {
      return FileRequired;
    }
    if !Truthy(r.patientId) {
      return PatientIdRequired;
    }
    db.blobs := db.blobs + {DocumentKey(r.patientId.value, now, file.value)};
    var d := NewDocument(r, file.value, caller, now);
    if !DocumentSaveable(d) {
      return ServerError;
    }
    db.documents := db.documents[newId := d];
    reply := DocumentUploaded;
  }

  /** `uploadDocument` as written: `storageService` is never imported, so past the two
      checks the call at line 13 throws a `ReferenceError`, the catch answers 500, and
      neither an object nor a record is stored. */
  method UploadDocumentAsWritten(db: Db, file: Option<DocumentFile>, r: DocumentRequest) returns (reply: Reply)
    ensures file.None? ==> reply == FileRequired
    ensures file.Some? && !Truthy(r.patientId) ==> reply == PatientIdRequired
    ensures file.Some? && Truthy(r.patientId) ==> reply == ServerError
  {
    if file.None? {
      return FileRequired;
    }
    if !Truthy(r.patientId) {
      return PatientIdRequired;
    }
    reply := ServerError;
  }

  const SampleRequest: DocumentRequest := DocumentRequest(Some("p1"), None, NoTags)
  const SampleFile: DocumentFile := DocumentFile("scan.pdf", "application/pdf", 1024)

  /** A PDF uploaded for patient `p1` builds a record `save` accepts, so `UploadDocument`
      answers 201 and stores it, where the code as written answers 500. */
  lemma UploadAsWrittenLosesSaveableUpload(caller: Id, now: nat)
    requires caller != ""
    ensures DocumentSaveable(NewDocument(SampleRequest, SampleFile, caller, now))
  {
    NewDocumentFields(SampleRequest, SampleFile, caller, now);
    var key := DocumentKey("p1", now, SampleFile);
    assert key[0] == 'd';
    assert FileStamp(now, SampleFile.originalname)[|Decimal(now)|] == '_';
  }

  // ---------------------------------------------------------------------------
  // deleteDocument

  /** `deleteDocument` with `storageService` imported: an unknown id is 404; otherwise the
      object is removed from the bucket and then the record from the collection. */
  method DeleteDocument(db: Db, id: Id) returns (reply: Reply)
    modifies db`documents, db`blobs
    ensures id !in old(db.documents) ==>
      reply == DocumentNotFound && db.documents == old(db.documents) && db.blobs == old(db.blobs)
    ensures id in old(db.documents) ==>
      reply == DocumentDeleted
      && db.blobs == old(db.blobs) - {old(db.documents)[id].fileUrl}
      && db.documents == old(db.documents) - {id}
  {
    if id !in db.documents {
      return DocumentNotFound;
    }
    db.blobs := db.blobs - {db.documents[id].fileUrl};
    db.documents := db.documents - {id};
    reply := DocumentDeleted;
  }

  /** `deleteDocument` as written: past the lookup, the undefined `storageService` at line 69
      throws inside the transaction, which aborts; the catch answers 500 and nothing is
      removed. */
  method DeleteDocumentAsWritten(db: Db, id: Id) returns (reply: Reply)
    ensures id !in db.documents ==> reply == DocumentNotFound
    ensures id in db.documents ==> reply == ServerError
  {
    if id !in db.documents {
      return DocumentNotFound;
    }
    reply := ServerError;
  }

  // ---------------------------------------------------------------------------
  // the record-to-object invariant

  /** Every stored document's object is in the bucket. */
  predicate BlobsBacked(docs: map<Id, Document>, blobs: set<string>)
  {
    forall id :: id in docs ==> docs[id].fileUrl in blobs
  }

  /** No two stored documents share an object. */
  predicate UrlsDistinct(docs: map<Id, Document>)
  {
    forall i, j :: i in docs && j in docs && i != j ==> docs[i].fileUrl != docs[j].fileUrl
  }

  /** Every outcome of an upload keeps each record backed by its object, and a key not yet
      in the bucket keeps the objects unshared. */
  lemma UploadKeepsBlobsBacked(docs: map<Id, Document>, blobs: set<string>, d: Document, newId: Id)
    requires BlobsBacked(docs, blobs)
    ensures BlobsBacked(docs, blobs + {d.fileUrl})
    ensures BlobsBacked(docs[newId := d], blobs + {d.fileUrl})
    ensures UrlsDistinct(docs) && newId !in docs && d.fileUrl !in blobs ==> UrlsDistinct(docs[newId := d])
  {
  }

  /** Deleting a document whose object no other record shares keeps every remaining record
      backed; a second record on the same key would lose its object. */
  lemma DeleteKeepsBlobsBacked(docs: map<Id, Document>, blobs: set<string>, id: Id)
    requires BlobsBacked(docs, blobs) && UrlsDistinct(docs) && id in docs
    ensures BlobsBacked(docs - {id}, blobs - {docs[id].fileUrl})
    ensures UrlsDistinct(docs - {id})
  {
  }

  /** Separate uploads for different patients, or at different instants, never share a key,
      when the ids and file names hold no slash. */
  lemma UploadKeysDistinct(p1: Id, t1: nat, f1: DocumentFile, p2: Id, t2: nat, f2: DocumentFile)
    requires '/' !in p1 && '/' !in p2 && '/' !in f1.originalname && '/' !in f2.originalname
    requires p1 != p2 || t1 != t2
    ensures DocumentKey(p1, t1, f1) != DocumentKey(p2, t2, f2)
  {
    KeysDistinct(DocumentFolder, p1, t1, f1.originalname, p2, t2, f2.originalname);
  }
}
