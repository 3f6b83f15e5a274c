/** The document table and the service operations that change it: upload
    (one document per student and type, re-uploading replaces the file and
    sends it back to review), the two review updates, deletion with its
    guards, and lookup by id. */
module DocumentStore {
  import opened Common
  import opened Documents

  const NO_DOCUMENTS := "No documents provided for upload."
  const DOCUMENT_NOT_FOUND := "Document not found"
  const DELETE_NOT_FOUND := "Document not found."
  const CANNOT_DELETE_VERIFIED := "Cannot delete verified documents."
  const DELETED := "Document deleted successfully"

  /** An uploaded file's metadata; its bytes go to file storage, which hands
      back the URL. */
  datatype DocumentUpload = DocumentUpload(fileName: string, mimeType: string, fileSize: int, docType: string)

  /** The two outcomes an administrator can give. */
  datatype Review = Verify | Reject

  function ReviewStatus(review: Review): string
  {
    match review
    case Verify => VERIFIED
    case Reject => REJECTED
  }

  predicate UniqueIds(table: seq<Document>)
  {
    forall i, j :: 0 <= i < j < |table| ==> table[i].id != table[j].id
  }

  predicate IdsBelow(table: seq<Document>, bound: nat)
  {
    forall i :: 0 <= i < |table| ==> table[i].id < bound
  }

  predicate Matches(d: Document, studentId: nat, docType: string)
  {
    d.studentId == studentId && d.docType == docType
  }

  /** `findFirst` by student and type: the first matching row in table order. */
  function FindFirst(table: seq<Document>, studentId: nat, docType: string): (r: Option<nat>)
    ensures r.Some? ==> r.value < |table| && Matches(table[r.value], studentId, docType)
    ensures r.Some? ==> forall j :: 0 <= j < r.value ==> !Matches(table[j], studentId, docType)
    ensures r.None? <==> forall j :: 0 <= j < |table| ==> !Matches(table[j], studentId, docType)
    decreases |table|
  {
    if |table| == 0 then None
    else if Matches(table[0], studentId, docType) then Some(0)
    else
      var rest := FindFirst(table[1..], studentId, docType);
      assert forall j :: 1 <= j < |table| ==> table[1..][j - 1] == table[j];
      if rest.None? then None else Some(rest.value + 1)
  }

  /** The position of the row with the given id. */
  function IndexOfId(table: seq<Document>, id: nat): (r: Option<nat>)
    ensures r.Some? ==> r.value < |table| && table[r.value].id == id
    ensures r.None? <==> forall j :: 0 <= j < |table| ==> table[j].id != id
    decreases |table|
  {
    if |table| == 0 then None
    else if table[0].id == id then Some(0)
    else
      var rest := IndexOfId(table[1..], id);
      assert forall j :: 1 <= j < |table| ==> table[1..][j - 1] == table[j];
      if rest.None? then None else Some(rest.value + 1)
  }

  /** `getDocumentById`: the row with that id, restricted to the given student
      when one is given (a student id of 0 counts as not given). */
  function DocumentById(table: seq<Document>, docId: nat, studentId: Option<nat>): (r: Result<Document, string>)
    requires UniqueIds(table)
    ensures r.Success? ==> r.value in table && r.value.id == docId
    ensures r.Success? && studentId.Some? && studentId.value != 0 ==> r.value.studentId == studentId.value
    ensures r.Failure? ==> r.error == DOCUMENT_NOT_FOUND
    ensures r.Failure? <==> forall j :: 0 <= j < |table| && table[j].id == docId ==>
                              studentId.Some? && studentId.value != 0 && table[j].studentId != studentId.value
  {
    match IndexOfId(table, docId)
    case None => Failure(DOCUMENT_NOT_FOUND)
    case Some(k) =>
      if studentId.Some? && studentId.value != 0 && table[k].studentId != studentId.value
      then Failure(DOCUMENT_NOT_FOUND)
      else Success(table[k])
  }

  // ---------------------------------------------------------------- upload

  /** A re-upload replaces the file and sends the document back to review;
      an earlier rejection reason and verification date stay on the row. */
  function Reupload(d: Document, u: DocumentUpload, url: string, now: string): (e: Document)
    ensures e.id == d.id && Matches(e, d.studentId, d.docType) && e.status == PENDING
    ensures e.rejectionReason == d.rejectionReason && e.verifiedAt == d.verifiedAt
  {
    d.(fileName := u.fileName, mimeType := u.mimeType, fileSize := u.fileSize, fileUrl := url,
       status := PENDING, uploadedAt := now)
  }

  function Created(id: nat, studentId: nat, u: DocumentUpload, url: string, now: string): Document
  {
    Document(id, studentId, u.fileName, u.mimeType, u.fileSize, url, u.docType, PENDING, None, None, now)
  }

  /** The table, the next free id and the documents written so far. */
  datatype UploadState = UploadState(table: seq<Document>, nextId: nat, written: seq<Document>)

  /** Rows that were in the table when the upload began keep their place,
      id, student and type. */
  predicate Agrees(snapshot: seq<Document>, table: seq<Document>)
  {
    |snapshot| <= |table|
    && forall k :: 0 <= k < |snapshot| ==>
         table[k].id == snapshot[k].id && Matches(table[k], snapshot[k].studentId, snapshot[k].docType)
  }

  /** Every upload looks its type up in the table as it stood when the call
      began, then updates the row it found or creates a new one. */
  function UploadStep(snapshot: seq<Document>, st: UploadState, studentId: nat,
                      u: DocumentUpload, url: string, now: string): (r: UploadState)
    requires Agrees(snapshot, st.table)
    ensures Agrees(snapshot, r.table) && |st.table| <= |r.table| && |r.written| == |st.written| + 1
  {
    match FindFirst(snapshot, studentId, u.docType)
    case Some(k) =>
      var d := Reupload(st.table[k], u, url, now);
      UploadState(st.table[k := d], st.nextId, st.written + [d])
    case None =>
      var d := Created(st.nextId, studentId, u, url, now);
      UploadState(st.table + [d], st.nextId + 1, st.written + [d])
  }

  /** The document written for an upload: pending, of its type, for the
      student, pointing at its file. */
  predicate Answers(d: Document, studentId: nat, u: DocumentUpload, url: string)
  {
    Matches(d, studentId, u.docType) && d.status == PENDING && d.fileUrl == url && d.fileName == u.fileName
  }

  lemma StepWritten(snapshot: seq<Document>, st: UploadState, studentId: nat,
                    u: DocumentUpload, url: string, now: string)
    requires Agrees(snapshot, st.table)
    ensures var r := UploadStep(snapshot, st, studentId, u, url, now);
            var d := r.written[|st.written|];
            r.written == st.written + [d] && Answers(d, studentId, u, url)
            && d in r.table
  {
    var r := UploadStep(snapshot, st, studentId, u, url, now);
    match FindFirst(snapshot, studentId, u.docType)
    case Some(k) =>
      assert r.table[k] == r.written[|st.written|];
    case None =>
      assert r.table[|st.table|] == r.written[|st.written|];
  }

  /** A row an upload changes keeps its id, student and type and is pending
      afterwards; a row of another student or type is not touched. */
  lemma StepRows(snapshot: seq<Document>, st: UploadState, studentId: nat,
                 u: DocumentUpload, url: string, now: string, k: nat)
    requires Agrees(snapshot, st.table) && k < |st.table|
    ensures var r := UploadStep(snapshot, st, studentId, u, url, now);
            && (!Matches(st.table[k], studentId, u.docType) ==> r.table[k] == st.table[k])
            && (r.table[k] == st.table[k]
                || (r.table[k].id == st.table[k].id && Matches(r.table[k], st.table[k].studentId, st.table[k].docType)
                    && r.table[k].status == PENDING))
  {
  }

  /** Ids stay unique and below the counter. */
  lemma StepIds(snapshot: seq<Document>, st: UploadState, studentId: nat,
                u: DocumentUpload, url: string, now: string)
    requires Agrees(snapshot, st.table)
    requires UniqueIds(st.table) && IdsBelow(st.table, st.nextId)
    ensures var r := UploadStep(snapshot, st, studentId, u, url, now);
            UniqueIds(r.table) && IdsBelow(r.table, r.nextId) && st.nextId <= r.nextId
  {
  }

  /** `uploadDocuments` on a non-empty list: the uploads applied in order;
      the rows that were there keep their place, id, student and type. */
  function UploadAll(snapshot: seq<Document>, nextId: nat, studentId: nat,
                     uploads: seq<DocumentUpload>, urls: seq<string>, now: string): (st: UploadState)
    requires |urls| == |uploads|
    ensures Agrees(snapshot, st.table) && |st.written| == |uploads|
    decreases |uploads|
  {
    if |uploads| == 0 then UploadState(snapshot, nextId, [])
    else
      var n := |uploads| - 1;
      var p := UploadAll(snapshot, nextId, studentId, uploads[..n], urls[..n], now);
      UploadStep(snapshot, p, studentId, uploads[n], urls[n], now)
  }

  lemma UploadAllStep(snapshot: seq<Document>, nextId: nat, studentId: nat,
                      uploads: seq<DocumentUpload>, urls: seq<string>, now: string, i: nat)
    requires |urls| == |uploads| && i < |uploads|
    ensures UploadAll(snapshot, nextId, studentId, uploads[..i + 1], urls[..i + 1], now)
            == UploadStep(snapshot, UploadAll(snapshot, nextId, studentId, uploads[..i], urls[..i], now),
                          studentId, uploads[i], urls[i], now)
  {
    assert uploads[..i + 1][..i] == uploads[..i];
    assert urls[..i + 1][..i] == urls[..i];
  }

  /** Each upload is answered, in order, by a pending document of its type,
      for the student, pointing at its file. */
  lemma {:induction false} UploadAllWritten(snapshot: seq<Document>, nextId: nat, studentId: nat,
                                             uploads: seq<DocumentUpload>, urls: seq<string>, now: string)
    requires |urls| == |uploads|
    ensures var w := UploadAll(snapshot, nextId, studentId, uploads, urls, now).written;
            forall i :: 0 <= i < |uploads| ==> Answers(w[i], studentId, uploads[i], urls[i])
    decreases |uploads|
  {
    if |uploads| > 0 {
      var n := |uploads| - 1;
      var p := UploadAll(snapshot, nextId, studentId, uploads[..n], urls[..n], now);
      UploadAllWritten(snapshot, nextId, studentId, uploads[..n], urls[..n], now);
      StepWritten(snapshot, p, studentId, uploads[n], urls[n], now);
      var w := UploadAll(snapshot, nextId, studentId, uploads, urls, now).written;
      assert w[..n] == p.written;
      forall i | 0 <= i < n ensures Answers(w[i], studentId, uploads[i], urls[i]) {
        assert w[i] == p.written[i] && uploads[..n][i] == uploads[i] && urls[..n][i] == urls[i];
      }
    }
  }

  /** Upload keeps ids unique: new rows take fresh ids in increasing order. */
  lemma {:induction false} UploadAllIds(snapshot: seq<Document>, nextId: nat, studentId: nat,
                                         uploads: seq<DocumentUpload>, urls: seq<string>, now: string)
    requires |urls| == |uploads|
    requires UniqueIds(snapshot) && IdsBelow(snapshot, nextId)
    ensures var st := UploadAll(snapshot, nextId, studentId, uploads, urls, now);
            UniqueIds(st.table) && IdsBelow(st.table, st.nextId) && nextId <= st.nextId
    decreases |uploads|
  {
    if |uploads| > 0 {
      var n := |uploads| - 1;
      var p := UploadAll(snapshot, nextId, studentId, uploads[..n], urls[..n], now);
      UploadAllIds(snapshot, nextId, studentId, uploads[..n], urls[..n], now);
      StepIds(snapshot, p, studentId, uploads[n], urls[n], now);
    }
  }

  /** The number of uploads whose type the student had no row of when the
      call began; each of them creates a row. */
  function NewUploads(snapshot: seq<Document>, studentId: nat, uploads: seq<DocumentUpload>): (n: nat)
    ensures n <= |uploads|
    decreases |uploads|
  {
    if |uploads| == 0 then 0
    else
      var m := |uploads| - 1;
      NewUploads(snapshot, studentId, uploads[..m])
      + (if FindFirst(snapshot, studentId, uploads[m].docType).None? then 1 else 0)
  }

  /** The id of the row upload `i` writes: the student's existing row of
      that type, else the next fresh id after the rows created before it. */
  function RowFor(snapshot: seq<Document>, nextId: nat, studentId: nat, uploads: seq<DocumentUpload>, i: nat): nat
    requires i < |uploads|
  {
    match FindFirst(snapshot, studentId, uploads[i].docType)
    case Some(k) => snapshot[k].id
    case None => nextId + NewUploads(snapshot, studentId, uploads[..i])
  }

  /** The last upload of a call: the counter and the table grow by one
      exactly when its type was new, and its row is `RowFor`'s. */
  lemma UpsertStep(snapshot: seq<Document>, nextId: nat, studentId: nat,
                   uploads: seq<DocumentUpload>, urls: seq<string>, now: string, p: UploadState, st: UploadState)
    requires |urls| == |uploads| > 0
    requires p == UploadAll(snapshot, nextId, studentId, uploads[..|uploads| - 1], urls[..|uploads| - 1], now)
    requires st == UploadStep(snapshot, p, studentId, uploads[|uploads| - 1], urls[|uploads| - 1], now)
    requires p.nextId == nextId + NewUploads(snapshot, studentId, uploads[..|uploads| - 1])
    requires |p.table| == |snapshot| + NewUploads(snapshot, studentId, uploads[..|uploads| - 1])
    ensures st.nextId == nextId + NewUploads(snapshot, studentId, uploads)
    ensures |st.table| == |snapshot| + NewUploads(snapshot, studentId, uploads)
    ensures st.written == p.written + [st.written[|p.written|]]
    ensures st.written[|p.written|].id == RowFor(snapshot, nextId, studentId, uploads, |uploads| - 1)
  {
  }

  /** The counter and the table grow by the number of new-type uploads. */
  lemma {:induction false} UploadAllCounts(snapshot: seq<Document>, nextId: nat, studentId: nat,
                                            uploads: seq<DocumentUpload>, urls: seq<string>, now: string)
    requires |urls| == |uploads|
    ensures UploadAll(snapshot, nextId, studentId, uploads, urls, now).nextId
            == nextId + NewUploads(snapshot, studentId, uploads)
    ensures |UploadAll(snapshot, nextId, studentId, uploads, urls, now).table|
            == |snapshot| + NewUploads(snapshot, studentId, uploads)
    decreases |uploads|
  {
    if |uploads| == 0 {
      assert UploadAll(snapshot, nextId, studentId, uploads, urls, now).table == snapshot;
    } else {
      var n := |uploads| - 1;
      var p := UploadAll(snapshot, nextId, studentId, uploads[..n], urls[..n], now);
      var st := UploadStep(snapshot, p, studentId, uploads[n], urls[n], now);
      assert st == UploadAll(snapshot, nextId, studentId, uploads, urls, now);
      UploadAllCounts(snapshot, nextId, studentId, uploads[..n], urls[..n], now);
      UpsertStep(snapshot, nextId, studentId, uploads, urls, now, p, st);
    }
  }

  /** Upload `i`'s row does not depend on the uploads after it. */
  lemma RowForPrefix(snapshot: seq<Document>, nextId: nat, studentId: nat,
                     uploads: seq<DocumentUpload>, n: nat, i: nat)
    requires i < n <= |uploads|
    ensures RowFor(snapshot, nextId, studentId, uploads[..n], i) == RowFor(snapshot, nextId, studentId, uploads, i)
  {
    assert uploads[..n][i] == uploads[i];
    assert uploads[..n][..i] == uploads[..i];
  }

  /** Rows written for a prefix, followed by the last upload's row, are the
      rows written for the whole list. */
  lemma RowsExtend(snapshot: seq<Document>, nextId: nat, studentId: nat,
                   uploads: seq<DocumentUpload>, before: seq<Document>, after: seq<Document>)
    requires |uploads| > 0 && |before| == |uploads| - 1
    requires forall i :: 0 <= i < |before| ==>
               before[i].id == RowFor(snapshot, nextId, studentId, uploads[..|before|], i)
    requires |after| == |uploads| && after[..|before|] == before
    requires after[|before|].id == RowFor(snapshot, nextId, studentId, uploads, |before|)
    ensures forall i :: 0 <= i < |uploads| ==> after[i].id == RowFor(snapshot, nextId, studentId, uploads, i)
  {
    forall i | 0 <= i < |before| ensures after[i].id == RowFor(snapshot, nextId, studentId, uploads, i) {
      assert after[i] == before[i];
      RowForPrefix(snapshot, nextId, studentId, uploads, |before|, i);
    }
  }

  /** Every upload writes the row `RowFor` names. */
  lemma {:induction false} UploadAllRows(snapshot: seq<Document>, nextId: nat, studentId: nat,
                                          uploads: seq<DocumentUpload>, urls: seq<string>, now: string)
    requires |urls| == |uploads|
    ensures var st := UploadAll(snapshot, nextId, studentId, uploads, urls, now);
            forall i :: 0 <= i < |uploads| ==> st.written[i].id == RowFor(snapshot, nextId, studentId, uploads, i)
    decreases |uploads|
  {
    if |uploads| > 0 {
      var n := |uploads| - 1;
      var p := UploadAll(snapshot, nextId, studentId, uploads[..n], urls[..n], now);
      var st := UploadStep(snapshot, p, studentId, uploads[n], urls[n], now);
      assert st == UploadAll(snapshot, nextId, studentId, uploads, urls, now);
      UploadAllRows(snapshot, nextId, studentId, uploads[..n], urls[..n], now);
      UploadAllCounts(snapshot, nextId, studentId, uploads[..n], urls[..n], now);
      UpsertStep(snapshot, nextId, studentId, uploads, urls, now, p, st);
      RowsExtend(snapshot, nextId, studentId, uploads, p.written, st.written);
    }
  }

  /** Upload is an upsert: an upload whose type the student already had
      rewrites that row, keeping its id; any other upload appends a row
      with a fresh id. The table grows by the number of such appends. */
  lemma UploadAllUpserts(snapshot: seq<Document>, nextId: nat, studentId: nat,
                         uploads: seq<DocumentUpload>, urls: seq<string>, now: string)
    requires |urls| == |uploads|
    ensures var st := UploadAll(snapshot, nextId, studentId, uploads, urls, now);
            && st.nextId == nextId + NewUploads(snapshot, studentId, uploads)
            && |st.table| == |snapshot| + NewUploads(snapshot, studentId, uploads)
            && forall i :: 0 <= i < |uploads| ==> st.written[i].id == RowFor(snapshot, nextId, studentId, uploads, i)
  {
    UploadAllCounts(snapshot, nextId, studentId, uploads, urls, now);
    UploadAllRows(snapshot, nextId, studentId, uploads, urls, now);
  }

  /** Only the student's rows of an uploaded type can change; the rows of
      other students and of other types are left as they were. */
  lemma {:induction false} UploadAllFrame(snapshot: seq<Document>, nextId: nat, studentId: nat,
                                           uploads: seq<DocumentUpload>, urls: seq<string>, now: string, k: nat)
    requires |urls| == |uploads| && k < |snapshot|
    requires snapshot[k].studentId != studentId || forall i :: 0 <= i < |uploads| ==> uploads[i].docType != snapshot[k].docType
    ensures UploadAll(snapshot, nextId, studentId, uploads, urls, now).table[k] == snapshot[k]
    decreases |uploads|
  {
    if |uploads| > 0 {
      var n := |uploads| - 1;
      var p := UploadAll(snapshot, nextId, studentId, uploads[..n], urls[..n], now);
      assert forall i :: 0 <= i < n ==> uploads[..n][i] == uploads[i];
      UploadAllFrame(snapshot, nextId, studentId, uploads[..n], urls[..n], now, k);
      StepRows(snapshot, p, studentId, uploads[n], urls[n], now, k);
    }
  }

  /** The student has a document of this type waiting for review. */
  ghost predicate HasPending(table: seq<Document>, studentId: nat, docType: string)
  {
    exists k :: 0 <= k < |table| && Matches(table[k], studentId, docType) && table[k].status == PENDING
  }

  lemma StepPending(snapshot: seq<Document>, st: UploadState, studentId: nat,
                    u: DocumentUpload, url: string, now: string, docType: string)
    requires Agrees(snapshot, st.table)
    requires HasPending(st.table, studentId, docType) || docType == u.docType
    ensures HasPending(UploadStep(snapshot, st, studentId, u, url, now).table, studentId, docType)
  {
    var r := UploadStep(snapshot, st, studentId, u, url, now);
    if docType == u.docType {
      StepWritten(snapshot, st, studentId, u, url, now);
      var d := r.written[|st.written|];
      var k :| 0 <= k < |r.table| && r.table[k] == d;
      assert Matches(r.table[k], studentId, docType) && r.table[k].status == PENDING;
    } else {
      var k :| 0 <= k < |st.table| && Matches(st.table[k], studentId, docType) && st.table[k].status == PENDING;
      StepRows(snapshot, st, studentId, u, url, now, k);
      assert Matches(r.table[k], studentId, docType) && r.table[k].status == PENDING;
    }
  }

  /** After an upload the student has, for every uploaded type, a document
      of that type waiting for review. */
  lemma {:induction false} UploadAllCovers(snapshot: seq<Document>, nextId: nat, studentId: nat,
                                            uploads: seq<DocumentUpload>, urls: seq<string>, now: string)
    requires |urls| == |uploads|
    ensures forall i :: 0 <= i < |uploads| ==>
              HasPending(UploadAll(snapshot, nextId, studentId, uploads, urls, now).table, studentId, uploads[i].docType)
    decreases |uploads|
  {
    if |uploads| > 0 {
      var n := |uploads| - 1;
      var p := UploadAll(snapshot, nextId, studentId, uploads[..n], urls[..n], now);
      UploadAllCovers(snapshot, nextId, studentId, uploads[..n], urls[..n], now);
      forall i | 0 <= i < |uploads|
        ensures HasPending(UploadAll(snapshot, nextId, studentId, uploads, urls, now).table, studentId, uploads[i].docType)
      {
        if i < n {
          assert uploads[..n][i] == uploads[i];
        }
        StepPending(snapshot, p, studentId, uploads[n], urls[n], now, uploads[i].docType);
      }
    }
  }

  // ---------------------------------------------------------------- review

  /** `updateDocumentStatus` on one row: the new status, the reason only for a
      rejection that gives a non-empty one, the verification date only for a
      verification; nothing else changes. */
  function ApplyReview(d: Document, review: Review, reason: Option<string>, now: string): (e: Document)
    ensures e.status == ReviewStatus(review)
    ensures review == Verify ==> e.verifiedAt == Some(now)
    ensures review == Reject ==> e.verifiedAt == d.verifiedAt
    ensures review == Reject && reason.Some? && reason.value != "" ==> e.rejectionReason == reason
    ensures (review == Verify || reason.None? || reason == Some("")) ==> e.rejectionReason == d.rejectionReason
    ensures e.(status := d.status, rejectionReason := d.rejectionReason, verifiedAt := d.verifiedAt) == d
  {
    var withReason := if review == Reject && reason.Some? && reason.value != "" then reason else d.rejectionReason;
    var stamped := if review == Verify then Some(now) else d.verifiedAt;
    d.(status := ReviewStatus(review), rejectionReason := withReason, verifiedAt := stamped)
  }

  /** `updateDocumentStatusByType` on one row: like a review, but it never
      stamps a verification date. */
  function ApplyReviewByType(d: Document, review: Review, reason: Option<string>): (e: Document)
    ensures e.status == ReviewStatus(review)
    ensures review == Reject && reason.Some? && reason.value != "" ==> e.rejectionReason == reason
    ensures (review == Verify || reason.None? || reason == Some("")) ==> e.rejectionReason == d.rejectionReason
    ensures e.(status := d.status, rejectionReason := d.rejectionReason) == d
  {
    d.(status := ReviewStatus(review),
       rejectionReason := if review == Reject && reason.Some? && reason.value != "" then reason else d.rejectionReason)
  }

  // ---------------------------------------------------------------- deletion

  datatype Receipt = Receipt(message: string, documentId: nat)

  function RemoveAt(table: seq<Document>, k: nat): (r: seq<Document>)
    requires k < |table|
    ensures |r| == |table| - 1
  {
    table[..k] + table[k + 1..]
  }

  /** Removing the row of an id drops exactly that document. */
  lemma RemoveAtDropsOne(table: seq<Document>, k: nat, bound: nat)
    requires k < |table| && UniqueIds(table) && IdsBelow(table, bound)
    ensures UniqueIds(RemoveAt(table, k)) && IdsBelow(RemoveAt(table, k), bound)
    ensures forall d :: d in RemoveAt(table, k) <==> d in table && d.id != table[k].id
  {
    var r := RemoveAt(table, k);
    assert forall j :: 0 <= j < |r| ==> r[j] == if j < k then table[j] else table[j + 1];
    forall d | d in table && d.id != table[k].id ensures d in r {
      var j :| 0 <= j < |table| && table[j] == d;
      if j < k { assert r[j] == d; } else { assert j > k; assert r[j - 1] == d; }
    }
  }

  /** What `deleteDocument` answers, the table it leaves, and the public id
      of the stored file it destroys. */
  datatype Deletion = Deletion(result: Result<Receipt, string>, table: seq<Document>, destroyed: Option<string>)

  /** `deleteDocument`: a missing or verified document is refused; otherwise
      the row is removed, and the stored file is destroyed when the row has
      a URL. */
  function Delete(table: seq<Document>, docId: nat): Deletion
  {
    match IndexOfId(table, docId)
    case None => Deletion(Failure(DELETE_NOT_FOUND), table, None)
    case Some(k) =>
      if table[k].status == VERIFIED then Deletion(Failure(CANNOT_DELETE_VERIFIED), table, None)
      else
        var destroyed := if table[k].fileUrl != "" then Some(PublicId(table[k].fileUrl)) else None;
        Deletion(Success(Receipt(DELETED, docId)), RemoveAt(table, k), destroyed)
  }

  /** The guards: "not found" exactly when no row has the id, "verified"
      exactly when that row is verified; a refused deletion changes nothing. */
  lemma DeleteGuards(table: seq<Document>, docId: nat)
    requires UniqueIds(table)
    ensures var o := Delete(table, docId);
            && (o.result == Failure(DELETE_NOT_FOUND) <==> forall j :: 0 <= j < |table| ==> table[j].id != docId)
            && (o.result == Failure(CANNOT_DELETE_VERIFIED) <==>
                  exists j :: 0 <= j < |table| && table[j].id == docId && table[j].status == VERIFIED)
            && (o.result.Failure? ==> o.table == table && o.destroyed == None)
  {
    assert DELETE_NOT_FOUND[0] != CANNOT_DELETE_VERIFIED[0];
  }

  /** An accepted deletion drops exactly the document with that id;
      verified documents always survive, and ids stay unique and below the
      next id. */
  lemma DeleteRemoves(table: seq<Document>, docId: nat, bound: nat)
    requires UniqueIds(table) && IdsBelow(table, bound)
    ensures var o := Delete(table, docId);
            && (o.result.Success? ==>
                  o.result.value == Receipt(DELETED, docId) && forall d :: d in o.table <==> d in table && d.id != docId)
            && (forall d :: d in table && d.status == VERIFIED ==> d in o.table)
            && UniqueIds(o.table) && IdsBelow(o.table, bound)
  {
    match IndexOfId(table, docId)
    case None =>
    case Some(k) =>
      if table[k].status != VERIFIED {
        RemoveAtDropsOne(table, k, bound);
      }
  }

  /** The public id destroyed is that of the removed row's URL. */
  lemma DeleteDestroys(table: seq<Document>, docId: nat, k: nat)
    requires k < |table| && table[k].id == docId && UniqueIds(table)
    requires table[k].status != VERIFIED
    ensures Delete(table, docId).destroyed == if table[k].fileUrl == "" then None else Some(PublicId(table[k].fileUrl))
  {
    var f := IndexOfId(table, docId).value;
    assert f == k;
  }

  // ---------------------------------------------------------------- the table

  class DocumentTable {
    var documents: seq<Document>
    var nextId: nat

    ghost predicate Valid()
      reads this
    {
      UniqueIds(documents) && IdsBelow(documents, nextId)
    }

    constructor ()
      ensures Valid() && documents == [] && nextId == 1
    {
      documents := [];
      nextId := 1;
    }

    /** `uploadDocuments`. The file bytes are stored elsewhere; `urls[i]` is
        the secure URL storage returned for `uploads[i]`. */
    method UploadDocuments(studentId: nat, uploads: seq<DocumentUpload>, urls: seq<string>, now: string)
      returns (r: Result<seq<Document>, string>)
      requires Valid() && |urls| == |uploads|
      modifies this
      ensures Valid()
      ensures |uploads| == 0 ==> r == Failure(NO_DOCUMENTS) && documents == old(documents) && nextId == old(nextId)
      ensures |uploads| > 0 ==>
                var st := UploadAll(old(documents), old(nextId), studentId, uploads, urls, now);
                r == Success(st.written) && documents == st.table && nextId == st.nextId
    {
      if |uploads| == 0 {
        return Failure(NO_DOCUMENTS);
      }
      var snapshot := documents;
      ghost var firstId := nextId;
      var written: seq<Document> := [];
      var i := 0;
      while i < |uploads|
        invariant 0 <= i <= |uploads|
        invariant UploadAll(snapshot, firstId, studentId, uploads[..i], urls[..i], now) == UploadState(documents, nextId, written)
      {
        UploadAllStep(snapshot, firstId, studentId, uploads, urls, now, i);
        var u := uploads[i];
        var existingDoc := FindFirst(snapshot, studentId, u.docType);
        var d;
        if existingDoc.Some? {
          var k := existingDoc.value;
          d := Reupload(documents[k], u, urls[i], now);
          documents := documents[k := d];
        } else {
          d := Created(nextId, studentId, u, urls[i], now);
          documents := documents + [d];
          nextId := nextId + 1;
        }
        written := written + [d];
        i := i + 1;
      }
      assert uploads[..|uploads|] == uploads && urls[..|urls|] == urls;
      UploadAllIds(snapshot, firstId, studentId, uploads, urls, now);
      r := Success(written);
    }

    /** `updateDocumentStatus`. */
    method UpdateDocumentStatus(docId: nat, review: Review, reason: Option<string>, now: string)
      returns (r: Result<Document, string>)
      requires Valid()
      modifies this
      ensures Valid() && nextId == old(nextId)
      ensures match IndexOfId(old(documents), docId)
              case None => r == Failure(RECORD_TO_UPDATE_NOT_FOUND) && documents == old(documents)
              case Some(k) =>
                var e := ApplyReview(old(documents)[k], review, reason, now);
                r == Success(e) && documents == old(documents)[k := e]
    {
      var found := IndexOfId(documents, docId);
      if found.None? {
        return Failure(RECORD_TO_UPDATE_NOT_FOUND);
      }
      var k := found.value;
      var e := ApplyReview(documents[k], review, reason, now);
      documents := documents[k := e];
      r := Success(e);
    }

    /** `updateDocumentStatusByType`: the student's first document of that type. */
    method UpdateDocumentStatusByType(studentId: nat, docType: string, review: Review, reason: Option<string>)
      returns (r: Result<Document, string>)
      requires Valid()
      modifies this
      ensures Valid() && nextId == old(nextId)
      ensures match FindFirst(old(documents), studentId, docType)
              case None => r == Failure(DOCUMENT_NOT_FOUND) && documents == old(documents)
              case Some(k) =>
                var e := ApplyReviewByType(old(documents)[k], review, reason);
                r == Success(e) && documents == old(documents)[k := e]
    {
      var found := FindFirst(documents, studentId, docType);
      if found.None? {
        return Failure(DOCUMENT_NOT_FOUND);
      }
      var k := found.value;
      var e := ApplyReviewByType(documents[k], review, reason);
      documents := documents[k := e];
      r := Success(e);
    }

    /** `deleteDocument`. */
    method DeleteDocument(docId: nat) returns (r: Result<Receipt, string>, destroyed: Option<string>)
      requires Valid()
      modifies this
      ensures Valid() && nextId == old(nextId)
      ensures Deletion(r, documents, destroyed) == Delete(old(documents), docId)
    {
      DeleteRemoves(documents, docId, nextId);
      var found := IndexOfId(documents, docId);
      if found.None? {
        return Failure(DELETE_NOT_FOUND), None;
      }
      var k := found.value;
      var document := documents[k];
      if document.status == VERIFIED {
        return Failure(CANNOT_DELETE_VERIFIED), None;
      }
      destroyed := None;
      if document.fileUrl != "" {
        destroyed := Some(PublicId(document.fileUrl));
      }
      documents := RemoveAt(documents, k);
      r := Success(Receipt(DELETED, docId));
    }
  }
}
