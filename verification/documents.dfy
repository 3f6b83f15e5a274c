/** The document rules of the document service that do not touch the
    table: which uploaded types the review screen shows and under which
    name, the three-valued verification flag, the per-student overview and
    its overall status, the counts of the statistics view, and the storage
    public id derived from a file URL. */
module Documents {
  import opened Common

  /** A row of the document table. Dates are opaque strings. */
  datatype Document = Document(
    id: nat,
    studentId: nat,
    fileName: string,
    mimeType: string,
    fileSize: int,
    fileUrl: string,
    docType: string,
    status: string,
    rejectionReason: Option<string>,
    verifiedAt: Option<string>,
    uploadedAt: string)

  const PENDING := "pending"
  const VERIFIED := "verified"
  const REJECTED := "rejected"

  // ---------------------------------------------------------------- mapping and flags

  /** `mapDocumentType`: the three stored types the review screen knows, under
      their screen names; every other type is dropped. */
  function MapDocumentType(dbType: string): (r: Option<string>)
    ensures r.Some? <==> dbType == "passport photo" || dbType == "fee receipt" || dbType == "hall dues"
    ensures r.Some? ==> r.value in {"passportPhoto", "schoolFeesReceipt", "accommodationReceipt"}
  {
    if dbType == "passport photo" then Some("passportPhoto")
    else if dbType == "fee receipt" then Some("schoolFeesReceipt")
    else if dbType == "hall dues" then Some("accommodationReceipt")
    else None
  }

  /** Distinct stored types never share a screen slot. */
  lemma MapDocumentTypeInjective(a: string, b: string)
    requires MapDocumentType(a).Some? && MapDocumentType(a) == MapDocumentType(b)
    ensures a == b
  {
    assert "passportPhoto"[0] != "schoolFeesReceipt"[0] && "passportPhoto"[0] != "accommodationReceipt"[0];
    assert "schoolFeesReceipt"[0] != "accommodationReceipt"[0];
  }

  /** The three-valued flag: `true` for a verified document, `false` for a
      rejected one, `null` for every other status. */
  function VerifiedFlag(status: string): (v: Option<bool>)
    ensures v == Some(true) <==> status == VERIFIED
    ensures v == Some(false) <==> status == REJECTED
    ensures v == None <==> status != VERIFIED && status != REJECTED
  {
    if status == VERIFIED then Some(true)
    else if status == REJECTED then Some(false)
    else None
  }

  /** One slot of the overview: where the file is and how it was reviewed. */
  datatype DocEntry = DocEntry(url: string, verified: Option<bool>)

  function EntryOf(d: Document): DocEntry
  {
    DocEntry(d.fileUrl, VerifiedFlag(d.status))
  }

  // ---------------------------------------------------------------- documents by type

  /** The overview a left-to-right scan builds: each known document is
      written under its screen name, a later one overwriting an earlier. */
  function ByType(docs: seq<Document>): map<string, DocEntry>
    decreases |docs|
  {
    if |docs| == 0 then map[]
    else
      var n := |docs| - 1;
      var p := ByType(docs[..n]);
      match MapDocumentType(docs[n].docType)
      case Some(t) => p[t := EntryOf(docs[n])]
      case None => p
  }

  lemma ByTypeStep(docs: seq<Document>, i: nat)
    requires i < |docs|
    ensures ByType(docs[..i + 1])
            == match MapDocumentType(docs[i].docType)
               case Some(t) => ByType(docs[..i])[t := EntryOf(docs[i])]
               case None => ByType(docs[..i])
  {
    assert docs[..i + 1][..i] == docs[..i];
  }

  /** Some document of the list is filed under screen name `t`. */
  ghost predicate HasType(docs: seq<Document>, t: string)
  {
    exists i :: 0 <= i < |docs| && MapDocumentType(docs[i].docType) == Some(t)
  }

  /** The overview has a slot exactly for the screen names of the list's
      documents. */
  lemma {:induction false} ByTypeKeys(docs: seq<Document>)
    ensures forall t :: t in ByType(docs) <==> HasType(docs, t)
    decreases |docs|
  {
    if |docs| > 0 {
      var n := |docs| - 1;
      ByTypeKeys(docs[..n]);
      forall t ensures t in ByType(docs) <==> HasType(docs, t) {
        if HasType(docs[..n], t) {
          var i :| 0 <= i < n && MapDocumentType(docs[..n][i].docType) == Some(t);
          assert docs[..n][i] == docs[i];
        }
        if HasType(docs, t) && MapDocumentType(docs[n].docType) != Some(t) {
          var i :| 0 <= i < |docs| && MapDocumentType(docs[i].docType) == Some(t);
          assert docs[..n][i] == docs[i];
        }
      }
    }
  }

  /** A slot holds the last document of its type. */
  lemma {:induction false} ByTypeLast(docs: seq<Document>, i: nat)
    requires i < |docs| && MapDocumentType(docs[i].docType).Some?
    requires forall j :: i < j < |docs| ==> MapDocumentType(docs[j].docType) != MapDocumentType(docs[i].docType)
    ensures MapDocumentType(docs[i].docType).value in ByType(docs)
    ensures ByType(docs)[MapDocumentType(docs[i].docType).value] == EntryOf(docs[i])
    decreases |docs|
  {
    var n := |docs| - 1;
    var t := MapDocumentType(docs[i].docType).value;
    if i < n {
      assert forall j :: i < j < n ==> docs[..n][j] == docs[j];
      ByTypeLast(docs[..n], i);
      assert docs[..n][i] == docs[i];
    }
  }

  /** `documentsByType`, filled by the `forEach` over a student's documents. */
  method DocumentsByType(docs: seq<Document>) returns (byType: map<string, DocEntry>)
    ensures byType == ByType(docs)
  {
    byType := map[];
    var i := 0;
    while i < |docs|
      invariant 0 <= i <= |docs|
      invariant byType == ByType(docs[..i])
    {
      var doc := docs[i];
      var mappedType := MapDocumentType(doc.docType);
      ByTypeStep(docs, i);
      if mappedType.Some? {
        var verified := VerifiedFlag(doc.status);
        byType := byType[mappedType.value := DocEntry(doc.fileUrl, verified)];
      }
      i := i + 1;
    }
    assert docs[..|docs|] == docs;
  }

  // ---------------------------------------------------------------- overall status

  predicate AllVerified(m: map<string, DocEntry>)
  {
    m.Keys != {} && forall t :: t in m ==> m[t].verified == Some(true)
  }

  predicate AnyRejected(m: map<string, DocEntry>)
  {
    exists t :: t in m && m[t].verified == Some(false)
  }

  /** `overallDocumentStatus`: verified when there is at least one slot and
      every slot is verified, else rejected when some slot is rejected, else
      pending. */
  function OverallStatus(m: map<string, DocEntry>): (s: string)
    ensures s in {VERIFIED, REJECTED, PENDING}
  {
    if AllVerified(m) then VERIFIED else if AnyRejected(m) then REJECTED else PENDING
  }

  /** A student with no document of a known type is pending. */
  lemma NoKnownDocumentsPending(docs: seq<Document>)
    requires forall i :: 0 <= i < |docs| ==> MapDocumentType(docs[i].docType).None?
    ensures OverallStatus(ByType(docs)) == PENDING
  {
    ByTypeKeys(docs);
    assert ByType(docs).Keys == {};
  }

  /** A student whose known documents are all verified, and who has one, is
      verified. */
  lemma AllKnownVerified(docs: seq<Document>)
    requires exists i :: 0 <= i < |docs| && MapDocumentType(docs[i].docType).Some?
    requires forall i :: 0 <= i < |docs| && MapDocumentType(docs[i].docType).Some? ==> docs[i].status == VERIFIED
    ensures OverallStatus(ByType(docs)) == VERIFIED
  {
    var m := ByType(docs);
    ByTypeKeys(docs);
    var i :| 0 <= i < |docs| && MapDocumentType(docs[i].docType).Some?;
    var t0 := MapDocumentType(docs[i].docType).value;
    assert HasType(docs, t0);
    assert t0 in m.Keys;
    forall t | t in m ensures m[t].verified == Some(true) {
      var j := LastOfType(docs, t);
      ByTypeLast(docs, j);
      assert docs[j].status == VERIFIED;
    }
    assert AllVerified(m);
  }

  /** The index of the last document filed under screen name `t`. */
  function LastOfType(docs: seq<Document>, t: string): (j: nat)
    requires HasType(docs, t)
    ensures j < |docs| && MapDocumentType(docs[j].docType) == Some(t)
    ensures forall k :: j < k < |docs| ==> MapDocumentType(docs[k].docType) != Some(t)
    decreases |docs|
  {
    var n := |docs| - 1;
    if MapDocumentType(docs[n].docType) == Some(t) then n
    else
      assert HasType(docs[..n], t) by {
        var i :| 0 <= i < |docs| && MapDocumentType(docs[i].docType) == Some(t);
        assert docs[..n][i] == docs[i];
      }
      var j := LastOfType(docs[..n], t);
      assert docs[..n][j] == docs[j];
      j
  }

  /** An overall verified status means the latest document of every known
      type the student has is verified. */
  lemma VerifiedMeansLatestVerified(docs: seq<Document>, i: nat)
    requires i < |docs| && MapDocumentType(docs[i].docType).Some?
    requires forall j :: i < j < |docs| ==> MapDocumentType(docs[j].docType) != MapDocumentType(docs[i].docType)
    requires OverallStatus(ByType(docs)) == VERIFIED
    ensures docs[i].status == VERIFIED
  {
    ByTypeLast(docs, i);
  }

  /** A rejected latest document of some known type makes the student rejected
      (a verified overall status would need every slot verified). */
  lemma LatestRejectedMeansRejected(docs: seq<Document>, i: nat)
    requires i < |docs| && MapDocumentType(docs[i].docType).Some?
    requires forall j :: i < j < |docs| ==> MapDocumentType(docs[j].docType) != MapDocumentType(docs[i].docType)
    requires docs[i].status == REJECTED
    ensures OverallStatus(ByType(docs)) == REJECTED
  {
    ByTypeLast(docs, i);
    var t := MapDocumentType(docs[i].docType).value;
    assert ByType(docs)[t].verified == Some(false);
  }

  // ---------------------------------------------------------------- review overview

  datatype StudentDocs = StudentDocs(
    id: nat, firstName: string, lastName: string, matricNumber: string,
    level: int, email: string, documents: seq<Document>)

  datatype PendingEntry = PendingEntry(
    id: string, firstName: string, lastName: string, matricNumber: string,
    level: int, email: string, submissionDate: string,
    documents: map<string, DocEntry>, overallDocumentStatus: string)

  /** The students that have at least one document, in order. */
  function WithDocuments(students: seq<StudentDocs>): (r: seq<StudentDocs>)
    ensures forall s :: s in r <==> s in students && |s.documents| > 0
    decreases |students|
  {
    if |students| == 0 then []
    else
      var rest := WithDocuments(students[1..]);
      assert forall s :: s in students <==> s == students[0] || s in students[1..];
      if |students[0].documents| > 0 then [students[0]] + rest else rest
  }

  /** One student of the overview; the submission date is that of the first
      document (a student listed here always has one). */
  function FormatStudent(s: StudentDocs): (e: PendingEntry)
    requires |s.documents| > 0
  {
    var byType := ByType(s.documents);
    PendingEntry(NatToString(s.id), s.firstName, s.lastName, s.matricNumber, s.level, s.email,
                 s.documents[0].uploadedAt, byType, OverallStatus(byType))
  }

  /** `getPendingDocuments`: every student with a document, each with the
      overview of their documents and its overall status. */
  function PendingDocuments(students: seq<StudentDocs>): (r: seq<PendingEntry>)
    ensures |r| == |WithDocuments(students)|
    ensures forall i :: 0 <= i < |r| ==>
              var s := WithDocuments(students)[i];
              s in students && |s.documents| > 0
              && r[i].documents == ByType(s.documents)
              && r[i].overallDocumentStatus == OverallStatus(r[i].documents)
              && r[i].submissionDate == s.documents[0].uploadedAt
  {
    var ws := WithDocuments(students);
    assert forall i :: 0 <= i < |ws| ==> ws[i] in ws;
    seq(|ws|, i requires 0 <= i < |ws| => FormatStudent(ws[i]))
  }

  // ---------------------------------------------------------------- statistics

  function CountStatus(table: seq<Document>, status: string): (n: nat)
    ensures n <= |table|
    decreases |table|
  {
    if |table| == 0 then 0
    else CountStatus(table[..|table| - 1], status) + (if table[|table| - 1].status == status then 1 else 0)
  }

  datatype DocumentStats = DocumentStats(total: nat, pending: nat, verified: nat, rejected: nat)

  /** `getDocumentStats`, without the file-size aggregates. */
  function Stats(table: seq<Document>): DocumentStats
  {
    DocumentStats(|table|, CountStatus(table, PENDING), CountStatus(table, VERIFIED), CountStatus(table, REJECTED))
  }

  predicate KnownStatus(d: Document)
  {
    d.status == PENDING || d.status == VERIFIED || d.status == REJECTED
  }

  /** The three status counts never exceed the total, and add up to it exactly
      when every document carries one of the three statuses. */
  lemma {:induction false} StatsAddUp(table: seq<Document>)
    ensures var s := Stats(table); s.pending + s.verified + s.rejected <= s.total
    ensures (forall i :: 0 <= i < |table| ==> KnownStatus(table[i]))
            <==> Stats(table).pending + Stats(table).verified + Stats(table).rejected == |table|
    decreases |table|
  {
    if |table| > 0 {
      var n := |table| - 1;
      StatsAddUp(table[..n]);
      assert forall i :: 0 <= i < n ==> table[..n][i] == table[i];
      assert PENDING[0] != VERIFIED[0] && PENDING[0] != REJECTED[0];
      assert VERIFIED[2] != REJECTED[2];
    }
  }

  // ---------------------------------------------------------------- storage public id

  /** The last two entries of a list (`slice(-2)`): all of it when shorter. */
  function LastTwo(parts: seq<string>): (r: seq<string>)
    ensures |r| == if |parts| < 2 then |parts| else 2
    ensures r == parts[|parts| - |r|..]
  {
    if |parts| <= 2 then parts else parts[|parts| - 2..]
  }

  /** A dot at `p` starts a file extension in the sense of `/\.[^/.]+$/`:
      at least one character follows it and none of them is '/' or '.'. */
  predicate ExtensionAt(s: string, p: int)
  {
    0 <= p < |s| - 1 && s[p] == '.' && forall j :: p < j < |s| ==> s[j] != '/' && s[j] != '.'
  }

  /** The position of the last '.', if any. */
  function LastDot(s: string): (r: Option<nat>)
    ensures r.Some? ==> r.value < |s| && s[r.value] == '.' && forall j :: r.value < j < |s| ==> s[j] != '.'
    ensures r.None? ==> forall j :: 0 <= j < |s| ==> s[j] != '.'
    decreases |s|
  {
    if |s| == 0 then None
    else if s[|s| - 1] == '.' then Some(|s| - 1)
    else
      var r := LastDot(s[..|s| - 1]);
      assert forall j :: 0 <= j < |s| - 1 ==> s[..|s| - 1][j] == s[j];
      r
  }

  /** `replace(/\.[^/.]+$/, "")`: the extension, if there is one, is cut off;
      otherwise the string is kept. */
  function StripExtension(s: string): (r: string)
    ensures forall p :: ExtensionAt(s, p) ==> r == s[..p]
    ensures (forall p :: !ExtensionAt(s, p)) ==> r == s
  {
    match LastDot(s)
    case Some(p) =>
      if p + 1 < |s| && forall j :: p < j < |s| ==> s[j] != '/' then
        assert ExtensionAt(s, p);
        s[..p]
      else s
    case None => s
  }

  /** The storage public id of a file URL: its last two '/'-separated
      segments, joined by '/', without the extension. */
  function PublicId(fileUrl: string): string
  {
    StripExtension(Join(LastTwo(Split(fileUrl, '/')), '/'))
  }

  /** The pieces of two strings joined by the separator are the pieces of the
      first followed by the pieces of the second. */
  lemma {:induction false} SplitConcat(a: string, b: string, sep: char)
    ensures Split(a + [sep] + b, sep) == Split(a, sep) + Split(b, sep)
    decreases |a|
  {
    var s := a + [sep] + b;
    if |a| == 0 {
      assert s == [sep] + b;
      assert s[1..] == b;
    } else {
      assert s[1..] == a[1..] + [sep] + b;
      SplitConcat(a[1..], b, sep);
    }
  }

  /** For a URL of the form `<anything>/<folder>/<name>.<ext>` the public id
      is `<folder>/<name>`. */
  lemma PublicIdOfStoredFile(prefix: string, folder: string, name: string, ext: string)
    requires '/' !in folder && '/' !in name && '/' !in ext
    requires '.' !in ext && |ext| > 0
    ensures PublicId(prefix + "/" + folder + "/" + name + "." + ext) == folder + "/" + name
  {
    var file := name + "." + ext;
    var url := prefix + "/" + folder + "/" + name + "." + ext;
    assert url == prefix + ['/'] + (folder + ['/'] + file);
    assert '/' !in file;
    SplitConcat(prefix, folder + ['/'] + file, '/');
    SplitPrefix(folder, '/', file);
    SplitNoSeparator(file, '/');
    var parts := Split(prefix, '/') + [folder, file];
    assert Split(url, '/') == parts;
    assert LastTwo(parts) == [folder, file];
    var joined := folder + ['/'] + file;
    assert Join([folder, file], '/') == joined;
    var p := |folder| + 1 + |name|;
    assert joined == (folder + "/" + name) + "." + ext;
    assert ExtensionAt(joined, p);
    assert joined[..p] == folder + "/" + name;
  }

  lemma CountCharPrefix(s: string, p: nat, c: char)
    requires p <= |s|
    ensures CountChar(s[..p], c) <= CountChar(s, c)
  {
    assert s == s[..p] + s[p..];
    CountCharAppend(s[..p], s[p..], c);
  }

  /** A public id holds at most one '/': folder and name. */
  lemma PublicIdOneSlash(fileUrl: string)
    ensures CountChar(PublicId(fileUrl), '/') <= 1
  {
    var parts := LastTwo(Split(fileUrl, '/'));
    var joined := Join(parts, '/');
    assert forall i :: 0 <= i < |parts| ==> '/' !in parts[i];
    if |parts| == 1 {
      NoSlashNoCount(parts[0]);
    } else {
      assert |parts| == 2;
      assert parts[1..] == [parts[1]];
      assert Join(parts[1..], '/') == parts[1];
      assert joined == parts[0] + ['/'] + parts[1];
      CountCharAppend(parts[0] + ['/'], parts[1], '/');
      CountCharAppend(parts[0], ['/'], '/');
      NoSlashNoCount(parts[0]);
      NoSlashNoCount(parts[1]);
    }
    match LastDot(joined)
    case Some(p) => CountCharPrefix(joined, p, '/');
    case None =>
  }

  lemma {:induction false} NoSlashNoCount(s: string)
    requires '/' !in s
    ensures CountChar(s, '/') == 0
    decreases |s|
  {
    if |s| > 0 {
      assert '/' !in s[1..];
      NoSlashNoCount(s[1..]);
    }
  }
}
