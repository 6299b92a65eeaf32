/** POST /api/invoices/upload: the loop over the uploaded files. Multipart
    parsing and the bytes themselves are abstracted to a name and a size per
    file; each file's share of the environment (uuids, random draws, clock
    readings, whether writing the bytes succeeds) is supplied up front. */
module UploadRoute {
  import opened Invoices
  import opened Text
  import opened Storage
  import opened Seqs

  datatype UploadFile = UploadFile(name: string, size: int)

  /** What the environment answers while one file is handled: uuidv4() for
      the stored file name, uuidv4() inside create, the two draws of
      generateMockData, new Date() at creation and when processing starts,
      and whether writeFile completes. */
  datatype FileEnv = FileEnv(
    storageId: string,
    recordId: Id,
    nameDraw: RandomDraw,
    amountDraw: RandomDraw,
    uploadTime: int,
    startTime: int,
    writeOk: bool)

  datatype UploadResponse =
    | Ok(invoiceIds: seq<Id>, message: string)
    | Err(status: int, message: string)

  /** file.name.toLowerCase().endsWith('.pdf') */
  predicate IsPdfName(name: string)
  {
    EndsWith(Lower(name), ".pdf")
  }

  /** path.extname of a name that ends in ".pdf" in any case: those four
      characters as written, unless they are the whole last path segment
      (a leading dot starts no extension). */
  function PdfExtName(name: string): (ext: string)
    requires IsPdfName(name)
    ensures ext == "" || (EndsWith(name, ext) && Lower(ext) == ".pdf")
    ensures ext == "" <==> |name| == 4 || name[|name| - 5] == '/'
  {
    if |name| == 4 || name[|name| - 5] == '/' then "" else name[|name| - 4..]
  }

  /** The uuids create() will return are all different and name no stored record. */
  ghost predicate FreshRecordIds(env: seq<FileEnv>, stored: set<Id>)
  {
    (forall i :: 0 <= i < |env| ==> env[i].recordId !in stored) &&
    (forall i, j :: 0 <= i < j < |env| ==> env[i].recordId != env[j].recordId)
  }

  /** The record create() receives for an accepted file, with its id. */
  function Created(f: UploadFile, e: FileEnv): (r: Invoice)
    requires IsPdfName(f.name)
  {
    var mock := GenerateMockData(e.nameDraw, e.amountDraw);
    WithId(InvoiceData(f.name, f.size, mock.clientName, mock.amount, e.uploadTime, Pending,
                       e.storageId + PdfExtName(f.name), None, None),
           e.recordId)
  }

  /** The same record once simulateProcessing has made its synchronous update. */
  function Started(f: UploadFile, e: FileEnv): (r: Invoice)
    requires IsPdfName(f.name)
  {
    Merge(Created(f, e), StartUpdate(e.startTime))
  }

  /** A new record keeps the uploaded name, is Pending, has no timestamps, and
      its stored file is the fresh uuid followed by the original extension. */
  lemma CreatedRecord(f: UploadFile, e: FileEnv)
    requires IsPdfName(f.name)
    ensures var r := Created(f, e);
      r.id == e.recordId && r.fileName == f.name && r.fileSize == f.size &&
      r.status == Pending && Lifecycle(r) &&
      r.filePath == e.storageId + PdfExtName(f.name) &&
      r.clientName in ClientNames && 500 <= r.amount <= 10499
  {
  }

  /** What the loop has done after some files: the records it created, each
      already started, and whether a write failed (which ends the loop). */
  datatype Intake = Intake(records: seq<Invoice>, writeFailed: bool)

  ghost function IntakeOf(files: seq<UploadFile>, env: seq<FileEnv>): (r: Intake)
    requires |files| == |env|
  {
    if files == [] then Intake([], false)
    else
      var n := |files| - 1;
      var prev := IntakeOf(files[..n], env[..n]);
      if prev.writeFailed || !IsPdfName(files[n].name) then prev
      else if !env[n].writeOk then Intake(prev.records, true)
      else Intake(prev.records + [Started(files[n], env[n])], false)
  }

  function Ids(recs: seq<Invoice>): (ids: seq<Id>)
    ensures |ids| == |recs|
    ensures forall k :: 0 <= k < |recs| ==> ids[k] == recs[k].id
  {
    if recs == [] then [] else Ids(recs[..|recs| - 1]) + [recs[|recs| - 1].id]
  }

  ghost function RecordMap(recs: seq<Invoice>): (r: map<Id, Invoice>)
  {
    if recs == [] then map[]
    else RecordMap(recs[..|recs| - 1])[recs[|recs| - 1].id := recs[|recs| - 1]]
  }

  /** The success message with the number of records created. */
  function SuccessMessage(count: nat): (r: string)
  {
    "Successfully uploaded " + NatToString(count) + " invoice(s)"
  }

  /** The message tells the count: different counts give different messages. */
  lemma SuccessMessageInjective(m: nat, n: nat)
    requires SuccessMessage(m) == SuccessMessage(n)
    ensures m == n
  {
    var pre := "Successfully uploaded ";
    var post := " invoice(s)";
    var a := SuccessMessage(m);
    assert NatToString(m) == a[|pre|..|a| - |post|];
    assert NatToString(n) == a[|pre|..|a| - |post|];
    NatToStringInjective(m, n);
  }

  /** The response the route sends. */
  ghost function Response(files: seq<UploadFile>, env: seq<FileEnv>): (r: UploadResponse)
    requires |files| == |env|
  {
    if |files| == 0 then Err(400, "No files provided")
    else
      var t := IntakeOf(files, env);
      if t.writeFailed then Err(500, "Failed to upload files")
      else Ok(Ids(t.records), SuccessMessage(|t.records|))
  }

  /** Every record the intake holds is the started record of some PDF-named
      file whose bytes were written. */
  lemma {:induction false} IntakeRecordsFromFiles(files: seq<UploadFile>, env: seq<FileEnv>, k: int)
    requires |files| == |env|
    requires 0 <= k < |IntakeOf(files, env).records|
    ensures exists j :: (0 <= j < |files| && IsPdfName(files[j].name) && env[j].writeOk &&
                         IntakeOf(files, env).records[k] == Started(files[j], env[j]))
  {
    var n := |files| - 1;
    var prev := IntakeOf(files[..n], env[..n]);
    var cur := IntakeOf(files, env);
    assert cur.records == prev.records ||
      (IsPdfName(files[n].name) && env[n].writeOk && cur.records == prev.records + [Started(files[n], env[n])]);
    if k < |prev.records| {
      IntakeRecordsFromFiles(files[..n], env[..n], k);
      var j :| 0 <= j < n && IsPdfName(files[..n][j].name) && env[..n][j].writeOk &&
        prev.records[k] == Started(files[..n][j], env[..n][j]);
      assert files[..n][j] == files[j] && env[..n][j] == env[j];
      assert cur.records[k] == prev.records[k];
    }
  }

  /** A started record is Processing since its start time, and otherwise the
      record create() received. */
  lemma StartedRecord(f: UploadFile, e: FileEnv)
    requires IsPdfName(f.name)
    ensures var r := Started(f, e);
      r == Created(f, e).(status := Processing, processingStartTime := Some(e.startTime)) &&
      Advances(Created(f, e).status, r.status) && Lifecycle(r)
  {
    StartStep(Created(f, e), e.startTime);
  }

  /** So every record the route leaves behind is Processing, with its
      timestamps consistent, and came from a PDF-named file. */
  lemma IntakeRecordsProcessing(files: seq<UploadFile>, env: seq<FileEnv>, k: int)
    requires |files| == |env|
    requires 0 <= k < |IntakeOf(files, env).records|
    ensures var r := IntakeOf(files, env).records[k];
      r.status == Processing && Lifecycle(r) && IsPdfName(r.fileName)
  {
    IntakeRecordsFromFiles(files, env, k);
    var j :| 0 <= j < |files| && IsPdfName(files[j].name) && env[j].writeOk &&
      IntakeOf(files, env).records[k] == Started(files[j], env[j]);
    StartedRecord(files[j], env[j]);
  }

  /** `IsPdfName` lifted to an uploaded file, as a function value `Filter`
      can take. */
  predicate IsPdfFile(f: UploadFile)
  {
    IsPdfName(f.name)
  }

  /** When every PDF-named file is written, there is one record per PDF-named
      file, in the order of the files: the other files are skipped and
      nothing else. */
  lemma {:induction false} IntakeAllWritten(files: seq<UploadFile>, env: seq<FileEnv>)
    requires |files| == |env|
    requires forall i :: 0 <= i < |env| && IsPdfName(files[i].name) ==> env[i].writeOk
    ensures !IntakeOf(files, env).writeFailed
    ensures |IntakeOf(files, env).records| == |Filter(files, IsPdfFile)|
    ensures forall k :: 0 <= k < |IntakeOf(files, env).records| ==>
      IntakeOf(files, env).records[k].fileName == Filter(files, IsPdfFile)[k].name
  {
    if files != [] {
      var n := |files| - 1;
      forall i | 0 <= i < n && IsPdfName(files[..n][i].name) ensures env[..n][i].writeOk {
        assert files[..n][i] == files[i] && env[..n][i] == env[i];
      }
      IntakeAllWritten(files[..n], env[..n]);
      var prev := IntakeOf(files[..n], env[..n]).records;
      var kept := Filter(files[..n], IsPdfFile);
      FilterSnoc(files, IsPdfFile);
      if IsPdfName(files[n].name) {
        assert Filter(files, IsPdfFile) == kept + [files[n]];
        assert IntakeOf(files, env).records == prev + [Started(files[n], env[n])];
      } else {
        assert Filter(files, IsPdfFile) == kept;
      }
    }
  }

  /** The intake fails exactly when some PDF-named file's bytes cannot be written. */
  lemma IntakeFailsIff(files: seq<UploadFile>, env: seq<FileEnv>)
    requires |files| == |env|
    ensures IntakeOf(files, env).writeFailed <==>
      exists i :: 0 <= i < |files| && IsPdfName(files[i].name) && !env[i].writeOk
  {
    if IntakeOf(files, env).writeFailed {
      FailedWriteExists(files, env);
    }
    if exists i :: 0 <= i < |files| && IsPdfName(files[i].name) && !env[i].writeOk {
      var i :| 0 <= i < |files| && IsPdfName(files[i].name) && !env[i].writeOk;
      FailedWriteFails(files, env, i);
    }
  }

  /** A failed intake names a PDF-named file whose write failed. */
  lemma {:induction false} FailedWriteExists(files: seq<UploadFile>, env: seq<FileEnv>)
    requires |files| == |env|
    requires IntakeOf(files, env).writeFailed
    ensures exists i :: 0 <= i < |files| && IsPdfName(files[i].name) && !env[i].writeOk
  {
    var n := |files| - 1;
    if IntakeOf(files[..n], env[..n]).writeFailed {
      FailedWriteExists(files[..n], env[..n]);
      var i :| 0 <= i < n && IsPdfName(files[..n][i].name) && !env[..n][i].writeOk;
      assert files[..n][i] == files[i] && env[..n][i] == env[i];
    } else {
      assert IsPdfName(files[n].name) && !env[n].writeOk;
    }
  }

  /** One PDF-named file whose write fails makes the whole intake fail. */
  lemma FailedWriteFails(files: seq<UploadFile>, env: seq<FileEnv>, i: int)
    requires |files| == |env| && 0 <= i < |files|
    requires IsPdfName(files[i].name) && !env[i].writeOk
    ensures IntakeOf(files, env).writeFailed
  {
    if IntakeOf(files[..i], env[..i]).writeFailed {
      IntakeFailureSticks(files, env, i);
    } else {
      IntakeStopsAt(files, env, i);
    }
  }

  /** The three outcomes of the route: 400 exactly when no file came, 500
      exactly when some PDF-named file could not be written, and otherwise
      one id per PDF-named file, in order, with the count in the message. */
  lemma ResponseCases(files: seq<UploadFile>, env: seq<FileEnv>)
    requires |files| == |env|
    ensures Response(files, env) == Err(400, "No files provided") <==> files == []
    ensures Response(files, env) == Err(500, "Failed to upload files") <==>
      files != [] && exists i :: 0 <= i < |files| && IsPdfName(files[i].name) && !env[i].writeOk
    ensures Response(files, env).Ok? ==>
      |Response(files, env).invoiceIds| == |Filter(files, IsPdfFile)| &&
      Response(files, env).message == SuccessMessage(|Response(files, env).invoiceIds|)
  {
    IntakeFailsIff(files, env);
    if Response(files, env).Ok? {
      IntakeAllWritten(files, env);
    }
  }

  /** The route, as written: 400 for no files, otherwise create and start a
      record per PDF-named file in order, 500 if a write fails. */
  method Post(store: InvoiceStore, files: seq<UploadFile>, env: seq<FileEnv>) returns (res: UploadResponse)
    requires store.Valid()
    requires |env| == |files|
    requires FreshRecordIds(env, store.invoices.Keys)
    modifies store
    ensures store.Valid()
    ensures res == Response(files, env)
    ensures store.invoices == old(store.invoices) + RecordMap(IntakeOf(files, env).records)
    ensures store.order == old(store.order) + Ids(IntakeOf(files, env).records)
  {
    if |files| == 0 {
      return Err(400, "No files provided");
    }
    var failed, invoiceIds := IntakeLoop(store, files, env);
    if failed {
      return Err(500, "Failed to upload files");
    }
    res := Ok(invoiceIds, SuccessMessage(|invoiceIds|));
  }

  /** The `for` loop of the route. A failed write throws out of the loop to
      the route's catch; `failed` reports that. */
  method IntakeLoop(store: InvoiceStore, files: seq<UploadFile>, env: seq<FileEnv>)
    returns (failed: bool, invoiceIds: seq<Id>)
    requires store.Valid()
    requires |env| == |files|
    requires FreshRecordIds(env, store.invoices.Keys)
    modifies store
    ensures store.Valid()
    ensures failed == IntakeOf(files, env).writeFailed
    ensures invoiceIds == Ids(IntakeOf(files, env).records)
    ensures store.invoices == old(store.invoices) + RecordMap(IntakeOf(files, env).records)
    ensures store.order == old(store.order) + Ids(IntakeOf(files, env).records)
  {
    ghost var stored := store.invoices;
    ghost var storedOrder := store.order;
    invoiceIds := [];
    ghost var created: seq<Invoice> := [];
    var i := 0;
    while i < |files|
      invariant 0 <= i <= |files|
      invariant store.Valid()
      invariant IntakeOf(files[..i], env[..i]) == Intake(created, false)
      invariant invoiceIds == Ids(created)
      invariant store.invoices == stored + RecordMap(created)
      invariant store.order == storedOrder + Ids(created)
    {
      var stop, accepted := HandleFile(store, files, env, i, created, stored, storedOrder);
      if stop {
        return true, invoiceIds;
      }
      if accepted.Some? {
        invoiceIds := invoiceIds + [accepted.value];
      }
      created := IntakeOf(files[..i + 1], env[..i + 1]).records;
      i := i + 1;
    }
    assert files[..|files|] == files && env[..|env|] == env;
    failed := false;
  }

  /** One pass of the loop body, for file `i`: skip a name that is not a
      PDF's, stop at a failed write, and otherwise create and start the
      record and hand back its id. */
  method HandleFile(store: InvoiceStore, files: seq<UploadFile>, env: seq<FileEnv>, i: int,
                    ghost created: seq<Invoice>, ghost stored: map<Id, Invoice>, ghost storedOrder: seq<Id>)
    returns (stop: bool, accepted: Option<Id>)
    requires store.Valid()
    requires |env| == |files| && 0 <= i < |files|
    requires FreshRecordIds(env, stored.Keys)
    requires IntakeOf(files[..i], env[..i]) == Intake(created, false)
    requires store.invoices == stored + RecordMap(created)
    requires store.order == storedOrder + Ids(created)
    modifies store
    ensures store.Valid()
    ensures stop ==> IntakeOf(files, env) == Intake(created, true) && unchanged(store)
    ensures !stop ==> !IntakeOf(files[..i + 1], env[..i + 1]).writeFailed
    ensures !stop ==>
      Ids(IntakeOf(files[..i + 1], env[..i + 1]).records) ==
      Ids(created) + (if accepted.Some? then [accepted.value] else [])
    ensures !stop ==> store.invoices == stored + RecordMap(IntakeOf(files[..i + 1], env[..i + 1]).records)
    ensures !stop ==> store.order == storedOrder + Ids(IntakeOf(files[..i + 1], env[..i + 1]).records)
  {
    var file := files[i];
    if !IsPdfName(file.name) {
      IntakeSkip(files, env, i);
      return false, None;
    }
    var e := env[i];
    if !e.writeOk {
      IntakeStopsAt(files, env, i);
      return true, None;
    }
    FreshAt(files, env, i, created, stored.Keys);
    var id := AcceptFile(store, file, e);
    AcceptStep(files, env, i, created, stored, storedOrder);
    stop, accepted := false, Some(id);
  }

  /** A PDF whose write fails is where the intake ends, with the records
      created before it. */
  lemma {:induction false} IntakeStopsAt(files: seq<UploadFile>, env: seq<FileEnv>, i: int)
    requires |files| == |env| && 0 <= i < |files|
    requires IsPdfName(files[i].name) && !env[i].writeOk
    requires !IntakeOf(files[..i], env[..i]).writeFailed
    ensures IntakeOf(files, env) == Intake(IntakeOf(files[..i], env[..i]).records, true)
  {
    assert files[..i + 1][..i] == files[..i] && env[..i + 1][..i] == env[..i];
    assert files[..i + 1][i] == files[i] && env[..i + 1][i] == env[i];
    assert IntakeOf(files[..i + 1], env[..i + 1]) == Intake(IntakeOf(files[..i], env[..i]).records, true);
    IntakeFailureSticks(files, env, i + 1);
  }

  /** One accepted file: name the stored copy, fabricate the client data,
      create the Pending record and start its processing. */
  method AcceptFile(store: InvoiceStore, file: UploadFile, e: FileEnv) returns (id: Id)
    requires store.Valid()
    requires IsPdfName(file.name)
    requires e.recordId !in store.invoices
    modifies store
    ensures store.Valid()
    ensures id == e.recordId
    ensures store.invoices == old(store.invoices)[id := Started(file, e)]
    ensures store.order == old(store.order) + [id]
  {
    var uniqueFilename := e.storageId + PdfExtName(file.name);
    var mock := GenerateMockData(e.nameDraw, e.amountDraw);
    var invoice := store.Create(
      InvoiceData(file.name, file.size, mock.clientName, mock.amount, e.uploadTime, Pending,
                  uniqueFilename, None, None),
      e.recordId);
    assert invoice == Created(file, e);
    id := invoice.id;
    StartProcessing(store, id, e.startTime);
  }

  /** A file whose name does not end in ".pdf" adds nothing. */
  lemma IntakeSkip(files: seq<UploadFile>, env: seq<FileEnv>, i: int)
    requires |files| == |env| && 0 <= i < |files|
    requires !IsPdfName(files[i].name)
    ensures IntakeOf(files[..i + 1], env[..i + 1]) == IntakeOf(files[..i], env[..i])
  {
    assert files[..i + 1][..i] == files[..i] && env[..i + 1][..i] == env[..i];
  }

  /** A PDF whose bytes are written adds its started record at the end. */
  lemma IntakeAccept(files: seq<UploadFile>, env: seq<FileEnv>, i: int)
    requires |files| == |env| && 0 <= i < |files|
    requires IsPdfName(files[i].name) && env[i].writeOk
    requires !IntakeOf(files[..i], env[..i]).writeFailed
    ensures IntakeOf(files[..i + 1], env[..i + 1]) ==
      Intake(IntakeOf(files[..i], env[..i]).records + [Started(files[i], env[i])], false)
  {
    assert files[..i + 1][..i] == files[..i] && env[..i + 1][..i] == env[..i];
  }

  /** The loop state after accepting file `i`: its started record is added
      to the map under its id, and the id is appended to the list. */
  lemma AcceptStep(files: seq<UploadFile>, env: seq<FileEnv>, i: int, created: seq<Invoice>,
                   stored: map<Id, Invoice>, storedOrder: seq<Id>)
    requires |files| == |env| && 0 <= i < |files|
    requires IsPdfName(files[i].name) && env[i].writeOk
    requires IntakeOf(files[..i], env[..i]) == Intake(created, false)
    ensures var next := IntakeOf(files[..i + 1], env[..i + 1]);
      !next.writeFailed &&
      Ids(next.records) == Ids(created) + [env[i].recordId] &&
      stored + RecordMap(next.records) == (stored + RecordMap(created))[env[i].recordId := Started(files[i], env[i])] &&
      storedOrder + Ids(next.records) == (storedOrder + Ids(created)) + [env[i].recordId]
  {
    IntakeAccept(files, env, i);
    RecordStep(stored, created, Started(files[i], env[i]));
  }

  /** One more record in the map and in the id list. */
  lemma RecordStep(stored: map<Id, Invoice>, created: seq<Invoice>, r: Invoice)
    ensures stored + RecordMap(created + [r]) == (stored + RecordMap(created))[r.id := r]
    ensures Ids(created + [r]) == Ids(created) + [r.id]
  {
    assert (created + [r])[..|created|] == created;
  }

  /** Every key of the record map is the id of one of the records. */
  lemma {:induction false} RecordMapKeys(recs: seq<Invoice>, id: Id)
    requires id in RecordMap(recs)
    ensures exists k :: 0 <= k < |recs| && recs[k].id == id
  {
    var n := |recs| - 1;
    if id != recs[n].id {
      RecordMapKeys(recs[..n], id);
      var k :| 0 <= k < n && recs[..n][k].id == id;
      assert recs[k] == recs[..n][k];
    }
  }

  /** The id create() is about to return for file `i` is not yet stored. */
  lemma FreshAt(files: seq<UploadFile>, env: seq<FileEnv>, i: int, created: seq<Invoice>, stored: set<Id>)
    requires |files| == |env| && 0 <= i < |env|
    requires IntakeOf(files[..i], env[..i]).records == created
    requires FreshRecordIds(env, stored)
    ensures env[i].recordId !in stored + RecordMap(created).Keys
  {
    forall id | id in RecordMap(created) ensures id != env[i].recordId {
      RecordMapKeys(created, id);
      var k :| 0 <= k < |created| && created[k].id == id;
      IntakeRecordsFromFiles(files[..i], env[..i], k);
      var j :| 0 <= j < i && IsPdfName(files[..i][j].name) && env[..i][j].writeOk &&
        created[k] == Started(files[..i][j], env[..i][j]);
      assert env[..i][j] == env[j];
      assert id == env[j].recordId;
    }
  }

  /** After a failed write nothing more happens. */
  lemma {:induction false} IntakeFailureSticks(files: seq<UploadFile>, env: seq<FileEnv>, i: int)
    requires |files| == |env| && 0 <= i <= |files|
    requires IntakeOf(files[..i], env[..i]).writeFailed
    ensures IntakeOf(files, env) == IntakeOf(files[..i], env[..i])
    decreases |files|
  {
    if i < |files| {
      var n := |files| - 1;
      assert files[..n][..i] == files[..i] && env[..n][..i] == env[..i];
        IntakeFailureSticks(files[..n], env[..n], i);
    } else {
      assert files[..i] == files && env[..i] == env;
    }
  }
}
