/** The upload panel's client-side logic: which selected files are kept, when
    an upload is sent, which tracked invoices are polled, when polling stops,
    and how the polled records replace the tracked ones. */
module InvoiceUploadView {
  import opened Invoices
  import opened Seqs
  import opened InvoiceListView

  // ---------------------------------------------------------------- file selection

  /** A browser File as far as the panel looks at it. */
  datatype SelectedFile = SelectedFile(name: string, fileType: string, size: int)

  predicate IsPdfType(f: SelectedFile)
  {
    f.fileType == "application/pdf"
  }

  /** handleDrop and handleFileSelect: keep the files whose MIME type is
      application/pdf. */
  function PdfOnly(files: seq<SelectedFile>): (r: seq<SelectedFile>)
  {
    Filter(files, IsPdfType)
  }

  /** Exactly the PDF files are kept, each as often as it was chosen. */
  lemma PdfOnlyKeepsExactlyPdfs(files: seq<SelectedFile>)
    ensures forall f :: f in PdfOnly(files) <==> f in files && IsPdfType(f)
    ensures forall f :: multiset(PdfOnly(files))[f] == if IsPdfType(f) then multiset(files)[f] else 0
  {
    FilterMultiset(files, IsPdfType);
  }

  /** The kept files stay in the order they were chosen: selecting two
      batches keeps each batch's PDFs, first batch first. */
  lemma PdfOnlyKeepsOrder(a: seq<SelectedFile>, b: seq<SelectedFile>)
    ensures PdfOnly(a + b) == PdfOnly(a) + PdfOnly(b)
  {
    FilterAppend(a, b, IsPdfType);
  }

  /** Selecting again among the kept files keeps them all. */
  lemma PdfOnlyIdempotent(files: seq<SelectedFile>)
    ensures PdfOnly(PdfOnly(files)) == PdfOnly(files)
  {
    FilterAll(PdfOnly(files), IsPdfType);
  }

  datatype UploadAction = NoRequest | SendFiles(files: seq<SelectedFile>)

  /** handleUpload: no request at all when nothing is selected; otherwise
      every selected file goes into the form, in order. */
  function HandleUpload(selected: seq<SelectedFile>): (r: UploadAction)
    ensures r.NoRequest? <==> selected == []
    ensures r.SendFiles? ==> r.files == selected
  {
    if |selected| == 0 then NoRequest else SendFiles(selected)
  }

  // ---------------------------------------------------------------- polling

  /** The tracked invoices a poll re-fetches: those Pending or Processing. */
  function ActiveInvoices(tracked: seq<Invoice>): (r: seq<Invoice>)
  {
    Filter(tracked, (inv: Invoice) => IsActive(inv.status))
  }

  /** A poll re-fetches only tracked invoices that are still in flight, and
      every one of them. */
  lemma PollFetchesActive(tracked: seq<Invoice>)
    ensures forall inv :: inv in ActiveInvoices(tracked) <==> inv in tracked && IsActive(inv.status)
  {
  }

  /** Polling stops exactly when no tracked invoice is in flight, which is the
      list view's refresh condition too. */
  lemma PollStopsIff(tracked: seq<Invoice>)
    ensures |ActiveInvoices(tracked)| == 0 <==> !HasActive(tracked)
    ensures |ActiveInvoices(tracked)| == 0 <==>
      forall k :: 0 <= k < |tracked| ==> IsTerminal(tracked[k].status)
  {
    RefreshStopsWhenAllTerminal(tracked);
    if HasActive(tracked) {
      var k :| 0 <= k < |tracked| && IsActive(tracked[k].status);
      assert tracked[k] in ActiveInvoices(tracked);
    }
    if |ActiveInvoices(tracked)| > 0 {
      var x := ActiveInvoices(tracked)[0];
      assert x in tracked && IsActive(x.status);
      var k :| 0 <= k < |tracked| && tracked[k] == x;
    }
  }

  // ---------------------------------------------------------------- merge

  /** Array.prototype.findIndex on the id: the first position holding that
      id, or -1. */
  function FindIndex(s: seq<Invoice>, id: Id): (r: int)
    ensures -1 <= r < |s|
    ensures r == -1 <==> forall k :: 0 <= k < |s| ==> s[k].id != id
    ensures r >= 0 ==> s[r].id == id && forall k :: 0 <= k < r ==> s[k].id != id
  {
    if s == [] then -1
    else if s[0].id == id then 0
    else
      var t := FindIndex(s[1..], id);
      if t == -1 then -1 else t + 1
  }

  /** The tracked list after replacing, for each polled record in turn, the
      first tracked record with the same id. */
  function Merged(prev: seq<Invoice>, updates: seq<Invoice>): (r: seq<Invoice>)
    ensures |r| == |prev|
    ensures forall k :: 0 <= k < |r| ==> r[k].id == prev[k].id
  {
    if updates == [] then prev
    else
      var m := Merged(prev, updates[..|updates| - 1]);
      var u := updates[|updates| - 1];
      var i := FindIndex(m, u.id);
      if i == -1 then m else m[i := u]
  }

  /** The functional update setUploadedInvoices receives: copy the list,
      then overwrite in place the position findIndex reports for each
      polled record. */
  method MergeUpdates(prev: seq<Invoice>, updates: seq<Invoice>) returns (r: seq<Invoice>)
    ensures r == Merged(prev, updates)
  {
    var updated := new Invoice[|prev|](i requires 0 <= i < |prev| => prev[i]);
    assert updated[..] == prev;
    var j := 0;
    while j < |updates|
      invariant 0 <= j <= |updates|
      invariant updated.Length == |prev|
      invariant updated[..] == Merged(prev, updates[..j])
    {
      ghost var before := updated[..];
      var updatedInvoice := updates[j];
      var index := FindIndex(updated[..], updatedInvoice.id);
      if index != -1 {
        updated[index] := updatedInvoice;
      }
      MergedStep(prev, updates, j, before, index);
      j := j + 1;
    }
    assert updates[..|updates|] == updates;
    r := updated[..];
  }

  /** One more polled record: the merge so far, with the record written at
      the position findIndex reports, if any. */
  lemma MergedStep(prev: seq<Invoice>, updates: seq<Invoice>, j: int, before: seq<Invoice>, index: int)
    requires 0 <= j < |updates|
    requires before == Merged(prev, updates[..j])
    requires index == FindIndex(before, updates[j].id)
    ensures Merged(prev, updates[..j + 1]) == if index == -1 then before else before[index := updates[j]]
  {
    assert updates[..j + 1][..j] == updates[..j];
  }

  /** The last polled record carrying `id`, if any. */
  function LastUpdate(updates: seq<Invoice>, id: Id): (r: Option<Invoice>)
    ensures r.Some? ==> r.value in updates && r.value.id == id
    ensures r.None? <==> forall k :: 0 <= k < |updates| ==> updates[k].id != id
  {
    if updates == [] then None
    else if updates[|updates| - 1].id == id then Some(updates[|updates| - 1])
    else LastUpdate(updates[..|updates| - 1], id)
  }

  /** The record found is the last one with the id: every later polled record
      carries another id, so no later overwrite replaces it. */
  lemma {:induction false} LastUpdateIsLast(updates: seq<Invoice>, id: Id)
    requires LastUpdate(updates, id).Some?
    ensures exists k :: (0 <= k < |updates| && updates[k] == LastUpdate(updates, id).value &&
                         forall m :: k < m < |updates| ==> updates[m].id != id)
  {
    var r := LastUpdate(updates, id);
    var n := |updates| - 1;
    if updates[n].id == id {
      assert updates[n] == r.value;
    } else {
      var p := updates[..n];
      assert r == LastUpdate(p, id);
      LastUpdateIsLast(p, id);
      var k :| 0 <= k < |p| && p[k] == r.value && forall m :: k < m < |p| ==> p[m].id != id;
      assert updates[k] == p[k];
      forall m | k < m < |updates| ensures updates[m].id != id {
        if m < n {
          assert updates[m] == p[m];
        }
      }
    }
  }

  /** Two lists with the same ids, position by position, answer findIndex alike. */
  lemma {:induction false} FindIndexSameIds(a: seq<Invoice>, b: seq<Invoice>, id: Id)
    requires |a| == |b|
    requires forall k :: 0 <= k < |a| ==> a[k].id == b[k].id
    ensures FindIndex(a, id) == FindIndex(b, id)
  {
    if a != [] && a[0].id != id {
      FindIndexSameIds(a[1..], b[1..], id);
    }
  }

  /** Each position of the merged list: the first position holding an id
      ends up with the last polled record for that id, when there is one;
      every other position keeps its record. */
  lemma {:induction false} MergedAt(prev: seq<Invoice>, updates: seq<Invoice>, k: int)
    requires 0 <= k < |prev|
    ensures Merged(prev, updates)[k] ==
      if FindIndex(prev, prev[k].id) == k && LastUpdate(updates, prev[k].id).Some?
      then LastUpdate(updates, prev[k].id).value
      else prev[k]
  {
    if updates != [] {
      var n := |updates| - 1;
      var m := Merged(prev, updates[..n]);
      var u := updates[n];
      MergedAt(prev, updates[..n], k);
      FindIndexSameIds(m, prev, u.id);
      var i := FindIndex(m, u.id);
      assert updates[..n + 1] == updates;
      MergedStep(prev, updates, n, m, i);
      if i == k {
        assert prev[k].id == u.id;
      } else if prev[k].id == u.id {
        assert FindIndex(prev, prev[k].id) != k;
      }
    }
  }

  /** With distinct ids in the tracked list, the merge puts at each position
      the newest polled version of that invoice. */
  lemma MergedDistinct(prev: seq<Invoice>, updates: seq<Invoice>, k: int)
    requires forall i, j :: 0 <= i < j < |prev| ==> prev[i].id != prev[j].id
    requires 0 <= k < |prev|
    ensures LastUpdate(updates, prev[k].id).None? ==> Merged(prev, updates)[k] == prev[k]
    ensures LastUpdate(updates, prev[k].id).Some? ==>
      Merged(prev, updates)[k] == LastUpdate(updates, prev[k].id).value
  {
    MergedAt(prev, updates, k);
    assert FindIndex(prev, prev[k].id) == k;
  }

  /** A polled record whose id is not tracked changes nothing. */
  lemma MergedIgnoresUnknown(prev: seq<Invoice>, updates: seq<Invoice>, u: Invoice)
    requires forall k :: 0 <= k < |prev| ==> prev[k].id != u.id
    ensures Merged(prev, updates + [u]) == Merged(prev, updates)
  {
    assert (updates + [u])[..|updates|] == updates;
    var m := Merged(prev, updates);
    assert FindIndex(m, u.id) == -1;
  }
}
