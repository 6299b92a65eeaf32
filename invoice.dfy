/** The invoice record and the shallow merge `{ ...invoice, ...updates }` that
    the store's update performs. Instants (JavaScript Date values) are
    milliseconds since the epoch. */
module Invoices {

  datatype Option<T> = None | Some(value: T)

  type Id = string

  datatype Status = Pending | Processing | Processed | Failed

  /** The string each status is stored and compared as. */
  function StatusName(s: Status): (r: string)
    ensures r in {"Pending", "Processing", "Processed", "Failed"}
  {
    match s
    case Pending => "Pending"
    case Processing => "Processing"
    case Processed => "Processed"
    case Failed => "Failed"
  }

  /** Distinct statuses have distinct names, so comparing names compares statuses. */
  lemma StatusNameInjective(a: Status, b: Status)
    ensures StatusName(a) == StatusName(b) <==> a == b
  {
  }

  predicate IsTerminal(s: Status)
  {
    s == Processed || s == Failed
  }

  /** What the upload route and the polling loops treat as still in flight. */
  predicate IsActive(s: Status)
  {
    s == Pending || s == Processing
  }

  lemma ActiveIsNotTerminal(s: Status)
    ensures IsActive(s) <==> !IsTerminal(s)
  {
  }

  /** One forward step of the processing life cycle. */
  predicate Advances(from: Status, to: Status)
  {
    (from == Pending && to == Processing) || (from == Processing && IsTerminal(to))
  }

  datatype Invoice = Invoice(
    id: Id,
    fileName: string,
    fileSize: int,
    clientName: string,
    amount: int,
    uploadDate: int,
    status: Status,
    filePath: string,
    processingStartTime: Option<int>,
    processingEndTime: Option<int>)

  /** An invoice without its id: what create() is given. */
  datatype InvoiceData = InvoiceData(
    fileName: string,
    fileSize: int,
    clientName: string,
    amount: int,
    uploadDate: int,
    status: Status,
    filePath: string,
    processingStartTime: Option<int>,
    processingEndTime: Option<int>)

  /** `{ id, ...data }` */
  function WithId(data: InvoiceData, id: Id): (r: Invoice)
    ensures r.id == id
    ensures WithoutId(r) == data
  {
    Invoice(id, data.fileName, data.fileSize, data.clientName, data.amount, data.uploadDate,
            data.status, data.filePath, data.processingStartTime, data.processingEndTime)
  }

  function WithoutId(inv: Invoice): (r: InvoiceData)
  {
    InvoiceData(inv.fileName, inv.fileSize, inv.clientName, inv.amount, inv.uploadDate,
                inv.status, inv.filePath, inv.processingStartTime, inv.processingEndTime)
  }

  /** A partial invoice: every field but the id, each one present or absent. */
  datatype InvoiceUpdate = InvoiceUpdate(
    fileName: Option<string>,
    fileSize: Option<int>,
    clientName: Option<string>,
    amount: Option<int>,
    uploadDate: Option<int>,
    status: Option<Status>,
    filePath: Option<string>,
    processingStartTime: Option<int>,
    processingEndTime: Option<int>)

  const NoUpdate := InvoiceUpdate(None, None, None, None, None, None, None, None, None)

  function Pick<T>(given: Option<T>, current: T): (r: T)
  {
    if given.Some? then given.value else current
  }

  function PickOptional<T>(given: Option<T>, current: Option<T>): (r: Option<T>)
  {
    if given.Some? then given else current
  }

  /** `{ ...inv, ...upd }`: a present field of the update wins, an absent one
      keeps the invoice's value. */
  function Merge(inv: Invoice, upd: InvoiceUpdate): (r: Invoice)
    ensures r.id == inv.id
    ensures upd.status.Some? ==> r.status == upd.status.value
    ensures upd.status.None? ==> r.status == inv.status
    ensures upd == NoUpdate ==> r == inv
  {
    Invoice(inv.id,
            Pick(upd.fileName, inv.fileName),
            Pick(upd.fileSize, inv.fileSize),
            Pick(upd.clientName, inv.clientName),
            Pick(upd.amount, inv.amount),
            Pick(upd.uploadDate, inv.uploadDate),
            Pick(upd.status, inv.status),
            Pick(upd.filePath, inv.filePath),
            PickOptional(upd.processingStartTime, inv.processingStartTime),
            PickOptional(upd.processingEndTime, inv.processingEndTime))
  }

  /** `{ ...u1, ...u2 }` on two partial invoices. */
  function Combine(u1: InvoiceUpdate, u2: InvoiceUpdate): (r: InvoiceUpdate)
  {
    InvoiceUpdate(PickOptional(u2.fileName, u1.fileName),
                  PickOptional(u2.fileSize, u1.fileSize),
                  PickOptional(u2.clientName, u1.clientName),
                  PickOptional(u2.amount, u1.amount),
                  PickOptional(u2.uploadDate, u1.uploadDate),
                  PickOptional(u2.status, u1.status),
                  PickOptional(u2.filePath, u1.filePath),
                  PickOptional(u2.processingStartTime, u1.processingStartTime),
                  PickOptional(u2.processingEndTime, u1.processingEndTime))
  }

  /** Two updates in a row are one update by their combination. */
  lemma MergeTwice(inv: Invoice, u1: InvoiceUpdate, u2: InvoiceUpdate)
    ensures Merge(Merge(inv, u1), u2) == Merge(inv, Combine(u1, u2))
  {
  }

  /** Applying the same update again changes nothing. */
  lemma MergeIdempotent(inv: Invoice, upd: InvoiceUpdate)
    ensures Merge(Merge(inv, upd), upd) == Merge(inv, upd)
  {
  }

  /** The fields an update omits keep their old values. */
  lemma MergeKeepsOmitted(inv: Invoice, upd: InvoiceUpdate)
    ensures upd.fileName.None? ==> Merge(inv, upd).fileName == inv.fileName
    ensures upd.fileSize.None? ==> Merge(inv, upd).fileSize == inv.fileSize
    ensures upd.clientName.None? ==> Merge(inv, upd).clientName == inv.clientName
    ensures upd.amount.None? ==> Merge(inv, upd).amount == inv.amount
    ensures upd.uploadDate.None? ==> Merge(inv, upd).uploadDate == inv.uploadDate
    ensures upd.filePath.None? ==> Merge(inv, upd).filePath == inv.filePath
    ensures upd.processingStartTime.None? ==> Merge(inv, upd).processingStartTime == inv.processingStartTime
    ensures upd.processingEndTime.None? ==> Merge(inv, upd).processingEndTime == inv.processingEndTime
  {
  }

  /** Every field the update gives overwrites the invoice's value. */
  lemma MergeTakesGiven(inv: Invoice, upd: InvoiceUpdate)
    ensures upd.fileName.Some? ==> Merge(inv, upd).fileName == upd.fileName.value
    ensures upd.fileSize.Some? ==> Merge(inv, upd).fileSize == upd.fileSize.value
    ensures upd.clientName.Some? ==> Merge(inv, upd).clientName == upd.clientName.value
    ensures upd.amount.Some? ==> Merge(inv, upd).amount == upd.amount.value
    ensures upd.uploadDate.Some? ==> Merge(inv, upd).uploadDate == upd.uploadDate.value
    ensures upd.filePath.Some? ==> Merge(inv, upd).filePath == upd.filePath.value
    ensures upd.processingStartTime.Some? ==> Merge(inv, upd).processingStartTime == upd.processingStartTime
    ensures upd.processingEndTime.Some? ==> Merge(inv, upd).processingEndTime == upd.processingEndTime
  {
  }

  /** The timestamps agree with the status: a start time exactly from
      Processing on, an end time exactly in a terminal status. */
  predicate Lifecycle(inv: Invoice)
  {
    (inv.processingStartTime.Some? <==> inv.status != Pending) &&
    (inv.processingEndTime.Some? <==> IsTerminal(inv.status))
  }
}
