/** The in-memory invoice store, the two steps of the simulated processing,
    and the fabricated client data. The source keeps one module-level Map;
    here it is an object that callers pass around. */
module Storage {
  import opened Invoices
  import opened InvoiceQuery

  /** The records of `m` in the order of `keys`. */
  function ValuesInOrder(m: map<Id, Invoice>, keys: seq<Id>): (r: seq<Invoice>)
    requires forall i :: 0 <= i < |keys| ==> keys[i] in m
    ensures |r| == |keys|
    ensures forall i :: 0 <= i < |keys| ==> r[i] == m[keys[i]]
  {
    if keys == [] then [] else [m[keys[0]]] + ValuesInOrder(m, keys[1..])
  }

  class InvoiceStore {
    /** id -> record */
    var invoices: map<Id, Invoice>
    /** The ids in the order they were first set: the iteration order of a
        JavaScript Map, which `values()` follows. */
    var order: seq<Id>

    ghost predicate Valid()
      reads this
    {
      (forall k :: k in invoices <==> k in order) &&
      (forall i, j :: 0 <= i < j < |order| ==> order[i] != order[j]) &&
      (forall k :: k in invoices ==> invoices[k].id == k)
    }

    constructor ()
      ensures Valid()
      ensures invoices == map[] && order == []
    {
      invoices := map[];
      order := [];
    }

    /** create(data): `freshId` is the value uuidv4() returned; it names no
        stored record. */
    method Create(data: InvoiceData, freshId: Id) returns (r: Invoice)
      requires Valid()
      requires freshId !in invoices
      modifies this
      ensures Valid()
      ensures r == WithId(data, freshId)
      ensures invoices == old(invoices)[freshId := r]
      ensures order == old(order) + [freshId]
      ensures GetById(freshId) == Some(r)
      ensures |invoices| == |old(invoices)| + 1
    {
      r := WithId(data, freshId);
      invoices := invoices[freshId := r];
      order := order + [freshId];
    }

    /** getById(id): the record, or None when no record has that id. */
    function GetById(id: Id): (r: Option<Invoice>)
      reads this
      requires Valid()
      ensures r.Some? <==> id in invoices
      ensures r.Some? ==> r.value == invoices[id] && r.value.id == id
    {
      if id in invoices then Some(invoices[id]) else None
    }

    /** update(id, updates): the merged record, or None (and no change) when
        the id is unknown. */
    method Update(id: Id, upd: InvoiceUpdate) returns (r: Option<Invoice>)
      requires Valid()
      modifies this
      ensures Valid()
      ensures order == old(order)
      ensures id in old(invoices) ==>
        r == Some(Merge(old(invoices)[id], upd)) && invoices == old(invoices)[id := r.value]
      ensures id !in old(invoices) ==> r == None && invoices == old(invoices)
    {
      if id !in invoices {
        return None;
      }
      var merged := Merge(invoices[id], upd);
      invoices := invoices[id := merged];
      r := Some(merged);
    }

    /** getAll(): every record exactly once, in insertion order. */
    function GetAll(): (r: seq<Invoice>)
      reads this
      requires Valid()
      ensures |r| == |order|
      ensures forall i :: 0 <= i < |r| ==> r[i] == invoices[order[i]] && r[i].id == order[i]
      ensures forall x :: x in r <==> x in invoices.Values
    {
      var r := ValuesInOrder(invoices, order);
      assert forall x :: x in invoices.Values ==> x in r by {
        forall x | x in invoices.Values ensures x in r {
          var k :| k in invoices && invoices[k] == x;
          var i :| 0 <= i < |order| && order[i] == k;
          assert r[i] == x;
        }
      }
      r
    }

    /** getPaginated(params): the query over the stored records; reading only. */
    function GetPaginated(q: QueryParams): (r: Page)
      reads this
      requires Valid()
      requires q.page >= 1 && q.limit >= 1
      ensures r.page == q.page && r.limit == q.limit
      ensures r.total <= |invoices|
      ensures forall x :: x in r.data ==> x in invoices.Values
    {
      var all := GetAll();
      var r := Query(all, q);
      forall x | x in r.data ensures x in invoices.Values {
        QuerySound(all, q, x);
      }
      assert r.total <= |all| by {
        assert |Matching(all, q)| <= |StatusFilter(all, q.status)| <= |all|;
      }
      LengthOfKeys(this);
      r
    }
  }

  /** The ids listed in order are the map's keys, each once. */
  lemma LengthOfKeys(store: InvoiceStore)
    requires store.Valid()
    ensures |store.order| == |store.invoices|
  {
    DistinctLength(store.order, store.invoices.Keys);
  }

  lemma {:induction false} DistinctLength(s: seq<Id>, keys: set<Id>)
    requires forall k :: k in keys <==> k in s
    requires forall i, j :: 0 <= i < j < |s| ==> s[i] != s[j]
    ensures |s| == |keys|
  {
    if s != [] {
      var rest := s[1..];
      assert forall k :: k in keys - {s[0]} <==> k in rest by {
        forall k ensures k in keys - {s[0]} <==> k in rest {
          if k in rest {
            var j :| 0 <= j < |rest| && rest[j] == k;
            assert s[j + 1] == k;
          }
          if k in s && k != s[0] {
            var j :| 0 <= j < |s| && s[j] == k;
            assert rest[j - 1] == k;
          }
        }
      }
      DistinctLength(rest, keys - {s[0]});
    }
  }

  // ---------------------------------------------------------------- processing

  /** The first update simulateProcessing makes, synchronously. */
  function StartUpdate(now: int): (r: InvoiceUpdate)
  {
    NoUpdate.(status := Some(Processing), processingStartTime := Some(now))
  }

  /** The update the timer makes when it fires. */
  function FinishUpdate(success: bool, now: int): (r: InvoiceUpdate)
  {
    NoUpdate.(status := Some(if success then Processed else Failed), processingEndTime := Some(now))
  }

  /** The start step sets the status and the start time and nothing else. */
  lemma StartStep(inv: Invoice, now: int)
    ensures var r := Merge(inv, StartUpdate(now));
      r.status == Processing && r.processingStartTime == Some(now) &&
      r == inv.(status := Processing, processingStartTime := Some(now))
  {
  }

  /** The finish step sets the outcome and the end time and nothing else. */
  lemma FinishStep(inv: Invoice, success: bool, now: int)
    ensures var r := Merge(inv, FinishUpdate(success, now));
      (r.status == Processed <==> success) && (r.status == Failed <==> !success) &&
      r.processingEndTime == Some(now) &&
      r == inv.(status := r.status, processingEndTime := Some(now))
  {
  }

  /** Run on a freshly created record, then on the started one, the two steps
      move the status forward and keep the timestamps consistent with it. */
  lemma ProcessingLifecycle(inv: Invoice, start: int, success: bool, end: int)
    requires inv.status == Pending && Lifecycle(inv)
    ensures var started := Merge(inv, StartUpdate(start));
      var finished := Merge(started, FinishUpdate(success, end));
      Advances(inv.status, started.status) && Lifecycle(started) &&
      Advances(started.status, finished.status) && Lifecycle(finished) &&
      IsTerminal(finished.status)
  {
  }

  /** simulateProcessing, first half: mark the record Processing now. */
  method StartProcessing(store: InvoiceStore, id: Id, now: int)
    requires store.Valid()
    modifies store
    ensures store.Valid()
    ensures store.order == old(store.order)
    ensures id in old(store.invoices) ==>
      store.invoices == old(store.invoices)[id := Merge(old(store.invoices)[id], StartUpdate(now))]
    ensures id !in old(store.invoices) ==> store.invoices == old(store.invoices)
  {
    var _ := store.Update(id, StartUpdate(now));
  }

  /** simulateProcessing, the timer callback: draw the outcome and record it. */
  method FinishProcessing(store: InvoiceStore, id: Id, draw: RandomDraw, now: int)
    requires store.Valid()
    modifies store
    ensures store.Valid()
    ensures store.order == old(store.order)
    ensures id in old(store.invoices) ==>
      store.invoices == old(store.invoices)[id := Merge(old(store.invoices)[id], FinishUpdate(IsSuccess(draw), now))]
    ensures id !in old(store.invoices) ==> store.invoices == old(store.invoices)
  {
    var isSuccess := IsSuccess(draw);
    var _ := store.Update(id, FinishUpdate(isSuccess, now));
  }

  /** A value of Math.random(): at least 0 and below 1, as an exact real
      (float rounding is not modelled). */
  type RandomDraw = x: real | 0.0 <= x < 1.0

  /** The timer delay, in milliseconds, drawn by simulateProcessing. */
  function ProcessingTime(draw: RandomDraw): (ms: int)
    ensures 15000 <= ms < 45000
  {
    (draw * 30000.0).Floor + 15000
  }

  /** Whether the timer callback reports success: an 80% draw. */
  function IsSuccess(draw: RandomDraw): (ok: bool)
  {
    draw < 0.8
  }

  /** The record the timer callback leaves: Processed for a draw below 0.8,
      Failed for any other, with the end time set and every other field as
      it was. */
  lemma FinishOutcome(inv: Invoice, draw: RandomDraw, now: int)
    ensures var r := Merge(inv, FinishUpdate(IsSuccess(draw), now));
      r.status == (if draw < 0.8 then Processed else Failed) &&
      r.processingEndTime == Some(now) &&
      r == inv.(status := r.status, processingEndTime := Some(now))
  {
    FinishStep(inv, IsSuccess(draw), now);
  }

  const ClientNames: seq<string> :=
    ["Acme Corp", "TechStart Inc", "Global Solutions", "Blue Ocean Ltd", "Metro Dynamics"]

  datatype MockData = MockData(clientName: string, amount: int)

  /** generateMockData(): one of the five client names and an amount from 500
      to 10499. */
  function GenerateMockData(nameDraw: RandomDraw, amountDraw: RandomDraw): (r: MockData)
    ensures r.clientName in ClientNames
    ensures 500 <= r.amount <= 10499
  {
    var k := (nameDraw * (|ClientNames| as real)).Floor;
    MockData(ClientNames[k], (amountDraw * 10000.0).Floor + 500)
  }
}
