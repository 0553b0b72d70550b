/** The order-list handling of `medicalOrderService`: creating laboratory
    and radiology orders into a medical record's JSON order list (and the
    `MedicalOrder` table when it exists), building and enriching test
    entries from the exam catalogs, finding an order by id, and the
    in-memory listing fallbacks.

    Generated ids and timestamps come from one counter, `nextId`, standing
    for `genId` and the database defaults; the current time is `now`. A
    string or number field that JavaScript would find falsy is "" or 0. */
module MedicalOrders {
  import opened Wrappers
  import Paging

  datatype OrderKind = Laboratory | Radiology

  function TypeName(kind: OrderKind): string {
    match kind
      case Laboratory => "laboratory"
      case Radiology => "radiology"
  }

  /** The status each kind gives a new test. */
  function TestStatus(kind: OrderKind): string {
    match kind
      case Laboratory => "PENDING"
      case Radiology => "SCHEDULED"
  }

  /** One element of `requestedTests`: a bare code, or an object. */
  datatype TestRequest =
    | TestText(text: string)
    | TestObject(
        testCode: string, code: string, name: string, testName: string, description: string,
        specimen: string, notes: string,
        modality: string, kind: string, bodyPart: string, region: string, laterality: string)

  /** A test entry of an order. `code` is the legacy field older orders
      may carry instead of `testCode`. */
  datatype OrderTest = OrderTest(
    id: nat,
    testCode: string,
    code: string,
    name: string,
    description: string,
    specimen: string,
    notes: string,
    modality: string,
    bodyPart: string,
    laterality: string,
    status: string,
    createdAt: int)

  datatype ExamType = ExamType(code: string, name: string, description: string)

  datatype MedicalOrder = MedicalOrder(
    id: nat,
    kind: string,
    patientId: int,
    requestedBy: int,
    priority: string,
    clinicalNotes: string,
    requestedAt: int,
    status: string,
    tests: seq<OrderTest>,
    createdAt: int)

  /** The `medicalOrders` column of a medical record. */
  datatype OrdersValue = NoOrders | OrderList(orders: seq<MedicalOrder>) | SingleOrder(order: MedicalOrder)

  datatype MedicalRecord = MedicalRecord(
    id: nat,
    userId: int,
    diagnosis: string,
    createdAt: nat,
    medicalOrders: OrdersValue)

  /** A row of the `MedicalOrder` table. */
  datatype TableRow = TableRow(order: MedicalOrder, medicalRecordId: nat, createdAt: nat)

  datatype OrderRequest = OrderRequest(
    patientId: int,
    requestedBy: int,
    priority: string,
    clinicalNotes: string,
    requestedTests: Option<seq<TestRequest>>,  // None: not an array
    requestedAt: int)

  datatype OrderError =
    | MissingPatientId  // 400 'patientId es requerido'
    | PatientNotFound   // 404 'Paciente no encontrado'
    | MissingOrderId    // 400 'orderId es requerido'
    | OrderNotFound     // 404 'Orden médica no encontrada'

  /** An order as `getOrderById` returns it. */
  datatype FoundOrder = FoundOrder(order: MedicalOrder, medicalRecordId: nat, patientId: int)

  /** An order of a listing, with the record it came from. */
  datatype ListedOrder = ListedOrder(order: MedicalOrder, medicalRecordId: nat)

  // ---------------------------------------------------------------------
  // The JSON order list

  /** `if (!existing) existing = []; if (!Array.isArray(existing)) existing = [existing]`. */
  function Coerce(v: OrdersValue): (r: seq<MedicalOrder>)
    ensures v.NoOrders? ==> r == []
    ensures v.SingleOrder? ==> r == [v.order]
    ensures v.OrderList? ==> r == v.orders
  {
    match v
      case NoOrders => []
      case OrderList(os) => os
      case SingleOrder(o) => [o]
  }

  /** The record after `[...existing, newOrder]` is written back. */
  function AppendOrder(rec: MedicalRecord, order: MedicalOrder): MedicalRecord {
    rec.(medicalOrders := OrderList(Coerce(rec.medicalOrders) + [order]))
  }

  /** Appending keeps every prior order, in place, and puts the new one last. */
  lemma AppendKeepsPriorOrders(rec: MedicalRecord, order: MedicalOrder)
    ensures var after := Coerce(AppendOrder(rec, order).medicalOrders);
      && |after| == |Coerce(rec.medicalOrders)| + 1
      && after[..|after| - 1] == Coerce(rec.medicalOrders)
      && after[|after| - 1] == order
      && AppendOrder(rec, order).id == rec.id && AppendOrder(rec, order).userId == rec.userId
  {
    var after := Coerce(AppendOrder(rec, order).medicalOrders);
    assert after == Coerce(rec.medicalOrders) + [order];
  }

  // ---------------------------------------------------------------------
  // Building tests

  /** `t.testCode || t.code || t`, as the string the catalog is queried with. */
  function RequestCode(t: TestRequest): string {
    match t
      case TestText(s) => s
      case TestObject(testCode, code, _, _, _, _, _, _, _, _, _, _) =>
        if testCode != "" then testCode else if code != "" then code else "[object Object]"
  }

  /** `t.name || t.testName || "Examen " + code`. */
  function FallbackName(t: TestRequest, code: string): string {
    if t.TestObject? && t.name != "" then t.name
    else if t.TestObject? && t.testName != "" then t.testName
    else "Examen " + code
  }

  /** The first catalog entry with the code, as `findFirst` returns it. */
  function CatalogFind(catalog: seq<ExamType>, code: string): (r: Option<ExamType>)
    ensures r.Some? ==> r.value in catalog && r.value.code == code
    ensures r.None? ==> forall e :: e in catalog ==> e.code != code
  {
    if catalog == [] then None
    else if catalog[0].code == code then Some(catalog[0])
    else CatalogFind(catalog[1..], code)
  }

  /** One entry of `enrichedTests` in order creation. */
  function BuildTest(kind: OrderKind, t: TestRequest, catalog: seq<ExamType>, id: nat, now: int): (r: OrderTest)
    ensures r.id == id && r.status == TestStatus(kind) && r.createdAt == now
    ensures r.testCode == RequestCode(t)
    ensures CatalogFind(catalog, RequestCode(t)).Some? ==> r.name == CatalogFind(catalog, RequestCode(t)).value.name
    ensures CatalogFind(catalog, RequestCode(t)).None? ==> r.name == FallbackName(t, RequestCode(t))
  {
    var code := RequestCode(t);
    var notes := if t.TestObject? then t.notes else "";
    var specimen := if kind == Laboratory && t.TestObject? then t.specimen else "";
    var modality := if kind == Radiology && t.TestObject? then (if t.modality != "" then t.modality else t.kind) else "";
    var bodyPart := if kind == Radiology && t.TestObject? then (if t.bodyPart != "" then t.bodyPart else t.region) else "";
    var laterality := if kind == Radiology && t.TestObject? then t.laterality else "";
    match CatalogFind(catalog, code)
      case Some(e) =>
        OrderTest(id, e.code, "", e.name, e.description, specimen, notes, modality, bodyPart, laterality, TestStatus(kind), now)
      case None =>
        OrderTest(id, code, "", FallbackName(t, code), if t.TestObject? then t.description else "",
                  specimen, notes, modality, bodyPart, laterality, TestStatus(kind), now)
  }

  /** The tests of a new order: one per request, in order, with
      consecutive ids from `firstId`. */
  function BuildTests(kind: OrderKind, ts: seq<TestRequest>, catalog: seq<ExamType>, firstId: nat, now: int): (r: seq<OrderTest>)
    ensures |r| == |ts|
    ensures forall i :: 0 <= i < |ts| ==> r[i] == BuildTest(kind, ts[i], catalog, firstId + i, now)
  {
    seq(|ts|, i requires 0 <= i < |ts| => BuildTest(kind, ts[i], catalog, firstId + i, now))
  }

  /** `Array.isArray(requestedTests) ? requestedTests : []`. */
  function Requested(req: OrderRequest): seq<TestRequest> {
    if req.requestedTests.Some? then req.requestedTests.value else []
  }

  /** `newOrder`. */
  function NewOrder(kind: OrderKind, req: OrderRequest, ctxUserId: int, id: nat, tests: seq<OrderTest>, now: int): (o: MedicalOrder)
    ensures o.id == id && o.kind == TypeName(kind) && o.patientId == req.patientId && o.status == "CREATED"
    ensures o.priority == (if req.priority != "" then req.priority else "routine")
    ensures o.requestedBy == (if req.requestedBy != 0 then req.requestedBy else ctxUserId)
    ensures o.tests == tests && o.createdAt == now
  {
    MedicalOrder(
      id, TypeName(kind), req.patientId,
      if req.requestedBy != 0 then req.requestedBy else ctxUserId,
      if req.priority != "" then req.priority else "routine",
      req.clinicalNotes,
      if req.requestedAt != 0 then req.requestedAt else now,
      "CREATED", tests, now)
  }

  /** The minimal record created for a patient without one. */
  function AutoRecord(kind: OrderKind, patientId: int, id: nat): MedicalRecord {
    MedicalRecord(id, patientId,
      match kind
        case Laboratory => "Ordenes de laboratorio (auto-generado)"
        case Radiology => "Ordenes de radiología (auto-generado)",
      id, NoOrders)
  }

  /** The index of the patient's most recent record. */
  function LatestRecord(records: seq<MedicalRecord>, patientId: int): (r: Option<nat>)
    ensures r.Some? ==> r.value < |records| && records[r.value].userId == patientId
    ensures r.Some? ==> forall j :: r.value < j < |records| ==> records[j].userId != patientId
    ensures r.None? ==> forall j :: 0 <= j < |records| ==> records[j].userId != patientId
  {
    if records == [] then None
    else if records[|records| - 1].userId == patientId then Some(|records| - 1)
    else LatestRecord(records[..|records| - 1], patientId)
  }

  /** The records once `order` is appended to the patient's latest record,
      or to a record auto-created with id `stamp` when there is none. */
  function WithOrder(records: seq<MedicalRecord>, kind: OrderKind, patientId: int, stamp: nat, order: MedicalOrder): seq<MedicalRecord> {
    match LatestRecord(records, patientId)
      case Some(k) => records[k := AppendOrder(records[k], order)]
      case None => records + [AppendOrder(AutoRecord(kind, patientId, stamp), order)]
  }

  /** The id of the record an order of the patient goes to. */
  function RecordIdFor(records: seq<MedicalRecord>, patientId: int, stamp: nat): nat {
    match LatestRecord(records, patientId)
      case Some(k) => records[k].id
      case None => stamp
  }

  /** After an order is placed, the patient's latest record is the one it
      went to, holding every order it held before and the new one last;
      every other record is unchanged. */
  lemma {:induction false} PlacedOrderIsLastOfLatestRecord(records: seq<MedicalRecord>, kind: OrderKind, patientId: int, stamp: nat, order: MedicalOrder)
    ensures var after := WithOrder(records, kind, patientId, stamp, order);
      && LatestRecord(after, patientId).Some?
      && var k := LatestRecord(after, patientId).value;
      && after[k].id == RecordIdFor(records, patientId, stamp)
      && Coerce(after[k].medicalOrders) == (if LatestRecord(records, patientId).Some? then Coerce(records[k].medicalOrders) else []) + [order]
      && |after| >= |records|
      && forall j :: 0 <= j < |records| && j != k ==> after[j] == records[j]
  {
    var after := WithOrder(records, kind, patientId, stamp, order);
    match LatestRecord(records, patientId)
      case Some(k) =>
        LatestRecordOfUpdate(records, patientId, k, AppendOrder(records[k], order));
      case None =>
        assert after[|after| - 1].userId == patientId;
  }

  /** Replacing the latest record of a patient by a record of the same
      patient keeps it the latest. */
  lemma {:induction false} LatestRecordOfUpdate(records: seq<MedicalRecord>, patientId: int, k: nat, rec: MedicalRecord)
    requires LatestRecord(records, patientId) == Some(k) && rec.userId == patientId
    ensures LatestRecord(records[k := rec], patientId) == Some(k)
  {
    if k != |records| - 1 {
      var n := |records| - 1;
      assert records[k := rec][..n] == records[..n][k := rec];
      LatestRecordOfUpdate(records[..n], patientId, k, rec);
    }
  }

  // ---------------------------------------------------------------------
  // Enrichment

  /** A test already named, other than with the placeholder name. */
  predicate HasRealName(t: OrderTest) {
    t.name != "" && t.name != "Examen sin nombre"
  }

  function EnrichTest(isLaboratory: bool, t: OrderTest, labCatalog: seq<ExamType>, radiologyCatalog: seq<ExamType>): (r: OrderTest)
    ensures HasRealName(t) ==> r == t
    ensures !HasRealName(t) && t.testCode == "" && t.code == "" ==> r == t.(name := "Examen sin código")
    ensures var code := if t.testCode != "" then t.testCode else t.code;
      var catalog := if isLaboratory then labCatalog else radiologyCatalog;
      !HasRealName(t) && code != "" && CatalogFind(catalog, code).Some? ==>
        var e := CatalogFind(catalog, code).value;
        r == t.(name := e.name, description := if e.description != "" then e.description else t.description)
    ensures var code := if t.testCode != "" then t.testCode else t.code;
      var catalog := if isLaboratory then labCatalog else radiologyCatalog;
      !HasRealName(t) && code != "" && (forall e :: e in catalog ==> e.code != code) ==>
        r == t.(name := "Examen " + code)
    ensures r.id == t.id && r.testCode == t.testCode && r.code == t.code && r.status == t.status
  {
    if HasRealName(t) then t
    else
      var code := if t.testCode != "" then t.testCode else t.code;
      if code == "" then t.(name := "Examen sin código")
      else match CatalogFind(if isLaboratory then labCatalog else radiologyCatalog, code)
        case Some(e) => t.(name := e.name, description := if e.description != "" then e.description else t.description)
        case None => t.(name := "Examen " + code)
  }

  function EnrichTests(isLaboratory: bool, ts: seq<OrderTest>, labCatalog: seq<ExamType>, radiologyCatalog: seq<ExamType>): (r: seq<OrderTest>)
    ensures |r| == |ts|
    ensures forall i :: 0 <= i < |ts| ==> r[i] == EnrichTest(isLaboratory, ts[i], labCatalog, radiologyCatalog)
  {
    if ts == [] then []
    else (EnrichTests(isLaboratory, ts[..|ts| - 1], labCatalog, radiologyCatalog)
          + [EnrichTest(isLaboratory, ts[|ts| - 1], labCatalog, radiologyCatalog)])
  }

  /** `enrichOrderTests(order)`. */
  function EnrichedOrder(order: MedicalOrder, labCatalog: seq<ExamType>, radiologyCatalog: seq<ExamType>): (r: MedicalOrder)
    ensures |order.tests| == 0 ==> r == order
    ensures r == order.(tests := r.tests) && |r.tests| == |order.tests|
    ensures forall i :: 0 <= i < |order.tests| && HasRealName(order.tests[i]) ==> r.tests[i] == order.tests[i]
    ensures forall i :: 0 <= i < |order.tests| ==> r.tests[i].testCode == order.tests[i].testCode && r.tests[i].id == order.tests[i].id
    ensures forall i :: 0 <= i < |order.tests| ==>
      r.tests[i] == EnrichTest(order.kind == "laboratory", order.tests[i], labCatalog, radiologyCatalog)
  {
    if |order.tests| == 0 then order
    else order.(tests := EnrichTests(order.kind == "laboratory", order.tests, labCatalog, radiologyCatalog))
  }

  /** A second enrichment of a test changes nothing: a test named by the
      first pass is kept, and the only unreal name the first pass can give
      ("Examen sin nombre", for the code "sin nombre") is rebuilt as is. */
  lemma EnrichTestIdempotent(isLaboratory: bool, t: OrderTest, labCatalog: seq<ExamType>, radiologyCatalog: seq<ExamType>)
    ensures var once := EnrichTest(isLaboratory, t, labCatalog, radiologyCatalog);
      EnrichTest(isLaboratory, once, labCatalog, radiologyCatalog) == once
  {
  }

  lemma EnrichIdempotent(order: MedicalOrder, labCatalog: seq<ExamType>, radiologyCatalog: seq<ExamType>)
    ensures EnrichedOrder(EnrichedOrder(order, labCatalog, radiologyCatalog), labCatalog, radiologyCatalog)
         == EnrichedOrder(order, labCatalog, radiologyCatalog)
  {
    var once := EnrichedOrder(order, labCatalog, radiologyCatalog);
    if |order.tests| > 0 {
      var isLab := order.kind == "laboratory";
      var twice := EnrichedOrder(once, labCatalog, radiologyCatalog);
      forall i | 0 <= i < |once.tests| ensures twice.tests[i] == once.tests[i] {
        EnrichTestIdempotent(isLab, order.tests[i], labCatalog, radiologyCatalog);
      }
    }
  }

  /** A listed order with its tests enriched. */
  function EnrichedListed(x: ListedOrder, labCatalog: seq<ExamType>, radiologyCatalog: seq<ExamType>): ListedOrder {
    ListedOrder(EnrichedOrder(x.order, labCatalog, radiologyCatalog), x.medicalRecordId)
  }

  function EnrichedAll(xs: seq<ListedOrder>, labCatalog: seq<ExamType>, radiologyCatalog: seq<ExamType>): (r: seq<ListedOrder>)
    ensures |r| == |xs|
    ensures forall i :: 0 <= i < |xs| ==> r[i] == EnrichedListed(xs[i], labCatalog, radiologyCatalog)
  {
    if xs == [] then []
    else EnrichedAll(xs[..|xs| - 1], labCatalog, radiologyCatalog) + [EnrichedListed(xs[|xs| - 1], labCatalog, radiologyCatalog)]
  }

  // ---------------------------------------------------------------------
  // Finding an order

  /** The first table row whose order has the id. */
  function FindRow(table: seq<TableRow>, orderId: nat): (r: Option<TableRow>)
    ensures r.Some? ==> r.value in table && r.value.order.id == orderId
    ensures r.None? ==> forall row :: row in table ==> row.order.id != orderId
  {
    if table == [] then None
    else if table[0].order.id == orderId then Some(table[0])
    else FindRow(table[1..], orderId)
  }

  /** `orders.find(o => String(o.id) === String(orderId))`. */
  function FindOrder(orders: seq<MedicalOrder>, orderId: nat): (r: Option<MedicalOrder>)
    ensures r.Some? ==> r.value in orders && r.value.id == orderId
    ensures r.None? ==> forall o :: o in orders ==> o.id != orderId
  {
    if orders == [] then None
    else if orders[0].id == orderId then Some(orders[0])
    else
      FindOrder(orders[1..], orderId)
  }

  /** The order found is the first with the id, as `find` returns it. */
  lemma {:induction false} FindOrderIsFirst(orders: seq<MedicalOrder>, orderId: nat)
    ensures FindOrder(orders, orderId).Some? ==>
      exists i :: 0 <= i < |orders| && orders[i] == FindOrder(orders, orderId).value
        && forall j :: 0 <= j < i ==> orders[j].id != orderId
  {
    if orders != [] && orders[0].id != orderId {
      var rest := FindOrder(orders[1..], orderId);
      FindOrderIsFirst(orders[1..], orderId);
      if rest.Some? {
        var i :| 0 <= i < |orders[1..]| && orders[1..][i] == rest.value && forall j :: 0 <= j < i ==> orders[1..][j].id != orderId;
        assert orders[i + 1] == rest.value && forall j :: 0 <= j < i + 1 ==> orders[j].id != orderId;
      }
    }
  }

  /** The index of the first record, at or after `from`, whose list holds
      the id. */
  function FirstRecordWith(records: seq<MedicalRecord>, orderId: nat, from: nat): (r: Option<nat>)
    requires from <= |records|
    ensures r.Some? ==> from <= r.value < |records| && FindOrder(Coerce(records[r.value].medicalOrders), orderId).Some?
    ensures r.Some? ==> forall j :: from <= j < r.value ==> FindOrder(Coerce(records[j].medicalOrders), orderId).None?
    ensures r.None? ==> forall j :: from <= j < |records| ==> FindOrder(Coerce(records[j].medicalOrders), orderId).None?
    decreases |records| - from
  {
    if from == |records| then None
    else if FindOrder(Coerce(records[from].medicalOrders), orderId).Some? then Some(from)
    else FirstRecordWith(records, orderId, from + 1)
  }

  /** The JSON search: the first record holding the id, and its first
      order with that id. */
  function FindInRecords(records: seq<MedicalRecord>, orderId: nat): (r: Option<FoundOrder>)
    ensures r.Some? ==> exists k :: (0 <= k < |records|
      && FindOrder(Coerce(records[k].medicalOrders), orderId).Some?
      && r.value == FoundOrder(FindOrder(Coerce(records[k].medicalOrders), orderId).value, records[k].id, records[k].userId)
      && forall j :: 0 <= j < k ==> FindOrder(Coerce(records[j].medicalOrders), orderId).None?)
    ensures r.None? ==> forall k :: 0 <= k < |records| ==> FindOrder(Coerce(records[k].medicalOrders), orderId).None?
  {
    match FirstRecordWith(records, orderId, 0)
      case None => None
      case Some(k) =>
        Some(FoundOrder(FindOrder(Coerce(records[k].medicalOrders), orderId).value, records[k].id, records[k].userId))
  }

  // ---------------------------------------------------------------------
  // Listings

  /** The sort key: `createdAt`, 0 when missing. */
  function Key(x: ListedOrder): int { x.order.createdAt }

  predicate NewestFirst(s: seq<ListedOrder>) {
    forall i, j :: 0 <= i < j < |s| ==> Key(s[i]) >= Key(s[j])
  }

  /** The orders of `s` whose sort key is `k`, in their order in `s`. */
  function WithKey(s: seq<ListedOrder>, k: int): seq<ListedOrder> {
    if s == [] then []
    else WithKey(s[..|s| - 1], k) + (if Key(s[|s| - 1]) == k then [s[|s| - 1]] else [])
  }

  /** Every key's orders come in the same order in `s` and in `t`. */
  ghost predicate SameKeyOrder(s: seq<ListedOrder>, t: seq<ListedOrder>) {
    forall k :: WithKey(s, k) == WithKey(t, k)
  }

  /** `s` is `all` rearranged newest first by a stable sort: orders with
      the same key keep the order they have in `all`. */
  ghost predicate IsNewestFirstArrangement(s: seq<ListedOrder>, all: seq<ListedOrder>) {
    && multiset(s) == multiset(all)
    && NewestFirst(s)
    && SameKeyOrder(s, all)
  }

  /** The orders of one record, as the fallback pushes them. */
  function RecordOrders(rec: MedicalRecord, os: seq<MedicalOrder>, kind: string): (r: seq<ListedOrder>)
    ensures |r| <= |os|
    ensures forall i :: 0 <= i < |r| ==> r[i].medicalRecordId == rec.id && r[i].order.patientId == rec.userId
    ensures forall i :: 0 <= i < |r| ==> kind == "" || r[i].order.kind == kind
  {
    if os == [] then []
    else
      var o := os[|os| - 1];
      RecordOrders(rec, os[..|os| - 1], kind)
      + (if kind != "" && o.kind != kind then [] else [ListedOrder(o.(patientId := rec.userId), rec.id)])
  }

  /** All orders of the records, in record order, filtered by type. */
  function Collected(recs: seq<MedicalRecord>, kind: string): (r: seq<ListedOrder>)
    ensures forall i :: 0 <= i < |r| ==> kind == "" || r[i].order.kind == kind
  {
    if recs == [] then []
    else
      var rec := recs[|recs| - 1];
      Collected(recs[..|recs| - 1], kind) + RecordOrders(rec, Coerce(rec.medicalOrders), kind)
  }

  /** Every order of the list that has the requested type is pushed. */
  lemma {:induction false} RecordOrdersComplete(rec: MedicalRecord, os: seq<MedicalOrder>, kind: string)
    ensures forall o :: o in os && (kind == "" || o.kind == kind) ==>
      ListedOrder(o.(patientId := rec.userId), rec.id) in RecordOrders(rec, os, kind)
  {
    if os != [] {
      RecordOrdersComplete(rec, os[..|os| - 1], kind);
      assert forall o :: o in os ==> o == os[|os| - 1] || o in os[..|os| - 1];
    }
  }

  /** Every order of the requested type in any of the records is collected. */
  lemma {:induction false} CollectedComplete(recs: seq<MedicalRecord>, kind: string)
    ensures forall k, o :: 0 <= k < |recs| && o in Coerce(recs[k].medicalOrders) && (kind == "" || o.kind == kind) ==>
      ListedOrder(o.(patientId := recs[k].userId), recs[k].id) in Collected(recs, kind)
  {
    if recs != [] {
      var n := |recs| - 1;
      var before, last := Collected(recs[..n], kind), RecordOrders(recs[n], Coerce(recs[n].medicalOrders), kind);
      assert Collected(recs, kind) == before + last;
      CollectedComplete(recs[..n], kind);
      RecordOrdersComplete(recs[n], Coerce(recs[n].medicalOrders), kind);
      forall k, o | 0 <= k < |recs| && o in Coerce(recs[k].medicalOrders) && (kind == "" || o.kind == kind)
        ensures ListedOrder(o.(patientId := recs[k].userId), recs[k].id) in before + last
      {
        if k < n {
          assert recs[k] == recs[..n][k];
        }
      }
    }
  }

  /** The records a fallback reads, `orderBy createdAt desc`, optionally of
      one patient: every such record, read from the newest. */
  function RecordsNewestFirst(records: seq<MedicalRecord>, patient: Option<int>): (r: seq<MedicalRecord>)
    ensures forall i :: 0 <= i < |r| ==> r[i] in records
    ensures patient.Some? ==> forall i :: 0 <= i < |r| ==> r[i].userId == patient.value
  {
    if records == [] then []
    else
      var last := records[|records| - 1];
      var rest := RecordsNewestFirst(records[..|records| - 1], patient);
      (if patient.None? || last.userId == patient.value then [last] else []) + rest
  }

  /** No record of the patient (of anyone, with no patient) is left out. */
  lemma {:induction false} RecordsNewestFirstIsComplete(records: seq<MedicalRecord>, patient: Option<int>)
    ensures forall rec :: rec in records && (patient.None? || rec.userId == patient.value) ==>
      rec in RecordsNewestFirst(records, patient)
  {
    if records != [] {
      var last := records[|records| - 1];
      RecordsNewestFirstIsComplete(records[..|records| - 1], patient);
      assert forall rec :: rec in records ==> rec == last || rec in records[..|records| - 1];
    }
  }

  /** Records in strictly decreasing `createdAt` order. */
  predicate RecordsStrictlyNewestFirst(records: seq<MedicalRecord>) {
    forall i, j :: 0 <= i < j < |records| ==> records[i].createdAt > records[j].createdAt
  }

  /** Records in strictly increasing `createdAt` order, as they are written. */
  predicate RecordsInCreationOrder(records: seq<MedicalRecord>) {
    forall i, j :: 0 <= i < j < |records| ==> records[i].createdAt < records[j].createdAt
  }

  /** Rows in strictly decreasing `createdAt` order. */
  predicate StrictlyNewestFirst(rows: seq<TableRow>) {
    forall i, j :: 0 <= i < j < |rows| ==> rows[i].createdAt > rows[j].createdAt
  }

  /** Rows in strictly increasing `createdAt` order, as the table is written. */
  predicate InCreationOrder(rows: seq<TableRow>) {
    forall i, j :: 0 <= i < j < |rows| ==> rows[i].createdAt < rows[j].createdAt
  }

  /** The table rows a query selects, `orderBy createdAt desc`: read
      backwards, the table written in creation order comes out newest first. */
  function RowsNewestFirst(table: seq<TableRow>, patient: Option<int>, kind: string): (r: seq<TableRow>)
    ensures forall i :: 0 <= i < |r| ==> r[i] in table
    ensures forall i :: 0 <= i < |r| ==> (patient.None? || r[i].order.patientId == patient.value) && (kind == "" || r[i].order.kind == kind)
    ensures forall row :: row in table && (patient.None? || row.order.patientId == patient.value) && (kind == "" || row.order.kind == kind) ==> row in r
  {
    if table == [] then []
    else
      var n := |table| - 1;
      var last := table[n];
      var rest := RowsNewestFirst(table[..n], patient, kind);
      var head := if (patient.None? || last.order.patientId == patient.value) && (kind == "" || last.order.kind == kind) then [last] else [];
      assert forall row :: row in table ==> row == last || row in table[..n];
      head + rest
  }

  function Listed(rows: seq<TableRow>): (r: seq<ListedOrder>)
    ensures |r| == |rows|
    ensures forall i :: 0 <= i < |rows| ==> r[i] == ListedOrder(rows[i].order, rows[i].medicalRecordId)
  {
    if rows == [] then [] else Listed(rows[..|rows| - 1]) + [ListedOrder(rows[|rows| - 1].order, rows[|rows| - 1].medicalRecordId)]
  }

  /** `opts.limit ? Number(opts.limit) : 50` and `opts.offset ? Number(opts.offset) : 0`. */
  datatype ListOptions = ListOptions(limit: nat, offset: nat, kind: string)

  function EffectiveLimit(opts: ListOptions): nat { if opts.limit != 0 then opts.limit else 50 }

  // ---------------------------------------------------------------------
  // Sorting (the in-place `allOrders.sort`)

  /** `s` with its neighbours at `j - 1` and `j` exchanged. */
  function Swapped(s: seq<ListedOrder>, j: nat): (r: seq<ListedOrder>)
    requires 0 < j < |s|
    ensures |r| == |s| && r[j - 1] == s[j] && r[j] == s[j - 1]
    ensures forall m :: 0 <= m < |s| && m != j - 1 && m != j ==> r[m] == s[m]
    ensures multiset(r) == multiset(s)
  {
    assert s == s[..j - 1] + [s[j - 1], s[j]] + s[j + 1..];
    s[..j - 1] + [s[j], s[j - 1]] + s[j + 1..]
  }

  /** `s[..i + 1]` is newest first except that `s[j]` may be newer than
      the orders before it; it is newer than every order after it. */
  predicate NewestFirstBut(s: seq<ListedOrder>, i: nat, j: nat)
    requires j <= i < |s|
  {
    && (forall p, q :: 0 <= p < q <= i && p != j && q != j ==> Key(s[p]) >= Key(s[q]))
    && (forall q :: j < q <= i ==> Key(s[j]) > Key(s[q]))
  }

  /** Exchanges the neighbours at `j - 1` and `j`. */
  method Exchange(a: array<ListedOrder>, j: nat)
    requires 0 < j < a.Length
    modifies a
    ensures a[..] == Swapped(old(a[..]), j)
  {
    a[j - 1], a[j] := a[j], a[j - 1];
  }

  /** Moves `a[i]` left past every element older than it, so that
      `a[..i + 1]` is newest first; it stops at an order of the same key,
      so orders of equal key keep their order. */
  method InsertLast(a: array<ListedOrder>, i: nat)
    requires 0 < i < a.Length
    requires NewestFirst(a[..i])
    modifies a
    ensures NewestFirst(a[..i + 1])
    ensures multiset(a[..]) == old(multiset(a[..]))
    ensures SameKeyOrder(a[..], old(a[..]))
  {
    var j := i;
    NewestFirstButLast(a[..], i);
    while j > 0 && Key(a[j - 1]) < Key(a[j])
      invariant 0 <= j <= i
      invariant NewestFirstBut(a[..], i, j)
      invariant multiset(a[..]) == multiset(old(a[..]))
      invariant SameKeyOrder(a[..], old(a[..]))
    {
      InsertStep(a[..], i, j, old(a[..]));
      Exchange(a, j);
      j := j - 1;
    }
    NewestFirstButSettled(a[..], i, j);
  }

  /** `allOrders.sort((a, b) => tb - ta)`: newest first, a permutation, and
      stable, as `Array.prototype.sort` is. */
  method SortNewestFirst(a: array<ListedOrder>)
    modifies a
    ensures IsNewestFirstArrangement(a[..], old(a[..]))
  {
    if a.Length == 0 {
      return;
    }
    var i := 1;
    while i < a.Length
      invariant 1 <= i <= a.Length
      invariant NewestFirst(a[..i])
      invariant multiset(a[..]) == old(multiset(a[..]))
      invariant SameKeyOrder(a[..], old(a[..]))
    {
      InsertLast(a, i);
      i := i + 1;
    }
    assert a[..a.Length] == a[..];
  }

  /** The loop of order creation over `requestedTests`, each test taking
      the next id. */
  method BuildTestsFrom(kind: OrderKind, requested: seq<TestRequest>, catalog: seq<ExamType>, firstId: nat, now: int)
    returns (enrichedTests: seq<OrderTest>)
    ensures enrichedTests == BuildTests(kind, requested, catalog, firstId, now)
  {
    enrichedTests := [];
    var id := firstId;
    for n := 0 to |requested|
      invariant enrichedTests == BuildTests(kind, requested[..n], catalog, firstId, now)
      invariant id == firstId + n
    {
      assert requested[..n + 1][..n] == requested[..n];
      enrichedTests := enrichedTests + [BuildTest(kind, requested[n], catalog, id, now)];
      id := id + 1;
    }
    assert requested[..|requested|] == requested;
  }

  // ---------------------------------------------------------------------
  // The service

  class MedicalOrderService {
    var users: set<int>
    var records: seq<MedicalRecord>
    var table: seq<TableRow>
    var tableAvailable: bool
    var labCatalog: seq<ExamType>
    var radiologyCatalog: seq<ExamType>
    var nextId: nat

    /** Records and table rows in creation order, stamped from the counter. */
    ghost predicate Valid()
      reads this
    {
      && (forall i :: 0 <= i < |records| ==> records[i].id < nextId && records[i].createdAt < nextId)
      && (forall i, j :: 0 <= i < j < |records| ==> records[i].id < records[j].id && records[i].createdAt < records[j].createdAt)
      && (forall i :: 0 <= i < |table| ==> table[i].createdAt < nextId)
      && (forall i, j :: 0 <= i < j < |table| ==> table[i].createdAt < table[j].createdAt)
    }

    constructor (users: set<int>, tableAvailable: bool, labCatalog: seq<ExamType>, radiologyCatalog: seq<ExamType>)
      ensures Valid()
      ensures this.users == users && this.tableAvailable == tableAvailable
      ensures this.labCatalog == labCatalog && this.radiologyCatalog == radiologyCatalog
      ensures records == [] && table == [] && nextId == 1
    {
      this.users := users;
      this.tableAvailable := tableAvailable;
      this.labCatalog := labCatalog;
      this.radiologyCatalog := radiologyCatalog;
      records := [];
      table := [];
      nextId := 1;
    }

    function Catalog(kind: OrderKind): seq<ExamType>
      reads this
    {
      if kind == Laboratory then labCatalog else radiologyCatalog
    }

    /** The patient's latest record, created with the next id when the
        patient has none; its index. */
    method OpenRecord(kind: OrderKind, patientId: int) returns (k: nat)
      requires Valid()
      modifies this
      ensures Valid()
      ensures users == old(users) && tableAvailable == old(tableAvailable) && table == old(table)
      ensures labCatalog == old(labCatalog) && radiologyCatalog == old(radiologyCatalog)
      ensures var latest := LatestRecord(old(records), patientId);
        if latest.Some? then records == old(records) && k == latest.value && nextId == old(nextId)
        else records == old(records) + [AutoRecord(kind, patientId, old(nextId))] && k == |old(records)| && nextId == old(nextId) + 1
      ensures k < |records|
    {
      var latest := LatestRecord(records, patientId);
      if latest.Some? {
        k := latest.value;
      } else {
        records := records + [AutoRecord(kind, patientId, nextId)];
        k := |records| - 1;
        nextId := nextId + 1;
      }
    }

    /** Appends the order to record `k`'s list and, when the table exists,
        writes its row stamped with the next id. */
    method StoreOrder(k: nat, order: MedicalOrder)
      requires Valid() && k < |records|
      modifies this
      ensures Valid()
      ensures users == old(users) && tableAvailable == old(tableAvailable)
      ensures labCatalog == old(labCatalog) && radiologyCatalog == old(radiologyCatalog)
      ensures records == old(records)[k := AppendOrder(old(records)[k], order)]
      ensures table == old(table) + (if tableAvailable then [TableRow(order, old(records)[k].id, old(nextId))] else [])
      ensures nextId == (if tableAvailable then old(nextId) + 1 else old(nextId))
    {
      records := records[k := AppendOrder(records[k], order)];
      if tableAvailable {
        table := table + [TableRow(order, records[k].id, nextId)];
        nextId := nextId + 1;
      }
    }

    /** The new order, taking the next id for itself and one for each test. */
    method PrepareOrder(kind: OrderKind, req: OrderRequest, ctxUserId: int, now: int) returns (order: MedicalOrder)
      requires Valid()
      modifies this
      ensures Valid()
      ensures users == old(users) && tableAvailable == old(tableAvailable) && table == old(table) && records == old(records)
      ensures labCatalog == old(labCatalog) && radiologyCatalog == old(radiologyCatalog)
      ensures order == NewOrder(kind, req, ctxUserId, old(nextId), BuildTests(kind, Requested(req), Catalog(kind), old(nextId) + 1, now), now)
      ensures nextId == old(nextId) + 1 + |Requested(req)|
    {
      var orderId := nextId;
      nextId := nextId + 1;
      var enrichedTests := BuildTestsFrom(kind, Requested(req), Catalog(kind), nextId, now);
      nextId := nextId + |enrichedTests|;
      order := NewOrder(kind, req, ctxUserId, orderId, enrichedTests, now);
    }

    /** Order creation once the patient is known. */
    method PlaceOrder(kind: OrderKind, req: OrderRequest, ctxUserId: int, now: int) returns (order: MedicalOrder)
      requires Valid()
      modifies this
      ensures Valid()
      ensures users == old(users) && tableAvailable == old(tableAvailable)
      ensures labCatalog == old(labCatalog) && radiologyCatalog == old(radiologyCatalog)
      ensures
        var orderId := old(nextId) + (if LatestRecord(old(records), req.patientId).Some? then 0 else 1);
        var stamp := orderId + 1 + |Requested(req)|;
        && order == NewOrder(kind, req, ctxUserId, orderId, BuildTests(kind, Requested(req), Catalog(kind), orderId + 1, now), now)
        && records == WithOrder(old(records), kind, req.patientId, old(nextId), order)
        && table == old(table) + (if tableAvailable then [TableRow(order, RecordIdFor(old(records), req.patientId, old(nextId)), stamp)] else [])
        && nextId == (if tableAvailable then stamp + 1 else stamp)
    {
      var k := OpenRecord(kind, req.patientId);
      ghost var withRecord := records;
      order := PrepareOrder(kind, req, ctxUserId, now);
      StoreOrder(k, order);
      assert k == |old(records)| ==> withRecord[k := AppendOrder(withRecord[k], order)] == old(records) + [AppendOrder(withRecord[k], order)];
    }

    /** `createLaboratoryOrder` / `createRadiologyOrder`: patient id,
        patient, the latest record (created when missing), the tests, the
        new order appended to the record's list and, when the table
        exists, one table row. */
    method CreateOrder(kind: OrderKind, req: OrderRequest, ctxUserId: int, now: int)
      returns (r: Result<MedicalOrder, OrderError>)
      requires Valid()
      modifies this
      ensures Valid()
      ensures users == old(users) && tableAvailable == old(tableAvailable)
      ensures labCatalog == old(labCatalog) && radiologyCatalog == old(radiologyCatalog)
      ensures r.Err? ==> records == old(records) && table == old(table) && nextId == old(nextId)
      ensures req.patientId == 0 ==> r == Err(MissingPatientId)
      ensures req.patientId != 0 && req.patientId !in users ==> r == Err(PatientNotFound)
      ensures req.patientId != 0 && req.patientId in users ==> r.Ok?
      ensures r.Ok? ==>
        var orderId := old(nextId) + (if LatestRecord(old(records), req.patientId).Some? then 0 else 1);
        var stamp := orderId + 1 + |Requested(req)|;
        && r.value == NewOrder(kind, req, ctxUserId, orderId, BuildTests(kind, Requested(req), Catalog(kind), orderId + 1, now), now)
        && records == WithOrder(old(records), kind, req.patientId, old(nextId), r.value)
        && table == old(table) + (if tableAvailable then [TableRow(r.value, RecordIdFor(old(records), req.patientId, old(nextId)), stamp)] else [])
        && nextId == (if tableAvailable then stamp + 1 else stamp)
    {
      if req.patientId == 0 {
        return Err(MissingPatientId);
      }
      if req.patientId !in users {
        return Err(PatientNotFound);
      }
      var newOrder := PlaceOrder(kind, req, ctxUserId, now);
      r := Ok(newOrder);
    }

    /** `getOrderById(orderId)`: the table first, then the JSON lists. */
    function GetOrderById(orderId: nat): (r: Result<FoundOrder, OrderError>)
      reads this
      ensures orderId == 0 ==> r == Err(MissingOrderId)
      ensures orderId != 0 && tableAvailable && FindRow(table, orderId).Some? ==>
        var row := FindRow(table, orderId).value;
        r == Ok(FoundOrder(row.order, row.medicalRecordId, row.order.patientId))
      ensures orderId != 0 && (!tableAvailable || FindRow(table, orderId).None?) ==>
        r == (if FindInRecords(records, orderId).Some? then Ok(FindInRecords(records, orderId).value) else Err(OrderNotFound))
      ensures r.Err? && orderId != 0 ==>
        r == Err(OrderNotFound)
        && (forall k :: 0 <= k < |records| ==> forall o :: o in Coerce(records[k].medicalOrders) ==> o.id != orderId)
    {
      if orderId == 0 then Err(MissingOrderId)
      else if tableAvailable && FindRow(table, orderId).Some? then
        var row := FindRow(table, orderId).value;
        Ok(FoundOrder(row.order, row.medicalRecordId, row.order.patientId))
      else
        match FindInRecords(records, orderId)
          case Some(found) => Ok(found)
          case None => Err(OrderNotFound)
    }

    /** The body of the loop over an order's tests. */
    method EnrichOneTest(isLaboratory: bool, test: OrderTest) returns (r: OrderTest)
      ensures r == EnrichTest(isLaboratory, test, labCatalog, radiologyCatalog)
    {
      if HasRealName(test) {
        return test;
      }
      var testCode := if test.testCode != "" then test.testCode else test.code;
      if testCode == "" {
        return test.(name := "Examen sin código");
      }
      var examType := CatalogFind(if isLaboratory then labCatalog else radiologyCatalog, testCode);
      if examType.Some? {
        var e := examType.value;
        r := test.(name := e.name, description := if e.description != "" then e.description else test.description);
      } else {
        r := test.(name := "Examen " + testCode);
      }
    }

    /** `enrichOrderTests(order)`, with the loop over its tests. */
    method EnrichOrderTests(order: MedicalOrder) returns (r: MedicalOrder)
      ensures r == EnrichedOrder(order, labCatalog, radiologyCatalog)
    {
      if |order.tests| == 0 {
        return order;
      }
      var isLaboratory := order.kind == "laboratory";
      var enrichedTests: seq<OrderTest> := [];
      for n := 0 to |order.tests|
        invariant enrichedTests == EnrichTests(isLaboratory, order.tests[..n], labCatalog, radiologyCatalog)
      {
        assert order.tests[..n + 1][..n] == order.tests[..n];
        var enriched := EnrichOneTest(isLaboratory, order.tests[n]);
        enrichedTests := enrichedTests + [enriched];
      }
      assert order.tests[..|order.tests|] == order.tests;
      r := order.(tests := enrichedTests);
    }

    /** `Promise.all(orders.map(enrichOrderTests))`. */
    method EnrichAll(xs: seq<ListedOrder>) returns (r: seq<ListedOrder>)
      ensures r == EnrichedAll(xs, labCatalog, radiologyCatalog)
    {
      r := [];
      for n := 0 to |xs|
        invariant r == EnrichedAll(xs[..n], labCatalog, radiologyCatalog)
      {
        assert xs[..n + 1][..n] == xs[..n];
        var enriched := EnrichOrderTests(xs[n].order);
        r := r + [ListedOrder(enriched, xs[n].medicalRecordId)];
      }
      assert xs[..|xs|] == xs;
    }

    /** The two loops over the records that push into `allOrders`. */
    method CollectOrders(recs: seq<MedicalRecord>, kind: string) returns (allOrders: seq<ListedOrder>)
      ensures allOrders == Collected(recs, kind)
    {
      allOrders := [];
      for n := 0 to |recs|
        invariant allOrders == Collected(recs[..n], kind)
      {
        assert recs[..n + 1][..n] == recs[..n];
        allOrders := PushRecordOrders(allOrders, recs[n], kind);
      }
      assert recs[..|recs|] == recs;
    }

    /** The inner loop: pushes the orders of one record that have the type. */
    method PushRecordOrders(allOrders: seq<ListedOrder>, rec: MedicalRecord, kind: string) returns (r: seq<ListedOrder>)
      ensures r == allOrders + RecordOrders(rec, Coerce(rec.medicalOrders), kind)
    {
      r := allOrders;
      var orders := Coerce(rec.medicalOrders);
      for m := 0 to |orders|
        invariant r == allOrders + RecordOrders(rec, orders[..m], kind)
      {
        assert orders[..m + 1][..m] == orders[..m];
        var o := orders[m];
        if kind != "" && o.kind != kind {
          continue;
        }
        r := r + [ListedOrder(o.(patientId := rec.userId), rec.id)];
      }
      assert orders[..|orders|] == orders;
    }

    /** The JSON fallback: collect, sort newest first, page. The sort is
        stable, so by ArrangementIsUnique the page is fully determined. */
    method Fallback(patient: Option<int>, kind: string, offset: nat, limit: nat) returns (paged: seq<ListedOrder>)
      ensures |paged| <= limit
      ensures exists s :: IsNewestFirstArrangement(s, Collected(RecordsNewestFirst(records, patient), kind))
                          && paged == Paging.Page(s, offset, limit)
    {
      var allOrders := CollectOrders(RecordsNewestFirst(records, patient), kind);
      var a := new ListedOrder[|allOrders|](i requires 0 <= i < |allOrders| => allOrders[i]);
      assert a[..] == allOrders;
      SortNewestFirst(a);
      var sorted := a[..];
      assert IsNewestFirstArrangement(sorted, allOrders);
      paged := Paging.Page(sorted, offset, limit);
    }

    /** `getAllOrders(opts)`: a non-empty table page if there is one,
        otherwise the JSON fallback; the orders' tests then enriched. */
    method GetAllOrders(opts: ListOptions) returns (r: seq<ListedOrder>)
      ensures |r| <= EffectiveLimit(opts)
      ensures
        var rows := Paging.Page(RowsNewestFirst(table, None, opts.kind), opts.offset, EffectiveLimit(opts));
        if tableAvailable && |rows| > 0 then r == EnrichedAll(Listed(rows), labCatalog, radiologyCatalog)
        else exists s :: IsNewestFirstArrangement(s, Collected(RecordsNewestFirst(records, None), opts.kind))
                        && r == EnrichedAll(Paging.Page(s, opts.offset, EffectiveLimit(opts)), labCatalog, radiologyCatalog)
    {
      var limit := EffectiveLimit(opts);
      var offset := opts.offset;
      if tableAvailable {
        var rows := Paging.Page(RowsNewestFirst(table, None, opts.kind), offset, limit);
        if |rows| > 0 {
          r := EnrichAll(Listed(rows));
          return;
        }
      }
      var paged := Fallback(None, opts.kind, offset, limit);
      r := EnrichAll(paged);
    }

    /** `getOrdersByPatient(patientId, opts)` as written: the JSON fallback
        is computed and sorted, but no value is returned from it. */
    method GetOrdersByPatientAsWritten(patientId: int, opts: ListOptions) returns (r: Result<Option<seq<ListedOrder>>, OrderError>)
      ensures patientId == 0 ==> r == Err(MissingPatientId)
      ensures patientId != 0 ==>
        var rows := Paging.Page(RowsNewestFirst(table, Some(patientId), ""), opts.offset, EffectiveLimit(opts));
        if tableAvailable && |rows| > 0 then r == Ok(Some(EnrichedAll(Listed(rows), labCatalog, radiologyCatalog)))
        else r == Ok(None)
    {
      if patientId == 0 {
        return Err(MissingPatientId);
      }
      var limit := EffectiveLimit(opts);
      var offset := opts.offset;
      if tableAvailable {
        var rows := Paging.Page(RowsNewestFirst(table, Some(patientId), ""), offset, limit);
        if |rows| > 0 {
          var enriched := EnrichAll(Listed(rows));
          return Ok(Some(enriched));
        }
      }
      var allOrders := CollectOrders(RecordsNewestFirst(records, Some(patientId)), "");
      var a := new ListedOrder[|allOrders|](i requires 0 <= i < |allOrders| => allOrders[i]);
      SortNewestFirst(a);
      r := Ok(None);
    }

    /** `getOrdersByPatient` with the fallback paged and returned like
        `getAllOrders`: every listed order belongs to the patient. */
    method GetOrdersByPatient(patientId: int, opts: ListOptions) returns (r: Result<seq<ListedOrder>, OrderError>)
      ensures patientId == 0 ==> r == Err(MissingPatientId)
      ensures patientId != 0 ==> r.Ok? && |r.value| <= EffectiveLimit(opts)
      ensures patientId != 0 ==>
        var rows := Paging.Page(RowsNewestFirst(table, Some(patientId), ""), opts.offset, EffectiveLimit(opts));
        if tableAvailable && |rows| > 0 then r == Ok(EnrichedAll(Listed(rows), labCatalog, radiologyCatalog))
        else exists s :: IsNewestFirstArrangement(s, Collected(RecordsNewestFirst(records, Some(patientId)), ""))
                        && r == Ok(EnrichedAll(Paging.Page(s, opts.offset, EffectiveLimit(opts)), labCatalog, radiologyCatalog))
    {
      if patientId == 0 {
        return Err(MissingPatientId);
      }
      var limit := EffectiveLimit(opts);
      var offset := opts.offset;
      if tableAvailable {
        var rows := Paging.Page(RowsNewestFirst(table, Some(patientId), ""), offset, limit);
        if |rows| > 0 {
          var enriched := EnrichAll(Listed(rows));
          return Ok(enriched);
        }
      }
      var paged := Fallback(Some(patientId), "", offset, limit);
      var enriched := EnrichAll(paged);
      r := Ok(enriched);
    }
  }

  // ---------------------------------------------------------------------
  // Properties of the listings

  /** Every order the patient fallback collects belongs to that patient. */
  lemma {:induction false} PatientFallbackIsThePatients(records: seq<MedicalRecord>, patientId: int)
    ensures forall i :: 0 <= i < |Collected(RecordsNewestFirst(records, Some(patientId)), "")| ==>
      Collected(RecordsNewestFirst(records, Some(patientId)), "")[i].order.patientId == patientId
  {
    CollectedOfOwner(RecordsNewestFirst(records, Some(patientId)), patientId);
  }

  /** The orders the as-written `getOrdersByPatient` drops: with the table
      empty, a patient whose only record holds one order has that order
      collected by the fallback, yet the as-written listing yields no list. */
  lemma FallbackHasOrdersToReturn(o: MedicalOrder)
    ensures var rec := MedicalRecord(1, 5, "Control", 1, OrderList([o]));
      Collected(RecordsNewestFirst([rec], Some(5)), "") == [ListedOrder(o.(patientId := 5), 1)]
  {
    var rec := MedicalRecord(1, 5, "Control", 1, OrderList([o]));
    assert RecordsNewestFirst([rec], Some(5)) == [rec];
    assert [rec][..0] == [];
    assert RecordOrders(rec, [o], "") == [ListedOrder(o.(patientId := 5), 1)] by {
      assert [o][..0] == [];
    }
  }

  lemma {:induction false} CollectedOfOwner(recs: seq<MedicalRecord>, patientId: int)
    requires forall i :: 0 <= i < |recs| ==> recs[i].userId == patientId
    ensures forall i :: 0 <= i < |Collected(recs, "")| ==> Collected(recs, "")[i].order.patientId == patientId
  {
    if recs != [] {
      CollectedOfOwner(recs[..|recs| - 1], patientId);
    }
  }


  /** The table is written in creation order, so reading it backwards
      gives the `createdAt desc` order of the table query. */
  lemma {:induction false} RowsAreNewestFirst(table: seq<TableRow>, patient: Option<int>, kind: string)
    requires InCreationOrder(table)
    ensures StrictlyNewestFirst(RowsNewestFirst(table, patient, kind))
  {
    if table != [] {
      var n := |table| - 1;
      var last := table[n];
      RowsAreNewestFirst(table[..n], patient, kind);
      var rest := RowsNewestFirst(table[..n], patient, kind);
      forall x | x in rest ensures x.createdAt < last.createdAt {
        var i :| 0 <= i < n && table[..n][i] == x;
      }
      if (patient.None? || last.order.patientId == patient.value) && (kind == "" || last.order.kind == kind) {
        PrependNewer(last, rest);
      }
    }
  }

  /** The records are written in creation order, so reading them backwards
      gives the `createdAt desc` order the fallback's query asks for. */
  lemma {:induction false} RecordsAreNewestFirst(records: seq<MedicalRecord>, patient: Option<int>)
    requires RecordsInCreationOrder(records)
    ensures RecordsStrictlyNewestFirst(RecordsNewestFirst(records, patient))
  {
    if records != [] {
      var n := |records| - 1;
      var last := records[n];
      RecordsAreNewestFirst(records[..n], patient);
      var rest := RecordsNewestFirst(records[..n], patient);
      RecordsBelow(records[..n], patient, last.createdAt);
      if patient.None? || last.userId == patient.value {
        PrependNewerRecord(last, rest);
      } else {
        assert [] + rest == rest;
      }
    }
  }

  /** Selecting records keeps them below a bound on `createdAt`. */
  lemma {:induction false} RecordsBelow(records: seq<MedicalRecord>, patient: Option<int>, bound: int)
    requires forall i :: 0 <= i < |records| ==> records[i].createdAt < bound
    ensures var r := RecordsNewestFirst(records, patient);
      forall k :: 0 <= k < |r| ==> r[k].createdAt < bound
  {
    if records != [] {
      RecordsBelow(records[..|records| - 1], patient, bound);
    }
  }

  lemma PrependNewerRecord(rec: MedicalRecord, rest: seq<MedicalRecord>)
    requires RecordsStrictlyNewestFirst(rest)
    requires forall k :: 0 <= k < |rest| ==> rest[k].createdAt < rec.createdAt
    ensures RecordsStrictlyNewestFirst([rec] + rest)
  {
    var r := [rec] + rest;
    forall i, j | 0 <= i < j < |r| ensures r[i].createdAt > r[j].createdAt {
      assert r[j] == rest[j - 1];
      if i > 0 {
        assert r[i] == rest[i - 1];
      }
    }
  }

  lemma PrependNewer(row: TableRow, rest: seq<TableRow>)
    requires StrictlyNewestFirst(rest)
    requires forall x :: x in rest ==> x.createdAt < row.createdAt
    ensures StrictlyNewestFirst([row] + rest)
  {
    var rows := [row] + rest;
    forall i, j | 0 <= i < j < |rows| ensures rows[i].createdAt > rows[j].createdAt {
      assert rows[j] == rest[j - 1];
      if i > 0 {
        assert rows[i] == rest[i - 1];
      }
    }
  }

  lemma NewestFirstButLast(s: seq<ListedOrder>, i: nat)
    requires i < |s| && NewestFirst(s[..i])
    ensures NewestFirstBut(s, i, i)
  {
    forall p, q | 0 <= p < q < i ensures Key(s[p]) >= Key(s[q]) {
      assert s[p] == s[..i][p] && s[q] == s[..i][q];
    }
  }

  /** One step of the insertion: `s[j]` moves left past an older order. */
  lemma SwapKeepsNewestFirstBut(s: seq<ListedOrder>, i: nat, j: nat)
    requires 0 < j <= i < |s| && NewestFirstBut(s, i, j) && Key(s[j - 1]) < Key(s[j])
    ensures NewestFirstBut(Swapped(s, j), i, j - 1)
  {
  }

  /** One step of the insertion keeps the loop's three invariants. */
  lemma InsertStep(s: seq<ListedOrder>, i: nat, j: nat, orig: seq<ListedOrder>)
    requires 0 < j <= i < |s| && NewestFirstBut(s, i, j) && Key(s[j - 1]) < Key(s[j])
    requires multiset(s) == multiset(orig) && SameKeyOrder(s, orig)
    ensures NewestFirstBut(Swapped(s, j), i, j - 1)
    ensures multiset(Swapped(s, j)) == multiset(orig) && SameKeyOrder(Swapped(s, j), orig)
  {
    SwapKeepsNewestFirstBut(s, i, j);
    SwapKeepsKeyOrder(s, j, Swapped(s, j), orig);
  }

  /** The insertion stops where the order before `s[j]` is not older. */
  lemma NewestFirstButSettled(s: seq<ListedOrder>, i: nat, j: nat)
    requires j <= i < |s| && NewestFirstBut(s, i, j)
    requires j == 0 || Key(s[j - 1]) >= Key(s[j])
    ensures NewestFirst(s[..i + 1])
  {
    var t := s[..i + 1];
    forall p, q | 0 <= p < q < |t| ensures Key(t[p]) >= Key(t[q]) {
      if p != j && q != j {
      } else if p == j {
      } else {
        assert Key(s[p]) >= Key(s[j - 1]);
      }
    }
  }

  lemma {:induction false} WithKeyAppend(s: seq<ListedOrder>, t: seq<ListedOrder>, k: int)
    ensures WithKey(s + t, k) == WithKey(s, k) + WithKey(t, k)
  {
    if t == [] {
      assert s + t == s;
    } else {
      var n := |t| - 1;
      assert (s + t)[..|s + t| - 1] == s + t[..n];
      assert (s + t)[|s + t| - 1] == t[n];
      WithKeyAppend(s, t[..n], k);
    }
  }

  /** Swapping two neighbours of different keys leaves every key's
      orders in the same order. */
  lemma SwapKeepsKeyOrder(s: seq<ListedOrder>, j: nat, t: seq<ListedOrder>, orig: seq<ListedOrder>)
    requires 0 < j < |s| && Key(s[j - 1]) != Key(s[j]) && t == Swapped(s, j)
    requires multiset(s) == multiset(orig) && SameKeyOrder(s, orig)
    ensures multiset(t) == multiset(orig) && SameKeyOrder(t, orig)
  {
    forall k ensures WithKey(t, k) == WithKey(orig, k) {
      SwapKeepsOrderOfKey(s, j, k);
    }
  }

  lemma SwapKeepsOrderOfKey(s: seq<ListedOrder>, j: nat, k: int)
    requires 0 < j < |s| && Key(s[j - 1]) != Key(s[j])
    ensures WithKey(Swapped(s, j), k) == WithKey(s, k)
  {
    var front, x, y, back := s[..j - 1], s[j - 1], s[j], s[j + 1..];
    assert s == (front + [x, y]) + back;
    assert Swapped(s, j) == (front + [y, x]) + back;
    WithKeyAppend(front + [x, y], back, k);
    WithKeyAppend(front + [y, x], back, k);
    WithKeyAppend(front, [x, y], k);
    WithKeyAppend(front, [y, x], k);
    WithKeyOfPair(x, y, k);
    WithKeyOfPair(y, x, k);
  }

  lemma WithKeyOfPair(x: ListedOrder, y: ListedOrder, k: int)
    ensures WithKey([x, y], k) == (if Key(x) == k then [x] else []) + (if Key(y) == k then [y] else [])
  {
    assert [x, y][..1] == [x];
    assert [x][..0] == [];
    assert WithKey([x], k) == WithKey([], k) + (if Key(x) == k then [x] else []);
    assert WithKey([x, y], k) == WithKey([x], k) + (if Key(y) == k then [y] else []);
  }

  /** The orders `WithKey` selects are orders of `s` with key `k`. */
  lemma {:induction false} WithKeySelects(s: seq<ListedOrder>, k: int)
    ensures forall x :: x in WithKey(s, k) ==> x in s && Key(x) == k
  {
    if s != [] {
      WithKeySelects(s[..|s| - 1], k);
    }
  }

  /** The last order of a sequence is the last of its key's orders. */
  lemma LastOfItsKey(s: seq<ListedOrder>)
    ensures s != [] ==> WithKey(s, Key(s[|s| - 1])) == WithKey(s[..|s| - 1], Key(s[|s| - 1])) + [s[|s| - 1]]
  {
  }

  /** Two stable newest-first arrangements of the same orders are the same
      sequence: the sort's result is determined, ties included. */
  lemma {:induction false} ArrangementIsUnique(s: seq<ListedOrder>, t: seq<ListedOrder>, all: seq<ListedOrder>)
    requires IsNewestFirstArrangement(s, all) && IsNewestFirstArrangement(t, all)
    ensures s == t
  {
    SameKeyOrderIsSame(s, t);
  }

  lemma {:induction false} SameKeyOrderIsSame(s: seq<ListedOrder>, t: seq<ListedOrder>)
    requires NewestFirst(s) && NewestFirst(t)
    requires SameKeyOrder(s, t)
    ensures s == t
    decreases |s|
  {
    LastOfItsKey(s);
    LastOfItsKey(t);
    if s != [] && t != [] {
      var m, n := |s| - 1, |t| - 1;
      OldestKeyIsShared(s, t);
      OldestKeyIsShared(t, s);
      DropOldest(s, t);
      SameKeyOrderIsSame(s[..m], t[..n]);
      assert s == s[..m] + [s[m]] && t == t[..n] + [t[n]];
    }
  }

  /** The oldest order of `s` is no newer than the oldest of `t`, when
      every key's orders agree. */
  lemma OldestKeyIsShared(s: seq<ListedOrder>, t: seq<ListedOrder>)
    requires s != [] && t != [] && NewestFirst(t)
    requires SameKeyOrder(s, t)
    ensures Key(s[|s| - 1]) >= Key(t[|t| - 1])
  {
    var k := Key(s[|s| - 1]);
    LastOfItsKey(s);
    var w := WithKey(t, k);
    assert w == WithKey(s, k);
    WithKeySelects(t, k);
    assert w[|w| - 1] in t;
    var p :| 0 <= p < |t| && t[p] == w[|w| - 1];
    assert p == |t| - 1 || Key(t[p]) >= Key(t[|t| - 1]);
  }

  /** With the same oldest key, the oldest orders are equal and the rest
      still agree key by key. */
  lemma DropOldest(s: seq<ListedOrder>, t: seq<ListedOrder>)
    requires s != [] && t != [] && Key(s[|s| - 1]) == Key(t[|t| - 1])
    requires SameKeyOrder(s, t)
    ensures s[|s| - 1] == t[|t| - 1]
    ensures SameKeyOrder(s[..|s| - 1], t[..|t| - 1])
  {
    var m, n := |s| - 1, |t| - 1;
    var x, y, kx := s[m], t[n], Key(s[m]);
    LastOfItsKey(s);
    LastOfItsKey(t);
    var ws, wt := WithKey(s[..m], kx), WithKey(t[..n], kx);
    assert ws + [x] == wt + [y] by {
      assert WithKey(s, kx) == WithKey(t, kx);
    }
    assert ws == (ws + [x])[..|ws|] && wt == (wt + [y])[..|wt|];
    assert (ws + [x])[|ws|] == x && (wt + [y])[|wt|] == y;
    forall k ensures WithKey(s[..m], k) == WithKey(t[..n], k) {
      assert WithKey(s, k) == WithKey(t, k);
      if k != kx {
        assert WithKey(s, k) == WithKey(s[..m], k);
        assert WithKey(t, k) == WithKey(t[..n], k);
      }
    }
  }


  /** A newest-first arrangement keeps exactly the collected orders, so a
      page of it holds only collected orders, in newest-first order. */
  lemma PageOfArrangement(s: seq<ListedOrder>, all: seq<ListedOrder>, offset: nat, limit: nat)
    requires IsNewestFirstArrangement(s, all)
    ensures forall x :: x in Paging.Page(s, offset, limit) ==> x in all
    ensures NewestFirst(Paging.Page(s, offset, limit))
  {
    var p := Paging.Page(s, offset, limit);
    forall x | x in p ensures x in all {
      assert x in s;
      assert x in multiset(s);
    }
  }

  /** Enrichment leaves the sort key and the record of a listed order alone. */
  lemma EnrichKeepsKeys(xs: seq<ListedOrder>, labCatalog: seq<ExamType>, radiologyCatalog: seq<ExamType>)
    ensures forall i :: 0 <= i < |xs| ==>
      Key(EnrichedAll(xs, labCatalog, radiologyCatalog)[i]) == Key(xs[i])
      && EnrichedAll(xs, labCatalog, radiologyCatalog)[i].medicalRecordId == xs[i].medicalRecordId
      && EnrichedAll(xs, labCatalog, radiologyCatalog)[i].order.id == xs[i].order.id
  {
  }
}
