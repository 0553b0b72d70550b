/** The rules of `PrescriptionService`: the `inferDuration` keyword table,
    the normalisation of stored medications, prescription creation, the
    read-side fill-in of durations, and the allergy check.

    A medication is JavaScript `null`/`undefined` (`MedAbsent`), a string
    (`MedText`) or an object with the fields the service reads
    (`MedObject`), where a string or number field that is absent or falsy
    is "" or 0. Parsing JSON text is not modelled: a text source carries
    the outcome of `JSON.parse` beside it. */
module Prescriptions {
  import opened Wrappers
  import opened Text
  import Paging

  datatype Med =
    | MedAbsent
    | MedText(text: string)
    | MedObject(name: string, kind: string, durationDays: int, duration: int)

  // ---------------------------------------------------------------------
  // inferDuration

  /** One line of the keyword table: a match on any keyword gives `days`. */
  datatype Rule = Rule(keywords: seq<string>, days: nat)

  const Rules: seq<Rule> := [
    Rule(["amoxi", "amoxicillin", "cef", "ceph", "penicill", "azithro", "doxy", "metronidazole", "cipro", "levo", "erythro"], 7),
    Rule(["antifungal", "fluconazol", "itraconazol", "miconazol", "ketoconazol"], 14),
    Rule(["antiviral", "acyclovir", "oseltamivir", "valaciclovir"], 5),
    Rule(["analgesic", "ibuprofen", "paracetamol", "acetaminophen", "naproxen", "diclofenac"], 5),
    Rule(["inhal", "nebul", "inhaler", "bronchodilat", "salbutamol", "salmeterol", "budesonide"], 30),
    Rule(["insulin", "metformin", "glipizid", "sitagliptin", "antidiabetic", "antidiab"], 30),
    Rule(["antihypertensive", "lisinopril", "enalapril", "amlodipine", "losartan", "valsartan"], 30),
    Rule(["topical", "cream", "ointment", "unguent", "gel", "locion", "spray"], 7)
  ]

  const DefaultDays := 7

  /** The index of the first rule from `k` on whose pattern occurs in `raw`. */
  function FirstRule(raw: string, rules: seq<Rule>, k: nat): (r: Option<nat>)
    requires k <= |rules|
    ensures r.Some? ==> k <= r.value < |rules| && ContainsAny(raw, rules[r.value].keywords)
    ensures r.Some? ==> forall j :: k <= j < r.value ==> !ContainsAny(raw, rules[j].keywords)
    ensures r.None? ==> forall j :: k <= j < |rules| ==> !ContainsAny(raw, rules[j].keywords)
    decreases |rules| - k
  {
    if k == |rules| then None
    else if ContainsAny(raw, rules[k].keywords) then Some(k)
    else FirstRule(raw, rules, k + 1)
  }

  /** The medication has a truthy `durationDays` or `duration`. */
  predicate HasExplicitDuration(med: Med) {
    med.MedObject? && (med.durationDays != 0 || med.duration != 0)
  }

  predicate IsFalsy(med: Med) {
    med.MedAbsent? || med == MedText("")
  }

  /** `(med.name || med.type || med).toString().toLowerCase()`. */
  function RawText(med: Med): string {
    match med
      case MedAbsent => ""
      case MedText(s) => Lower(s)
      case MedObject(name, kind, _, _) =>
        Lower(if name != "" then name else if kind != "" then kind else "[object Object]")
  }

  /** The hint of `med.type` once no keyword has matched. */
  function TypeHint(med: Med): (d: nat)
    ensures d == 30 || d == 7
  {
    if med.MedObject? && Lower(med.kind) == "chronic" then 30
    else DefaultDays
  }

  /** `inferDuration(med)`. */
  function InferDuration(med: Med): (d: int)
    ensures IsFalsy(med) ==> d == 7
    ensures med.MedObject? && med.durationDays != 0 ==> d == med.durationDays
    ensures med.MedObject? && med.durationDays == 0 && med.duration != 0 ==> d == med.duration
    ensures !HasExplicitDuration(med) ==> d == 5 || d == 7 || d == 14 || d == 30
    ensures d != 0
  {
    if IsFalsy(med) then DefaultDays
    else if HasExplicitDuration(med) then
      (if med.durationDays != 0 then med.durationDays else med.duration)
    else
      match FirstRule(RawText(med), Rules, 0)
        case Some(i) => Rules[i].days
        case None => TypeHint(med)
  }

  /** Without an explicit duration, the first rule of the table whose
      keyword occurs in the lowercased text decides; with none, the type. */
  lemma InferDurationFirstMatchWins(med: Med, i: nat)
    requires !IsFalsy(med) && !HasExplicitDuration(med)
    requires i < |Rules| && ContainsAny(RawText(med), Rules[i].keywords)
    requires forall j :: 0 <= j < i ==> !ContainsAny(RawText(med), Rules[j].keywords)
    ensures InferDuration(med) == Rules[i].days
  {
    var f := FirstRule(RawText(med), Rules, 0);
    if f != Some(i) {
      assert false;
    }
  }

  lemma InferDurationFallsBackOnType(med: Med)
    requires !IsFalsy(med) && !HasExplicitDuration(med)
    requires forall j :: 0 <= j < |Rules| ==> !ContainsAny(RawText(med), Rules[j].keywords)
    ensures InferDuration(med) == (if med.MedObject? && Lower(med.kind) == "chronic" then 30 else 7)
  {
    var f := FirstRule(RawText(med), Rules, 0);
    if f.Some? {
      assert false;
    }
  }

  /** A name that begins with "amoxi" is a seven-day treatment. */
  lemma AmoxicillinIsSevenDays(rest: string)
    ensures InferDuration(MedText("Amoxi" + rest)) == 7
  {
    var raw := Lower("Amoxi" + rest);
    assert raw[..5] == "amoxi";
    assert Contains(raw, Rules[0].keywords[0]);
    assert ContainsAny(raw, Rules[0].keywords);
  }

  // ---------------------------------------------------------------------
  // Medication normalisation

  /** `(typeof m === 'string') ? { name: m } : Object.assign({}, m)`. */
  function AsObject(m: Med): (o: Med)
    ensures o.MedObject?
  {
    match m
      case MedAbsent => MedObject("", "", 0, 0)
      case MedText(s) => MedObject(s, "", 0, 0)
      case MedObject(_, _, _, _) => m
  }

  /** The medication as `createPrescription` stores it. */
  function StoredMed(m: Med): (o: Med)
    ensures o.MedObject? && o.durationDays == InferDuration(AsObject(m))
    ensures o.name == AsObject(m).name && o.kind == AsObject(m).kind && o.duration == AsObject(m).duration
  {
    var o := AsObject(m);
    MedObject(o.name, o.kind, InferDuration(o), o.duration)
  }

  /** The medication as `getByPatient` and `getById` return it: a missing
      `durationDays` is filled in, a present one kept. */
  function FilledMed(m: Med): (o: Med)
    ensures o.MedObject? && o.durationDays != 0
    ensures AsObject(m).durationDays != 0 ==> o == AsObject(m)
  {
    var o := AsObject(m);
    if o.durationDays != 0 then o else o.(durationDays := InferDuration(o))
  }

  /** Storing and reading normalise a medication the same way. */
  lemma StoredEqualsFilled(m: Med)
    ensures StoredMed(m) == FilledMed(m)
  {
  }

  /** Reading a normalised medication again changes nothing. */
  lemma FilledMedIdempotent(m: Med)
    ensures FilledMed(FilledMed(m)) == FilledMed(m)
  {
  }

  /** `meds.map(...)` on the read side. */
  function FilledMeds(ms: seq<Med>): (r: seq<Med>)
    ensures |r| == |ms|
    ensures forall i :: 0 <= i < |ms| ==> r[i] == FilledMed(ms[i])
  {
    if ms == [] then [] else [FilledMed(ms[0])] + FilledMeds(ms[1..])
  }

  /** `meds.map(...)` in `createPrescription`. */
  function StoredMeds(ms: seq<Med>): (r: seq<Med>)
    ensures |r| == |ms|
    ensures forall i :: 0 <= i < |ms| ==> r[i] == StoredMed(ms[i])
  {
    if ms == [] then [] else [StoredMed(ms[0])] + StoredMeds(ms[1..])
  }

  lemma FilledMedsIdempotent(ms: seq<Med>)
    ensures FilledMeds(FilledMeds(ms)) == FilledMeds(ms)
  {
    forall i | 0 <= i < |ms|
      ensures FilledMeds(FilledMeds(ms))[i] == FilledMeds(ms)[i]
    {
      FilledMedIdempotent(ms[i]);
    }
  }

  // ---------------------------------------------------------------------
  // Prescriptions

  datatype Prescription = Prescription(
    id: nat,
    doctorId: int,
    patientId: int,
    title: string,
    notes: string,
    medications: Option<seq<Med>>,   // None: the stored value is not an array
    createdAt: nat)

  /** What `JSON.parse` made of a text: no JSON, an array, another value. */
  datatype Parsed<T> = NotJson | JsonArray(items: seq<T>) | JsonOther

  /** The `medications` argument of `createPrescription`. */
  datatype MedsInput =
    | MedsFalsy                                    // undefined, null, false, 0 or NaN
    | MedsText(text: string, parsed: Parsed<Med>)  // a string, "" included
    | MedsArray(items: seq<Med>)
    | MedsOther                                    // any other truthy value: an object, true, a non-zero number

  datatype CreateRequest = CreateRequest(
    doctorId: int,
    patientId: int,
    title: string,
    notes: string,
    medications: MedsInput)

  datatype User = User(id: int, fullname: string, allergies: AllergySource)

  datatype MedicalRecord = MedicalRecord(userId: int, allergies: AllergySource)

  datatype PrescriptionError =
    | MissingFields       // 400 'doctorId, patientId, title y medications son obligatorios'
    | InvalidJson         // 400 'medications debe ser un JSON válido o un array'
    | EmptyMedications    // 400 'medications debe ser un array no vacío'
    | DoctorNotFound      // 404 'Médico no encontrado'
    | PatientNotFound     // 404 'Paciente no encontrado'
    | MissingPatientId    // 400 'patientId es requerido'
    | MedicationsNotArray // 400 'medications debe ser un array'
    | NullMedication      // TypeError reading `name` of null

  function HttpStatus(e: PrescriptionError): int {
    match e
      case DoctorNotFound => 404
      case PatientNotFound => 404
      case NullMedication => 500
      case _ => 400
  }

  /** The medication list `createPrescription` accepts, or its 400 error,
      after the required-field check has passed. */
  function ParseMedications(m: MedsInput): (r: Result<seq<Med>, PrescriptionError>)
    ensures r.Ok? ==> |r.value| > 0
    ensures r.Err? ==> HttpStatus(r.error) == 400
    ensures m.MedsArray? ==> r == (if |m.items| > 0 then Ok(m.items) else Err(EmptyMedications))
    ensures m.MedsText? && m.parsed.NotJson? ==> r == Err(InvalidJson)
    ensures m.MedsText? && m.parsed.JsonArray? ==>
      r == (if |m.parsed.items| > 0 then Ok(m.parsed.items) else Err(EmptyMedications))
    ensures m.MedsFalsy? || m.MedsOther? || (m.MedsText? && m.parsed.JsonOther?) ==> r == Err(EmptyMedications)
    ensures r.Ok? <==> (m.MedsArray? && |m.items| > 0) || (m.MedsText? && m.parsed.JsonArray? && |m.parsed.items| > 0)
  {
    match m
      case MedsText(_, NotJson) => Err(InvalidJson)
      case MedsText(_, JsonArray(items)) => if |items| > 0 then Ok(items) else Err(EmptyMedications)
      case MedsArray(items) => if |items| > 0 then Ok(items) else Err(EmptyMedications)
      case _ => Err(EmptyMedications)
  }

  predicate HasRequiredFields(req: CreateRequest) {
    req.doctorId != 0 && req.patientId != 0 && req.title != ""
    && !req.medications.MedsFalsy?
    && !(req.medications.MedsText? && req.medications.text == "")
  }

  function UserIndex(users: seq<User>, id: int): (r: Option<nat>)
    ensures r.Some? ==> r.value < |users| && users[r.value].id == id
    ensures r.Some? ==> forall j :: 0 <= j < r.value ==> users[j].id != id
    ensures r.None? ==> forall j :: 0 <= j < |users| ==> users[j].id != id
  {
    if users == [] then None
    else if users[0].id == id then Some(0)
    else match UserIndex(users[1..], id)
      case None => None
      case Some(k) => Some(k + 1)
  }

  /** The first medical record of a user, as `findFirst` returns it. */
  function RecordOf(records: seq<MedicalRecord>, userId: int): (r: Option<MedicalRecord>)
    ensures r.Some? ==> r.value in records && r.value.userId == userId
    ensures r.None? ==> forall j :: 0 <= j < |records| ==> records[j].userId != userId
  {
    if records == [] then None
    else if records[0].userId == userId then Some(records[0])
    else RecordOf(records[1..], userId)
  }

  /** The prescriptions of a patient, newest first. */
  function NewestFirst(ps: seq<Prescription>, patientId: int): (r: seq<Prescription>)
    ensures |r| <= |ps|
    ensures forall i :: 0 <= i < |r| ==> r[i] in ps && r[i].patientId == patientId
  {
    if ps == [] then []
    else
      var last := ps[|ps| - 1];
      var rest := NewestFirst(ps[..|ps| - 1], patientId);
      (if last.patientId == patientId then [last] else []) + rest
  }

  /** No prescription of the patient is left out. */
  lemma {:induction false} NewestFirstIsComplete(ps: seq<Prescription>, patientId: int)
    ensures forall p :: p in ps && p.patientId == patientId ==> p in NewestFirst(ps, patientId)
  {
    if ps != [] {
      var last := ps[|ps| - 1];
      NewestFirstIsComplete(ps[..|ps| - 1], patientId);
      assert forall p :: p in ps ==> p == last || p in ps[..|ps| - 1];
    }
  }

  predicate Ordered(ps: seq<Prescription>) {
    forall i, j :: 0 <= i < j < |ps| ==> ps[i].createdAt < ps[j].createdAt && ps[i].id < ps[j].id
  }

  lemma {:induction false} NewestFirstIsDescending(ps: seq<Prescription>, patientId: int)
    requires Ordered(ps)
    ensures forall i, j :: 0 <= i < j < |NewestFirst(ps, patientId)| ==>
      NewestFirst(ps, patientId)[i].createdAt > NewestFirst(ps, patientId)[j].createdAt
  {
    if ps != [] {
      var init := ps[..|ps| - 1];
      assert Ordered(init);
      NewestFirstIsDescending(init, patientId);
      var rest := NewestFirst(init, patientId);
      forall k | 0 <= k < |rest| ensures rest[k].createdAt < ps[|ps| - 1].createdAt {
        assert rest[k] in init;
        var m :| 0 <= m < |init| && init[m] == rest[k];
        assert ps[m] == rest[k];
      }
    }
  }

  /** A prescription as the read operations return it. */
  function Normalized(p: Prescription): (q: Prescription)
    ensures q.medications.Some?
    ensures forall m :: m in q.medications.value ==> m.MedObject? && m.durationDays != 0
    ensures q == p.(medications := q.medications)
  {
    p.(medications := Some(if p.medications.Some? then FilledMeds(p.medications.value) else []))
  }

  lemma NormalizedIdempotent(p: Prescription)
    ensures Normalized(Normalized(p)) == Normalized(p)
  {
    if p.medications.Some? {
      FilledMedsIdempotent(p.medications.value);
    }
  }

  function NormalizedAll(ps: seq<Prescription>): (r: seq<Prescription>)
    ensures |r| == |ps|
    ensures forall i :: 0 <= i < |ps| ==> r[i] == Normalized(ps[i])
  {
    if ps == [] then [] else [Normalized(ps[0])] + NormalizedAll(ps[1..])
  }

  /** `take: limit, skip: offset` over the patient's prescriptions ordered
      `createdAt desc`, each normalised: the window of the newest-first list
      that starts at `skip` and holds at most `limit` of them. */
  function PatientPage(ps: seq<Prescription>, patientId: int, skip: nat, limit: nat): (r: seq<Prescription>)
    ensures var all := NewestFirst(ps, patientId);
      && |r| == Paging.Min(limit, if skip <= |all| then |all| - skip else 0)
      && forall i :: 0 <= i < |r| ==> skip + i < |all| && r[i] == Normalized(all[skip + i])
  {
    var all := NewestFirst(ps, patientId);
    NormalizedWindow(all, skip, limit);
    NormalizedAll(Paging.Page(all, skip, limit))
  }

  /** A page holds only the patient's stored prescriptions, normalised. */
  lemma PatientPageIsStored(ps: seq<Prescription>, patientId: int, skip: nat, limit: nat)
    ensures forall x :: x in PatientPage(ps, patientId, skip, limit) ==>
      exists p :: p in ps && p.patientId == patientId && x == Normalized(p)
  {
    var all := NewestFirst(ps, patientId);
    var r := PatientPage(ps, patientId, skip, limit);
    forall x | x in r ensures exists p :: p in ps && p.patientId == patientId && x == Normalized(p) {
      var i :| 0 <= i < |r| && r[i] == x;
      assert all[skip + i] in ps && all[skip + i].patientId == patientId;
    }
  }

  /** A normalised page is the normalised window of the list. */
  lemma NormalizedWindow(all: seq<Prescription>, skip: nat, limit: nat)
    ensures var r := NormalizedAll(Paging.Page(all, skip, limit));
      && |r| == Paging.Min(limit, if skip <= |all| then |all| - skip else 0)
      && forall i :: 0 <= i < |r| ==> skip + i < |all| && r[i] == Normalized(all[skip + i])
  {
    var page := Paging.Page(all, skip, limit);
    assert forall i :: 0 <= i < |page| ==> skip + i < |all| && page[i] == all[skip + i];
  }

  // ---------------------------------------------------------------------
  // Allergies

  /** An allergy source as stored: a text (with what `JSON.parse` made of
      it), an array of strings, or another value. */
  datatype AllergySource =
    | NoAllergies
    | AllergyText(text: string, parsed: Parsed<string>)
    | AllergyList(items: seq<string>)
    | AllergyOther

  predicate IsTruthy(src: AllergySource) {
    !src.NoAllergies? && !(src.AllergyText? && src.text == "")
  }

  const Separators: set<char> := {',', ';'}

  /** The non-empty trimmed pieces of `parts`. */
  function TrimmedNonEmpty(parts: seq<string>): (r: seq<string>)
    ensures |r| <= |parts|
    ensures forall i :: 0 <= i < |r| ==> r[i] != [] && IsTrimmed(r[i])
  {
    if parts == [] then []
    else
      var rest := TrimmedNonEmpty(parts[1..]);
      var t := Trim(parts[0]);
      if t == [] then rest else [t] + rest
  }

  /** Trimming and dropping empty pieces introduces no character. */
  lemma {:induction false} TrimmedNonEmptyKeepsOut(parts: seq<string>, seps: set<char>)
    requires forall j :: 0 <= j < |parts| ==> NoneOf(parts[j], seps)
    ensures forall i :: 0 <= i < |TrimmedNonEmpty(parts)| ==> NoneOf(TrimmedNonEmpty(parts)[i], seps)
  {
    if parts != [] {
      TrimmedNonEmptyKeepsOut(parts[1..], seps);
      var t := Trim(parts[0]);
      TrimKeepsChars(parts[0]);
      assert NoneOf(parts[0], seps);
      forall k | 0 <= k < |t| ensures t[k] !in seps {
        assert t[k] in parts[0];
      }
    }
  }

  /** `src.split(/[,;]+/).map(s => s.trim()).filter(Boolean)`. A run of
      separators yields empty pieces under a one-character split, and those
      are dropped by the filter, so splitting on single characters gives
      the same list. */
  function CsvParts(s: string): seq<string> {
    TrimmedNonEmpty(Split(s, Separators))
  }

  lemma {:induction false} SplitPiecesHaveNoSeparator(s: string, seps: set<char>)
    ensures forall i :: 0 <= i < |Split(s, seps)| ==> NoneOf(Split(s, seps)[i], seps)
  {
    if s != [] {
      SplitPiecesHaveNoSeparator(s[1..], seps);
      var rest := Split(s[1..], seps);
      if s[0] !in seps {
        var first := [s[0]] + rest[0];
        assert NoneOf(rest[0], seps);
        assert forall k :: 0 <= k < |first| ==> first[k] == s[0] || first[k] == rest[0][k - 1];
      }
    }
  }

  /** Every CSV allergy is non-empty, trimmed, and free of `,` and `;`. */
  lemma CsvPartsAreClean(s: string)
    ensures forall i :: 0 <= i < |CsvParts(s)| ==>
      CsvParts(s)[i] != [] && IsTrimmed(CsvParts(s)[i]) && NoneOf(CsvParts(s)[i], Separators)
  {
    SplitPiecesHaveNoSeparator(s, Separators);
    TrimmedNonEmptyKeepsOut(Split(s, Separators), Separators);
  }

  /** The allergies one source contributes. */
  function SourceAllergies(src: AllergySource): seq<string> {
    match src
      case NoAllergies => []
      case AllergyText(t, parsed) =>
        if t == "" then []
        else if parsed.JsonArray? then parsed.items
        else CsvParts(t)
      case AllergyList(items) => items
      case AllergyOther => []
  }

  /** The allergies of a list of sources, concatenated in order. */
  function AllAllergies(srcs: seq<AllergySource>): seq<string> {
    if srcs == [] then [] else AllAllergies(srcs[..|srcs| - 1]) + SourceAllergies(srcs[|srcs| - 1])
  }

  /** The user's own allergies first, then those of the medical record. */
  function AllergySources(user: User, record: Option<MedicalRecord>): (r: seq<AllergySource>)
    ensures forall i :: 0 <= i < |r| ==> IsTruthy(r[i])
    ensures |r| == (if IsTruthy(user.allergies) then 1 else 0)
                 + (if record.Some? && IsTruthy(record.value.allergies) then 1 else 0)
    ensures IsTruthy(user.allergies) ==> r[0] == user.allergies
    ensures record.Some? && IsTruthy(record.value.allergies) ==> r[|r| - 1] == record.value.allergies
  {
    (if IsTruthy(user.allergies) then [user.allergies] else [])
    + (if record.Some? && IsTruthy(record.value.allergies) then [record.value.allergies] else [])
  }

  /** The allergy and medication-name normalisation: lower case, NFD,
      combining marks removed, trimmed. */
  function NormalizeName(s: string): (r: string)
    ensures forall i :: 0 <= i < |r| ==> !IsMark(r[i])
    ensures IsTrimmed(r)
  {
    var t := StripMarks(Nfd(Lower(s)));
    var r := Trim(t);
    TrimKeepsChars(t);
    assert forall i :: 0 <= i < |r| ==> r[i] in t;
    r
  }

  /** `allergies.map(normalize)`. */
  function NormalizeAll(xs: seq<string>): (r: seq<string>)
    ensures |r| == |xs|
    ensures forall i :: 0 <= i < |xs| ==> r[i] == NormalizeName(xs[i])
  {
    seq(|xs|, i requires 0 <= i < |xs| => NormalizeName(xs[i]))
  }

  /** `.filter(Boolean)` on strings. */
  function NonEmpty(xs: seq<string>): (r: seq<string>)
    ensures forall a :: a in r <==> a in xs && a != []
  {
    if xs == [] then []
    else
      var rest := NonEmpty(xs[1..]);
      assert forall a :: a in xs <==> a == xs[0] || a in xs[1..];
      if xs[0] == [] then rest else [xs[0]] + rest
  }

  /** The elements of `xs` in order of first occurrence: the iteration
      order of a JavaScript `Set` built from `xs`. */
  function Distinct(xs: seq<string>): (r: seq<string>)
    ensures forall a :: a in r <==> a in xs
    ensures forall i, j :: 0 <= i < j < |r| ==> r[i] != r[j]
  {
    if xs == [] then []
    else
      var rest := Distinct(xs[..|xs| - 1]);
      var last := xs[|xs| - 1];
      assert forall a :: a in xs <==> a in xs[..|xs| - 1] || a == last;
      if last in rest then rest else rest + [last]
  }

  /** The allergy set of a patient. */
  function AllergySet(srcs: seq<AllergySource>): (r: seq<string>)
    ensures forall i, j :: 0 <= i < j < |r| ==> r[i] != r[j]
    ensures forall a :: a in r ==> a != []
  {
    Distinct(NonEmpty(NormalizeAll(AllAllergies(srcs))))
  }

  /** The text a medication is matched under: `med.name || med`. */
  function MedLabel(med: Med): string
    requires !med.MedAbsent?
  {
    match med
      case MedText(s) => s
      case MedObject(name, _, _, _) => if name != "" then name else "[object Object]"
  }

  /** The allergies of `allergySet`, in order, that occur in `name`. */
  function MatchesOf(name: string, allergySet: seq<string>): (r: seq<string>)
    ensures forall a :: a in r <==> a in allergySet && a != [] && Contains(name, a)
    ensures |r| <= |allergySet|
  {
    if allergySet == [] then []
    else
      var last := allergySet[|allergySet| - 1];
      var rest := MatchesOf(name, allergySet[..|allergySet| - 1]);
      assert forall a :: a in allergySet <==> a in allergySet[..|allergySet| - 1] || a == last;
      rest + (if last != [] && Contains(name, last) then [last] else [])
  }

  datatype AllergyResult = AllergyResult(medication: Med, allergic: bool, matches: seq<string>)

  datatype AllergyReport = AllergyReport(patientId: int, fullname: string, results: seq<AllergyResult>)

  /** The verdict on one medication. */
  function ResultFor(med: Med, allergySet: seq<string>): AllergyResult
    requires !med.MedAbsent?
  {
    var matches := MatchesOf(NormalizeName(MedLabel(med)), allergySet);
    AllergyResult(med, |matches| > 0, matches)
  }

  /** The verdicts on a list of medications, or None when one is null. */
  function AllResults(meds: seq<Med>, allergySet: seq<string>): (r: Option<seq<AllergyResult>>)
    ensures r.None? <==> exists i :: 0 <= i < |meds| && meds[i].MedAbsent?
    ensures r.Some? ==> |r.value| == |meds|
    ensures r.Some? ==> forall i :: 0 <= i < |meds| ==> r.value[i] == ResultFor(meds[i], allergySet)
  {
    if exists i :: 0 <= i < |meds| && meds[i].MedAbsent? then None
    else Some(seq(|meds|, i requires 0 <= i < |meds| => ResultFor(meds[i], allergySet)))
  }

  /** The medications argument of `checkAllergies`. */
  datatype MedsArg = NotAnArray | AnArray(items: seq<Med>)

  /** `limit = 50`: the default applies only when the option is left out. */
  function DefaultLimit(limit: Option<nat>): nat {
    if limit.Some? then limit.value else 50
  }

  /** `offset = 0`. */
  function DefaultOffset(offset: Option<nat>): nat {
    if offset.Some? then offset.value else 0
  }

  // ---------------------------------------------------------------------
  // The service

  class PrescriptionService {
    var users: seq<User>
    var records: seq<MedicalRecord>
    var prescriptions: seq<Prescription>
    var nextId: nat

    ghost predicate Valid()
      reads this
    {
      && Ordered(prescriptions)
      && (forall i :: 0 <= i < |prescriptions| ==> prescriptions[i].id < nextId && prescriptions[i].createdAt < nextId)
    }

    constructor (users: seq<User>, records: seq<MedicalRecord>)
      ensures Valid()
      ensures this.users == users && this.records == records && prescriptions == [] && nextId == 1
    {
      this.users := users;
      this.records := records;
      prescriptions := [];
      nextId := 1;
    }

    /** `createPrescription(...)`: required fields, medication list,
        doctor, patient, in that order; then one new prescription whose
        medications are the normalised objects in the given order. */
    method CreatePrescription(req: CreateRequest) returns (r: Result<Prescription, PrescriptionError>)
      requires Valid()
      modifies this
      ensures Valid() && users == old(users) && records == old(records)
      ensures r.Err? ==> prescriptions == old(prescriptions) && nextId == old(nextId)
      ensures !HasRequiredFields(req) ==> r == Err(MissingFields)
      ensures HasRequiredFields(req) && ParseMedications(req.medications).Err? ==>
        r == Err(ParseMedications(req.medications).error)
      ensures HasRequiredFields(req) && ParseMedications(req.medications).Ok? ==>
        var meds := ParseMedications(req.medications).value;
        && (UserIndex(users, req.doctorId).None? ==> r == Err(DoctorNotFound))
        && (UserIndex(users, req.doctorId).Some? && UserIndex(users, req.patientId).None? ==> r == Err(PatientNotFound))
        && (UserIndex(users, req.doctorId).Some? && UserIndex(users, req.patientId).Some? ==>
              var p := Prescription(old(nextId), req.doctorId, req.patientId, req.title, req.notes,
                                    Some(StoredMeds(meds)), old(nextId));
              r == Ok(p) && prescriptions == old(prescriptions) + [p] && nextId == old(nextId) + 1)
    {
      if req.doctorId == 0 || req.patientId == 0 || req.title == "" || req.medications.MedsFalsy?
        || (req.medications.MedsText? && req.medications.text == "")
      {
        return Err(MissingFields);
      }
      var parsed := ParseMedications(req.medications);
      if parsed.Err? {
        return Err(parsed.error);
      }
      var meds := parsed.value;
      var doctor := UserIndex(users, req.doctorId);
      var patient := UserIndex(users, req.patientId);
      if doctor.None? {
        return Err(DoctorNotFound);
      }
      if patient.None? {
        return Err(PatientNotFound);
      }
      var normalizedMeds := StoredMeds(meds);
      var created := Prescription(nextId, req.doctorId, req.patientId, req.title, req.notes, Some(normalizedMeds), nextId);
      prescriptions := prescriptions + [created];
      nextId := nextId + 1;
      r := Ok(created);
    }

    /** `getByPatient(patientId, { limit, offset })`: a page of the
        patient's prescriptions, newest first, each normalised. An option
        left out (`None`) takes its default, 50 and 0. */
    function GetByPatient(patientId: int, limit: Option<nat>, offset: Option<nat>): (r: seq<Prescription>)
      reads this
      ensures |r| <= DefaultLimit(limit)
      ensures limit.None? ==> |r| <= 50
      ensures offset.None? ==> r == PatientPage(prescriptions, patientId, 0, DefaultLimit(limit))
      ensures forall i :: 0 <= i < |r| ==> r[i].patientId == patientId && r[i].medications.Some?
      ensures r == PatientPage(prescriptions, patientId, DefaultOffset(offset), DefaultLimit(limit))
    {
      PatientPage(prescriptions, patientId, DefaultOffset(offset), DefaultLimit(limit))
    }

    /** `getById(id)`: null for a falsy or unknown id. */
    function GetById(id: int): (r: Option<Prescription>)
      reads this
      ensures id == 0 ==> r.None?
      ensures r.Some? ==> exists p :: p in prescriptions && p.id == id && r.value == Normalized(p)
      ensures r.None? && id != 0 ==> forall p :: p in prescriptions ==> p.id != id
    {
      if id == 0 then None
      else FindById(prescriptions, id)
    }

    /** `checkAllergies(patientId, medications)`. */
    method CheckAllergies(patientId: int, medications: MedsArg) returns (r: Result<AllergyReport, PrescriptionError>)
      ensures patientId == 0 ==> r == Err(MissingPatientId)
      ensures patientId != 0 && medications.NotAnArray? ==> r == Err(MedicationsNotArray)
      ensures patientId != 0 && medications.AnArray? && UserIndex(users, patientId).None? ==> r == Err(PatientNotFound)
      ensures patientId != 0 && medications.AnArray? && UserIndex(users, patientId).Some? ==>
        var user := users[UserIndex(users, patientId).value];
        var results := AllResults(medications.items, AllergySet(AllergySources(user, RecordOf(records, patientId))));
        && (results.None? ==> r == Err(NullMedication))
        && (results.Some? ==> r == Ok(AllergyReport(user.id, user.fullname, results.value)))
    {
      if patientId == 0 {
        return Err(MissingPatientId);
      }
      if medications.NotAnArray? {
        return Err(MedicationsNotArray);
      }
      var meds := medications.items;
      var found := UserIndex(users, patientId);
      if found.None? {
        return Err(PatientNotFound);
      }
      var user := users[found.value];
      var medRecord := RecordOf(records, patientId);
      var allergySources := AllergySources(user, medRecord);

      var allergies := CollectAllergies(allergySources);
      var allergySet := Distinct(NonEmpty(NormalizeAll(allergies)));

      var results := CheckMedications(meds, allergySet);
      if results.None? {
        return Err(NullMedication);
      }
      r := Ok(AllergyReport(user.id, user.fullname, results.value));
    }
  }

  /** The `for (const src of allergySources)` loop. */
  method CollectAllergies(allergySources: seq<AllergySource>) returns (allergies: seq<string>)
    ensures allergies == AllAllergies(allergySources)
  {
    allergies := [];
    for k := 0 to |allergySources|
      invariant allergies == AllAllergies(allergySources[..k])
    {
      assert allergySources[..k + 1][..k] == allergySources[..k];
      var src := allergySources[k];
      if src.AllergyText? {
        if src.text != "" && src.parsed.JsonArray? {
          allergies := allergies + src.parsed.items;
        } else if src.text != "" {
          allergies := allergies + CsvParts(src.text);
        }
      } else if src.AllergyList? {
        allergies := allergies + src.items;
      }
    }
    assert allergySources[..|allergySources|] == allergySources;
  }

  /** `medications.map(...)`: the verdicts in order, or None when a
      medication is null and reading its `name` throws. */
  method CheckMedications(meds: seq<Med>, allergySet: seq<string>) returns (results: Option<seq<AllergyResult>>)
    ensures results == AllResults(meds, allergySet)
  {
    var done: seq<AllergyResult> := [];
    for m := 0 to |meds|
      invariant |done| == m
      invariant forall i :: 0 <= i < m ==> !meds[i].MedAbsent? && done[i] == ResultFor(meds[i], allergySet)
    {
      if meds[m].MedAbsent? {
        assert AllResults(meds, allergySet).None?;
        return None;
      }
      var result := CheckMedication(meds[m], allergySet);
      done := done + [result];
    }
    assert AllResults(meds, allergySet).Some?;
    assert done == AllResults(meds, allergySet).value;
    results := Some(done);
  }

  /** The verdict on one medication of `checkAllergies`. */
  method CheckMedication(med: Med, allergySet: seq<string>) returns (result: AllergyResult)
    requires !med.MedAbsent?
    ensures result == ResultFor(med, allergySet)
  {
    var name := NormalizeName(MedLabel(med));
    var matches := MatchAllergies(name, allergySet);
    result := AllergyResult(med, |matches| > 0, matches);
  }

  /** The `for (const a of allergySet)` loop for one medication name. */
  method MatchAllergies(name: string, allergySet: seq<string>) returns (matches: seq<string>)
    ensures matches == MatchesOf(name, allergySet)
  {
    matches := [];
    for k := 0 to |allergySet|
      invariant matches == MatchesOf(name, allergySet[..k])
    {
      assert allergySet[..k + 1][..k] == allergySet[..k];
      var a := allergySet[k];
      if a != "" && Contains(name, a) {
        matches := matches + [a];
      }
    }
    assert allergySet[..|allergySet|] == allergySet;
  }

  function FindById(ps: seq<Prescription>, id: int): (r: Option<Prescription>)
    ensures r.Some? ==> exists p :: p in ps && p.id == id && r.value == Normalized(p)
    ensures r.None? ==> forall p :: p in ps ==> p.id != id
  {
    if ps == [] then None
    else if ps[0].id == id then Some(Normalized(ps[0]))
    else FindById(ps[1..], id)
  }

  /** A medication is flagged exactly when some allergy of the patient,
      normalised, occurs in its normalised name; the reported matches are
      exactly those allergies. */
  lemma AllergicIffSomeMatch(med: Med, allergySet: seq<string>)
    requires !med.MedAbsent?
    ensures ResultFor(med, allergySet).medication == med
    ensures ResultFor(med, allergySet).allergic <==>
      exists a :: a in allergySet && a != [] && Contains(NormalizeName(MedLabel(med)), a)
    ensures forall a :: a in ResultFor(med, allergySet).matches <==>
      a in allergySet && a != [] && Contains(NormalizeName(MedLabel(med)), a)
  {
    var matches := ResultFor(med, allergySet).matches;
    assert matches != [] ==> matches[0] in matches;
  }
}
