/** `DocumentService`: uploading a diagnostic document after its guards,
    listing and fetching documents, and deleting one when permitted.

    The store keeps documents in upload order; ids and upload stamps come
    from the counter `nextId`. User and diagnostic ids are the integers
    `parseInt` yields. */
module Documents {
  import opened Wrappers

  /** `10 * 1024 * 1024` bytes. */
  const MaxSize: nat := 10 * 1024 * 1024

  const AllowedTypes: seq<string> := ["application/pdf", "image/jpeg", "image/png"]

  datatype User = User(id: int, role: string)

  datatype Diagnostic = Diagnostic(id: int, patientId: int, title: string)

  /** The fields of the uploaded file the service reads. */
  datatype UploadedFile = UploadedFile(originalname: string, filename: string, path: string, mimetype: string, size: nat)

  datatype Document = Document(
    id: nat,
    diagnosticId: int,
    filename: string,
    storedFilename: string,
    filePath: string,
    fileType: string,
    mimeType: string,
    fileSize: nat,
    uploadedBy: int,
    uploadedAt: nat)

  datatype DocumentError =
    | FileTypeNotAllowed   // 'Tipo de archivo no permitido. ...'
    | FileTooLarge         // 'El archivo excede el tamaño máximo permitido de 10MB.'
    | PatientNotFound      // 'Paciente no encontrado.'
    | DiagnosticNotFound   // 'Diagnóstico no encontrado o no pertenece al paciente especificado.'
    | DocumentNotFound     // 'Documento no encontrado.'
    | UserNotFound         // 'Usuario no encontrado.'
    | NotPermitted         // 'No tienes permiso para eliminar este documento.'

  predicate IsAllowedType(mimetype: string) {
    mimetype in AllowedTypes
  }

  /** `user.findUnique({ where: { id, role: 'PACIENTE' } })`. */
  function FindPatient(users: seq<User>, id: int): (r: Option<User>)
    ensures r.Some? ==> r.value in users && r.value.id == id && r.value.role == "PACIENTE"
    ensures r.None? ==> forall u :: u in users ==> !(u.id == id && u.role == "PACIENTE")
  {
    if users == [] then None
    else if users[0].id == id && users[0].role == "PACIENTE" then Some(users[0])
    else FindPatient(users[1..], id)
  }

  /** `user.findUnique({ where: { id } })`. */
  function FindUser(users: seq<User>, id: int): (r: Option<User>)
    ensures r.Some? ==> r.value in users && r.value.id == id
    ensures r.None? ==> forall u :: u in users ==> u.id != id
  {
    if users == [] then None
    else if users[0].id == id then Some(users[0])
    else FindUser(users[1..], id)
  }

  /** The diagnostic with the id, if there is one. */
  function FindDiagnostic(diagnostics: seq<Diagnostic>, id: int): (r: Option<Diagnostic>)
    ensures r.Some? ==> r.value in diagnostics && r.value.id == id
    ensures r.None? ==> forall d :: d in diagnostics ==> d.id != id
  {
    if diagnostics == [] then None
    else if diagnostics[0].id == id then Some(diagnostics[0])
    else FindDiagnostic(diagnostics[1..], id)
  }

  /** `diagnostic.findUnique({ where: { id, patientId } })`. */
  predicate DiagnosticOf(diagnostics: seq<Diagnostic>, diagnosticId: int, patientId: int) {
    FindDiagnostic(diagnostics, diagnosticId).Some? && FindDiagnostic(diagnostics, diagnosticId).value.patientId == patientId
  }

  /** The first upload guard that fails, in the order the service checks them. */
  function UploadRejection(users: seq<User>, diagnostics: seq<Diagnostic>, patientId: int, diagnosticId: int, file: UploadedFile): (r: Option<DocumentError>)
    ensures r == Some(FileTypeNotAllowed) <==> !IsAllowedType(file.mimetype)
    ensures r == Some(FileTooLarge) <==> IsAllowedType(file.mimetype) && file.size > MaxSize
    ensures r == Some(PatientNotFound) <==>
      IsAllowedType(file.mimetype) && file.size <= MaxSize && FindPatient(users, patientId).None?
    ensures r == Some(DiagnosticNotFound) <==>
      IsAllowedType(file.mimetype) && file.size <= MaxSize && FindPatient(users, patientId).Some?
      && !DiagnosticOf(diagnostics, diagnosticId, patientId)
    ensures r.None? <==>
      IsAllowedType(file.mimetype) && file.size <= MaxSize && FindPatient(users, patientId).Some?
      && DiagnosticOf(diagnostics, diagnosticId, patientId)
  {
    if !IsAllowedType(file.mimetype) then Some(FileTypeNotAllowed)
    else if file.size > MaxSize then Some(FileTooLarge)
    else if FindPatient(users, patientId).None? then Some(PatientNotFound)
    else if !DiagnosticOf(diagnostics, diagnosticId, patientId) then Some(DiagnosticNotFound)
    else None
  }

  /** The record `diagnosticDocument.create` is given. */
  function NewDocument(id: nat, diagnosticId: int, doctorId: int, file: UploadedFile, stamp: nat): (d: Document)
    ensures d.id == id && d.diagnosticId == diagnosticId && d.uploadedBy == doctorId && d.uploadedAt == stamp
    ensures d.filename == file.originalname && d.storedFilename == file.filename && d.filePath == file.path
    ensures d.fileType == file.mimetype && d.mimeType == file.mimetype && d.fileSize == file.size
  {
    Document(id, diagnosticId, file.originalname, file.filename, file.path, file.mimetype, file.mimetype, file.size, doctorId, stamp)
  }

  /** The first document with the id. */
  function FindDocument(documents: seq<Document>, id: int): (r: Option<Document>)
    ensures r.Some? ==> r.value in documents && r.value.id == id
    ensures r.None? ==> forall d :: d in documents ==> d.id != id
  {
    if documents == [] then None
    else if documents[0].id == id then Some(documents[0])
    else FindDocument(documents[1..], id)
  }

  /** The delete permission: the uploader, or an administrator. */
  predicate MayDelete(document: Document, user: User) {
    document.uploadedBy == user.id || user.role == "ADMINISTRADOR"
  }

  /** The first delete guard that fails. */
  function DeleteRejection(documents: seq<Document>, users: seq<User>, documentId: int, userId: int): (r: Option<DocumentError>)
    ensures r == Some(DocumentNotFound) <==> FindDocument(documents, documentId).None?
    ensures r == Some(UserNotFound) <==> FindDocument(documents, documentId).Some? && FindUser(users, userId).None?
    ensures r == Some(NotPermitted) <==>
      FindDocument(documents, documentId).Some? && FindUser(users, userId).Some?
      && !MayDelete(FindDocument(documents, documentId).value, FindUser(users, userId).value)
    ensures r.None? <==>
      exists d, u :: d in documents && d.id == documentId && u in users && u.id == userId
                     && FindDocument(documents, documentId) == Some(d) && FindUser(users, userId) == Some(u)
                     && MayDelete(d, u)
  {
    match FindDocument(documents, documentId)
      case None => Some(DocumentNotFound)
      case Some(d) =>
        match FindUser(users, userId)
          case None => Some(UserNotFound)
          case Some(u) => if MayDelete(d, u) then None else Some(NotPermitted)
  }

  /** The documents without those with the id. */
  function Without(documents: seq<Document>, id: int): (r: seq<Document>)
    ensures |r| <= |documents|
    ensures forall d :: d in r <==> d in documents && d.id != id
  {
    if documents == [] then []
    else if documents[0].id == id then Without(documents[1..], id)
    else [documents[0]] + Without(documents[1..], id)
  }

  /** Ids in strictly increasing order, as the counter hands them out. */
  predicate IncreasingIds(documents: seq<Document>) {
    forall i, j :: 0 <= i < j < |documents| ==> documents[i].id < documents[j].id
  }

  /** With distinct ids, removing a stored id removes exactly one
      document: together with `Without`'s contract, every other document
      stays. */
  lemma {:induction false} WithoutRemovesOne(documents: seq<Document>, id: int)
    requires IncreasingIds(documents)
    requires FindDocument(documents, id).Some?
    ensures |Without(documents, id)| == |documents| - 1
  {
    assert IncreasingIds(documents[1..]);
    if documents[0].id == id {
      assert forall d :: d in documents[1..] ==> d.id != id;
      WithoutOfAbsent(documents[1..], id);
    } else {
      WithoutRemovesOne(documents[1..], id);
    }
  }

  lemma {:induction false} WithoutOfAbsent(documents: seq<Document>, id: int)
    requires forall d :: d in documents ==> d.id != id
    ensures Without(documents, id) == documents
  {
    if documents != [] {
      WithoutOfAbsent(documents[1..], id);
    }
  }

  /** The patient's documents, newest upload first. */
  function OfPatientNewestFirst(documents: seq<Document>, diagnostics: seq<Diagnostic>, patientId: int): (r: seq<Document>)
    ensures forall d :: d in r <==> d in documents && DiagnosticOf(diagnostics, d.diagnosticId, patientId)
  {
    if documents == [] then []
    else
      var n := |documents| - 1;
      var last := documents[n];
      var rest := OfPatientNewestFirst(documents[..n], diagnostics, patientId);
      assert forall d :: d in documents <==> d == last || d in documents[..n];
      (if DiagnosticOf(diagnostics, last.diagnosticId, patientId) then [last] else []) + rest
  }

  predicate StrictlyNewestFirst(documents: seq<Document>) {
    forall i, j :: 0 <= i < j < |documents| ==> documents[i].uploadedAt > documents[j].uploadedAt
  }

  predicate InUploadOrder(documents: seq<Document>) {
    forall i, j :: 0 <= i < j < |documents| ==> documents[i].uploadedAt < documents[j].uploadedAt
  }

  /** Stored in upload order, the patient's documents come out
      `orderBy uploadedAt desc`. */
  lemma {:induction false} OfPatientIsNewestFirst(documents: seq<Document>, diagnostics: seq<Diagnostic>, patientId: int)
    requires InUploadOrder(documents)
    ensures StrictlyNewestFirst(OfPatientNewestFirst(documents, diagnostics, patientId))
  {
    if documents != [] {
      var n := |documents| - 1;
      var last := documents[n];
      OfPatientIsNewestFirst(documents[..n], diagnostics, patientId);
      var rest := OfPatientNewestFirst(documents[..n], diagnostics, patientId);
      forall x | x in rest ensures x.uploadedAt < last.uploadedAt {
        var i :| 0 <= i < n && documents[..n][i] == x;
      }
      if DiagnosticOf(diagnostics, last.diagnosticId, patientId) {
        PrependNewer(last, rest);
      }
    }
  }

  lemma PrependNewer(d: Document, rest: seq<Document>)
    requires StrictlyNewestFirst(rest)
    requires forall x :: x in rest ==> x.uploadedAt < d.uploadedAt
    ensures StrictlyNewestFirst([d] + rest)
  {
    var all := [d] + rest;
    forall i, j | 0 <= i < j < |all| ensures all[i].uploadedAt > all[j].uploadedAt {
      assert all[j] == rest[j - 1];
      if i > 0 {
        assert all[i] == rest[i - 1];
      }
    }
  }

  class DocumentService {
    var users: seq<User>
    var diagnostics: seq<Diagnostic>
    var documents: seq<Document>
    var nextId: nat

    /** Documents in upload order, with ids and stamps below the counter. */
    ghost predicate Valid()
      reads this
    {
      && nextId >= 1
      && IncreasingIds(documents)
      && InUploadOrder(documents)
      && forall i :: 0 <= i < |documents| ==> documents[i].id < nextId && documents[i].uploadedAt < nextId
    }

    constructor (users: seq<User>, diagnostics: seq<Diagnostic>)
      ensures Valid()
      ensures this.users == users && this.diagnostics == diagnostics && documents == [] && nextId == 1
    {
      this.users := users;
      this.diagnostics := diagnostics;
      documents := [];
      nextId := 1;
    }

    /** `uploadDocument`: the guards in order, then one new record. */
    method UploadDocument(patientId: int, diagnosticId: int, doctorId: int, file: UploadedFile) returns (r: Result<Document, DocumentError>)
      requires Valid()
      modifies this
      ensures Valid()
      ensures users == old(users) && diagnostics == old(diagnostics)
      ensures UploadRejection(users, diagnostics, patientId, diagnosticId, file).Some? ==>
        r == Err(UploadRejection(users, diagnostics, patientId, diagnosticId, file).value)
        && documents == old(documents) && nextId == old(nextId)
      ensures UploadRejection(users, diagnostics, patientId, diagnosticId, file).None? ==>
        r == Ok(NewDocument(old(nextId), diagnosticId, doctorId, file, old(nextId)))
        && documents == old(documents) + [r.value] && nextId == old(nextId) + 1
    {
      if !IsAllowedType(file.mimetype) {
        return Err(FileTypeNotAllowed);
      }
      if file.size > MaxSize {
        return Err(FileTooLarge);
      }
      var patient := FindPatient(users, patientId);
      if patient.None? {
        return Err(PatientNotFound);
      }
      var diagnostic := FindDiagnostic(diagnostics, diagnosticId);
      if diagnostic.None? || diagnostic.value.patientId != patientId {
        return Err(DiagnosticNotFound);
      }
      var document := NewDocument(nextId, diagnosticId, doctorId, file, nextId);
      documents := documents + [document];
      nextId := nextId + 1;
      r := Ok(document);
    }

    /** `getDocumentsByPatient`: a patient's documents, newest first. */
    function GetDocumentsByPatient(patientId: int): (r: Result<seq<Document>, DocumentError>)
      reads this
      ensures FindPatient(users, patientId).None? <==> r == Err(PatientNotFound)
      ensures r.Ok? ==> forall d :: d in r.value <==> d in documents && DiagnosticOf(diagnostics, d.diagnosticId, patientId)
    {
      if FindPatient(users, patientId).None? then Err(PatientNotFound)
      else Ok(OfPatientNewestFirst(documents, diagnostics, patientId))
    }

    /** `getDocumentById`. */
    function GetDocumentById(documentId: int): (r: Result<Document, DocumentError>)
      reads this
      ensures r.Ok? ==> r.value in documents && r.value.id == documentId
      ensures r.Err? <==> forall d :: d in documents ==> d.id != documentId
      ensures r.Err? ==> r.error == DocumentNotFound
    {
      match FindDocument(documents, documentId)
        case Some(d) => Ok(d)
        case None => Err(DocumentNotFound)
    }

    /** `deleteDocument`: the guards, then the record removed. */
    method DeleteDocument(documentId: int, userId: int) returns (r: Result<(), DocumentError>)
      requires Valid()
      modifies this
      ensures Valid()
      ensures users == old(users) && diagnostics == old(diagnostics) && nextId == old(nextId)
      ensures DeleteRejection(old(documents), users, documentId, userId).Some? ==>
        r == Err(DeleteRejection(old(documents), users, documentId, userId).value) && documents == old(documents)
      ensures DeleteRejection(old(documents), users, documentId, userId).None? ==>
        r == Ok(()) && documents == Without(old(documents), documentId)
    {
      var document := FindDocument(documents, documentId);
      if document.None? {
        return Err(DocumentNotFound);
      }
      var user := FindUser(users, userId);
      if user.None? {
        return Err(UserNotFound);
      }
      if document.value.uploadedBy != userId && user.value.role != "ADMINISTRADOR" {
        return Err(NotPermitted);
      }
      WithoutKeepsOrder(documents, documentId);
      documents := Without(documents, documentId);
      r := Ok(());
    }
  }

  /** Removing documents keeps the store's order invariants. */
  lemma {:induction false} WithoutKeepsOrder(documents: seq<Document>, id: int)
    requires IncreasingIds(documents) && InUploadOrder(documents)
    ensures IncreasingIds(Without(documents, id)) && InUploadOrder(Without(documents, id))
  {
    if documents != [] {
      assert IncreasingIds(documents[1..]) && InUploadOrder(documents[1..]);
      WithoutKeepsOrder(documents[1..], id);
      if documents[0].id != id {
        var rest := Without(documents[1..], id);
        forall x | x in rest ensures x.id > documents[0].id && x.uploadedAt > documents[0].uploadedAt {
          var q :| 0 <= q < |documents[1..]| && documents[1..][q] == x;
          assert x == documents[q + 1];
        }
        PrependOlder(documents[0], rest);
      }
    }
  }

  lemma PrependOlder(d: Document, rest: seq<Document>)
    requires IncreasingIds(rest) && InUploadOrder(rest)
    requires forall x :: x in rest ==> x.id > d.id && x.uploadedAt > d.uploadedAt
    ensures IncreasingIds([d] + rest) && InUploadOrder([d] + rest)
  {
    var all := [d] + rest;
    forall i, j | 0 <= i < j < |all| ensures all[i].id < all[j].id && all[i].uploadedAt < all[j].uploadedAt {
      assert all[j] == rest[j - 1];
      if i > 0 {
        assert all[i] == rest[i - 1];
      }
    }
  }

  /** A refused delete changes nothing, and a permitted one is exactly the
      uploader's or an administrator's. */
  lemma DeletePermittedIff(documents: seq<Document>, users: seq<User>, documentId: int, userId: int)
    requires FindDocument(documents, documentId).Some? && FindUser(users, userId).Some?
    ensures DeleteRejection(documents, users, documentId, userId).None? <==>
      (FindDocument(documents, documentId).value.uploadedBy == userId
       || FindUser(users, userId).value.role == "ADMINISTRADOR")
  {
  }

  /** A file of exactly 10 MiB passes the size guard; one byte more does not. */
  lemma SizeLimitIsInclusive(users: seq<User>, diagnostics: seq<Diagnostic>, patientId: int, diagnosticId: int, file: UploadedFile)
    requires file.mimetype == "application/pdf"
    ensures file.size == 10485760 ==> UploadRejection(users, diagnostics, patientId, diagnosticId, file) != Some(FileTooLarge)
    ensures file.size == 10485761 ==> UploadRejection(users, diagnostics, patientId, diagnosticId, file) == Some(FileTooLarge)
  {
    assert IsAllowedType(file.mimetype);
  }

  /** A text file is refused before any lookup, whatever the store holds. */
  lemma TextFileIsRefused(users: seq<User>, diagnostics: seq<Diagnostic>, patientId: int, diagnosticId: int, file: UploadedFile)
    requires file.mimetype == "text/plain"
    ensures UploadRejection(users, diagnostics, patientId, diagnosticId, file) == Some(FileTypeNotAllowed)
  {
    assert file.mimetype != AllowedTypes[0] && file.mimetype != AllowedTypes[1] && file.mimetype != AllowedTypes[2];
  }
}
