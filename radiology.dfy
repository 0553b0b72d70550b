/** `radiologyExamTypeService`: looking up a radiology exam type by code and
    listing them, with the laboratory exam-type table as the fallback.

    A table is `Some(rows)` when its query succeeds and `None` when it
    throws (a missing table, say); the rows are in the order the store
    returns them (`orderBy: { name: 'asc' }` is the store's work). A row
    taken from the laboratory table is exposed with `procedures` equal to
    its `tests`. */
module RadiologyExamTypes {
  import opened Wrappers
  import opened Text

  /** `RAD_CODES_FALLBACK`. */
  const RadiologyCodes: seq<string> := ["RAYOS_X", "TAC", "RESONANCIA", "ECOGRAFIA"]

  datatype RadiologyExamType = RadiologyExamType(code: string, name: string, procedures: seq<string>)

  datatype LabExamType = LabExamType(code: string, name: string, tests: seq<string>)

  /** What the service returns: a radiology row as stored, or a laboratory
      row copied with `procedures: f.tests` added. */
  datatype ExamTypeView =
    | FromRadiology(radiology: RadiologyExamType)
    | FromLab(lab: LabExamType)
  {
    function Code(): string {
      if FromRadiology? then radiology.code else lab.code
    }

    function Procedures(): seq<string> {
      if FromRadiology? then radiology.procedures else lab.tests
    }
  }

  // ---------------------------------------------------------------------
  // Code normalisation

  /** `s.replace(/\s+/g, '_')`: every maximal run of whitespace becomes one
      underscore. */
  function UnderscoreBlanks(s: string): (r: string)
    ensures NoBlank(r)
    ensures |r| <= |s|
    decreases |s|
  {
    if s == [] then []
    else if IsSpace(s[0]) then "_" + UnderscoreBlanks(TrimStart(s))
    else [s[0]] + UnderscoreBlanks(s[1..])
  }

  predicate Blank(w: string) {
    forall i :: 0 <= i < |w| ==> IsSpace(w[i])
  }

  predicate NoBlank(w: string) {
    forall i :: 0 <= i < |w| ==> !IsSpace(w[i])
  }

  /** Text without whitespace is kept as it is. */
  lemma {:induction false} UnderscoreBlanksKeepsWords(a: string, b: string)
    requires NoBlank(a)
    ensures UnderscoreBlanks(a + b) == a + UnderscoreBlanks(b)
  {
    if a == [] {
      assert a + b == b;
    } else {
      assert (a + b)[0] == a[0] && (a + b)[1..] == a[1..] + b;
      UnderscoreBlanksKeepsWords(a[1..], b);
    }
  }

  /** A run of whitespace, however long, becomes a single `_`. */
  lemma {:induction false} UnderscoreBlanksOfRun(w: string, b: string)
    requires w != [] && Blank(w) && (b == [] || !IsSpace(b[0]))
    ensures UnderscoreBlanks(w + b) == "_" + UnderscoreBlanks(b)
  {
    assert (w + b)[0] == w[0];
    TrimStartOfRun(w, b);
  }

  lemma {:induction false} TrimStartOfRun(w: string, b: string)
    requires Blank(w) && (b == [] || !IsSpace(b[0]))
    ensures TrimStart(w + b) == b
  {
    if w == [] {
      assert w + b == b;
    } else {
      assert (w + b)[0] == w[0] && (w + b)[1..] == w[1..] + b;
      TrimStartOfRun(w[1..], b);
    }
  }

  /** `String(code).toUpperCase().replace(/\s+/g, '_')`. */
  function NormalizeCode(code: string): (r: string)
    ensures NoBlank(r)
  {
    UnderscoreBlanks(Upper(code))
  }

  /** Upper-case text without whitespace is its own normal code. */
  lemma NormalFormOfCode(s: string)
    requires NoBlank(s) && Upper(s) == s
    ensures NormalizeCode(s) == s
  {
    UnderscoreBlanksKeepsWords(s, []);
    assert s + [] == s;
  }

  /** Normalising a code twice is normalising it once, so a code the client
      already normalised finds the same row. */
  lemma NormalizeCodeIdempotent(code: string)
    ensures NormalizeCode(NormalizeCode(code)) == NormalizeCode(code)
  {
    var n := NormalizeCode(code);
    UpperUnderscored(Upper(code));
    NormalFormOfCode(n);
  }

  /** Upper-casing does not change text that `UnderscoreBlanks` produced
      from upper-case text. */
  lemma {:induction false} UpperUnderscored(s: string)
    requires Upper(s) == s
    ensures Upper(UnderscoreBlanks(s)) == UnderscoreBlanks(s)
    decreases |s|
  {
    if s != [] {
      if IsSpace(s[0]) {
        var t := TrimStart(s);
        TrimStartIsSuffix(s);
        assert Upper(t) == t by {
          forall i | 0 <= i < |t| ensures Upper(t)[i] == t[i] {
            assert t[i] == s[|s| - |t| + i];
            assert Upper(s)[|s| - |t| + i] == s[|s| - |t| + i];
          }
        }
        UpperUnderscored(t);
        assert Upper("_" + UnderscoreBlanks(t)) == "_" + Upper(UnderscoreBlanks(t));
      } else {
        var t := s[1..];
        assert Upper(t) == t by {
          forall i | 0 <= i < |t| ensures Upper(t)[i] == t[i] {
            assert Upper(s)[i + 1] == s[i + 1];
          }
        }
        UpperUnderscored(t);
        assert UpperChar(s[0]) == Upper(s)[0] == s[0];
        assert Upper([s[0]] + UnderscoreBlanks(t)) == [UpperChar(s[0])] + Upper(UnderscoreBlanks(t));
      }
    }
  }

  // ---------------------------------------------------------------------
  // Lookups

  /** `radiologyExamType.findUnique({ where: { code } })`. */
  function FindRadiology(rows: seq<RadiologyExamType>, code: string): (r: Option<RadiologyExamType>)
    ensures r.Some? ==> r.value in rows && r.value.code == code
    ensures r.None? ==> forall x :: x in rows ==> x.code != code
  {
    if rows == [] then None
    else if rows[0].code == code then Some(rows[0])
    else FindRadiology(rows[1..], code)
  }

  /** `labExamType.findUnique({ where: { code } })`. */
  function FindLab(rows: seq<LabExamType>, code: string): (r: Option<LabExamType>)
    ensures r.Some? ==> r.value in rows && r.value.code == code
    ensures r.None? ==> forall x :: x in rows ==> x.code != code
  {
    if rows == [] then None
    else if rows[0].code == code then Some(rows[0])
    else FindLab(rows[1..], code)
  }

  /** `getByCode(code)`; `""` is the falsy code. */
  function GetByCode(code: string, radiology: Option<seq<RadiologyExamType>>, lab: Option<seq<LabExamType>>): (r: Option<ExamTypeView>)
    ensures code == "" ==> r.None?
    ensures r.Some? ==> r.value.Code() == NormalizeCode(code)
    ensures r.Some? && r.value.FromRadiology? ==> radiology.Some? && r.value.radiology in radiology.value
    ensures r.Some? && r.value.FromLab? ==>
      lab.Some? && r.value.lab in lab.value
      && (radiology.Some? ==> forall x :: x in radiology.value ==> x.code != NormalizeCode(code))
    ensures code != "" && radiology.Some? && (exists x :: x in radiology.value && x.code == NormalizeCode(code))
      ==> r.Some? && r.value.FromRadiology?
    ensures r.None? && code != "" ==>
      (radiology.Some? ==> forall x :: x in radiology.value ==> x.code != NormalizeCode(code))
      && (lab.Some? ==> forall x :: x in lab.value ==> x.code != NormalizeCode(code))
  {
    if code == "" then None
    else
      var key := NormalizeCode(code);
      var row := if radiology.Some? then FindRadiology(radiology.value, key) else None;
      if row.Some? then Some(FromRadiology(row.value))
      else
        var f := if lab.Some? then FindLab(lab.value, key) else None;
        if f.None? then None else Some(FromLab(f.value))
  }

  /** The laboratory rows whose code is a radiology code, in store order. */
  function RadiologyLabRows(rows: seq<LabExamType>): (r: seq<ExamTypeView>)
    ensures |r| <= |rows|
    ensures forall i :: 0 <= i < |r| ==> r[i].FromLab? && r[i].lab in rows && r[i].lab.code in RadiologyCodes
    ensures forall x :: x in rows && x.code in RadiologyCodes ==> FromLab(x) in r
  {
    if rows == [] then []
    else
      var rest := RadiologyLabRows(rows[1..]);
      if rows[0].code in RadiologyCodes then [FromLab(rows[0])] + rest else rest
  }

  /** `listAll()`. */
  function ListAll(radiology: Option<seq<RadiologyExamType>>, lab: Option<seq<LabExamType>>): (r: seq<ExamTypeView>)
    ensures radiology.Some? && |radiology.value| > 0 ==>
      |r| == |radiology.value| && forall i :: 0 <= i < |r| ==> r[i] == FromRadiology(radiology.value[i])
    ensures !(radiology.Some? && |radiology.value| > 0) && lab.None? ==> r == []
    ensures !(radiology.Some? && |radiology.value| > 0) && lab.Some? ==> r == RadiologyLabRows(lab.value)
    ensures !(radiology.Some? && |radiology.value| > 0) ==>
      forall i :: 0 <= i < |r| ==> r[i].FromLab? && r[i].Code() in RadiologyCodes
  {
    if radiology.Some? && |radiology.value| > 0 then
      seq(|radiology.value|, i requires 0 <= i < |radiology.value| => FromRadiology(radiology.value[i]))
    else if lab.Some? then RadiologyLabRows(lab.value)
    else []
  }
}
