/**
 * Credential metadata, educhain/core/model/NFTmetadata.py: five text fields
 * and an issue time, with their dictionary form.
 */
module Metadata {
  import opened Wrappers
  import opened Crypto

  datatype NFTMetadata = NFTMetadata(
    studentId: string,
    degreeType: string,
    pdfUrl: string,
    pdfHash: string,
    institution: string,
    issuedAt: string)

  /** The keyword arguments the constructor requires. */
  const RequiredFields: set<string> := {"student_id", "degree_type", "pdf_url", "pdf_hash", "institution"}

  /** The keys of `to_dict`, which are also every keyword the constructor accepts. */
  const FieldNames: set<string> := RequiredFields + {"issued_at"}

  /**
   * `NFTMetadata(student_id, degree_type, pdf_url, pdf_hash, institution, issued_at)`:
   * an absent or empty `issued_at` is replaced by the current time `now`
   * (`datetime.utcnow().isoformat()`).
   */
  function New(studentId: string, degreeType: string, pdfUrl: string, pdfHash: string,
               institution: string, issuedAt: Option<string>, now: string): (m: NFTMetadata)
    ensures m.studentId == studentId && m.degreeType == degreeType && m.pdfUrl == pdfUrl
    ensures m.pdfHash == pdfHash && m.institution == institution
    ensures issuedAt.Some? && issuedAt.value != "" ==> m.issuedAt == issuedAt.value
    ensures issuedAt.None? || issuedAt.value == "" ==> m.issuedAt == now
    ensures now != "" ==> m.issuedAt != ""
  {
    NFTMetadata(studentId, degreeType, pdfUrl, pdfHash, institution,
                if issuedAt.Some? && issuedAt.value != "" then issuedAt.value else now)
  }

  /** `to_dict`: exactly the six fields, each as a JSON string. */
  function ToDict(m: NFTMetadata): (d: Dict)
    ensures d.Keys == FieldNames
    ensures forall k | k in d :: d[k].JStr?
  {
    map["student_id" := JStr(m.studentId),
        "degree_type" := JStr(m.degreeType),
        "pdf_url" := JStr(m.pdfUrl),
        "pdf_hash" := JStr(m.pdfHash),
        "institution" := JStr(m.institution),
        "issued_at" := JStr(m.issuedAt)]
  }

  /** Whether `d["issued_at"]`, if present, is something the model can read: text or null. */
  predicate IssuedAtReadable(d: Dict) {
    "issued_at" in d ==> d["issued_at"].JStr? || d["issued_at"].JNull?
  }

  /**
   * `from_dict(data)`, that is `NFTMetadata(**data)`: an unknown key or a
   * missing required key raises TypeError; a null or absent `issued_at`
   * becomes the current time.
   */
  function FromDict(d: Dict, now: string): (r: Result<NFTMetadata>)
    ensures r.Ok? <==> d.Keys <= FieldNames && RequiredFields <= d.Keys
                       && (forall k | k in RequiredFields :: d[k].JStr?) && IssuedAtReadable(d)
    ensures r.Ok? ==> forall k | k in RequiredFields :: ToDict(r.value)[k] == d[k]
    ensures r.Ok? && "issued_at" in d && d["issued_at"] != JStr("") && d["issued_at"] != JNull ==>
              ToDict(r.value)["issued_at"] == d["issued_at"]
    ensures r.Ok? && ("issued_at" !in d || d["issued_at"] == JNull || d["issued_at"] == JStr("")) ==>
              r.value.issuedAt == now
    ensures r.Ok? && now != "" ==> r.value.issuedAt != ""
  {
    if !(d.Keys <= FieldNames) then Err(TypeError("unexpected keyword argument"))
    else if !(RequiredFields <= d.Keys) then Err(TypeError("missing required positional argument"))
    else if !(forall k | k in RequiredFields :: d[k].JStr?) then Err(TypeError("metadata field is not text"))
    else if !IssuedAtReadable(d) then Err(TypeError("issued_at is not text"))
    else
      var issued := if "issued_at" in d && d["issued_at"].JStr? then Some(d["issued_at"].s) else None;
      Ok(New(d["student_id"].s, d["degree_type"].s, d["pdf_url"].s, d["pdf_hash"].s,
             d["institution"].s, issued, now))
  }

  /** `from_dict(to_dict(m))` gives back `m` field for field, whenever `m` has an issue time. */
  lemma RoundTrip(m: NFTMetadata, now: string)
    requires m.issuedAt != ""
    ensures FromDict(ToDict(m), now) == Ok(m)
  {
  }
}
