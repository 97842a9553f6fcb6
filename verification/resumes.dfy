/** The resume store: one resume per user, replaced wholesale on upsert. */
module Resumes {
  import opened Http
  import opened Seqs
  import opened Schemas
  import opened Db

  /** POST /resume. Body validation (422); otherwise the first resume of the
      user has every field overwritten with the body, or, when the user has
      none, the body is inserted. The response is the stored record, equal
      to the body. Only the resume collection changes. */
  function UpsertResume(st: Store, r: Resume): (out: (Result<Resume>, Store))
    ensures out.0.Err? <==> !ValidResume(r)
    ensures out.0.Err? ==> out.0.error.status == Unprocessable && out.1 == st
    ensures out.0.Ok? ==> out.0.value == r
    ensures out.1.(resumes := st.resumes) == st
    ensures out.0.Ok? ==> r in out.1.resumes
    ensures out.0.Ok? && HasKey(st.resumes, ResumeOwner, r.userId) ==>
      |out.1.resumes| == |st.resumes|
      && forall j :: 0 <= j < |st.resumes| && st.resumes[j].userId != r.userId ==> out.1.resumes[j] == st.resumes[j]
    ensures out.0.Ok? && !HasKey(st.resumes, ResumeOwner, r.userId) ==>
      out.1.resumes == st.resumes + [r]
    ensures UniqueBy(st.resumes, ResumeOwner) ==> UniqueBy(out.1.resumes, ResumeOwner)
  {
    if !ValidResume(r) then
      (Err(HttpError(Unprocessable, "Invalid resume fields")), st)
    else match IndexOf(st.resumes, ResumeOwner, r.userId)
      case Some(i) =>
        var rs := st.resumes[i := r];
        assert rs[i] == r;
        assert forall j :: 0 <= j < |rs| ==> ResumeOwner(rs[j]) == ResumeOwner(st.resumes[j]);
        (Ok(r), st.(resumes := rs))
      case None =>
        var rs := st.resumes + [r];
        assert rs[|st.resumes|] == r;
        (Ok(r), st.(resumes := rs))
  }

  /** GET /resume/{user}: the user's first resume, or 404 when none. */
  function GetResume(st: Store, userId: string): (res: Result<Resume>)
    ensures res.Err? <==> forall j :: 0 <= j < |st.resumes| ==> st.resumes[j].userId != userId
    ensures res.Err? ==> res.error == HttpError(NotFound, "Resume not found")
    ensures res.Ok? ==> res.value in st.resumes && res.value.userId == userId
  {
    match IndexOf(st.resumes, ResumeOwner, userId)
    case None => Err(HttpError(NotFound, "Resume not found"))
    case Some(i) => Ok(st.resumes[i])
  }

  /** Repeating an upsert with the same body changes nothing further. */
  lemma UpsertResumeIdempotent(st: Store, r: Resume)
    ensures var once := UpsertResume(st, r);
      UpsertResume(once.1, r) == once
  {
    var once := UpsertResume(st, r);
    if ValidResume(r) {
      var rs := once.1.resumes;
      var i := IndexOf(rs, ResumeOwner, r.userId).value;
      assert ResumeOwner(rs[i]) == r.userId;
      match IndexOf(st.resumes, ResumeOwner, r.userId)
      case Some(k) =>
        assert rs == st.resumes[k := r];
        IndexOfSameKeys(st.resumes, rs, ResumeOwner, r.userId);
        assert rs[i := r] == rs;
      case None =>
        assert rs == st.resumes + [r];
        assert i == |st.resumes|;
        assert rs[i := r] == rs;
    }
  }

  /** After an accepted upsert, reading the user's resume returns the body. */
  lemma UpsertThenGetResume(st: Store, r: Resume)
    requires UpsertResume(st, r).0.Ok?
    ensures GetResume(UpsertResume(st, r).1, r.userId) == Ok(r)
  {
    var rs := UpsertResume(st, r).1.resumes;
    match IndexOf(st.resumes, ResumeOwner, r.userId)
    case Some(k) =>
      assert rs == st.resumes[k := r];
      IndexOfSameKeys(st.resumes, rs, ResumeOwner, r.userId);
    case None =>
      assert rs == st.resumes + [r];
      assert IndexOf(rs, ResumeOwner, r.userId) == Some(|st.resumes|);
  }
}
