/** Record shapes of the five collections and the request-body validators
    that run before a handler body: stripped minimum lengths, the phone
    pattern, password lengths, the resume length rules and field defaults. */
module Schemas {
  import opened Http

  /** The qualifications a student may register with, exactly as listed. */
  const AllowedQualifications: seq<string> := [
    "B.Tech CSE",
    "B.Tech IT",
    "B.Sc IT",
    "BCA",
    "MCA",
    "M.Sc CS",
    "Diploma in CS/IT"
  ]

  lemma AllowListHasSevenDistinctEntries()
    ensures |AllowedQualifications| == 7
    ensures forall i, j :: 0 <= i < j < 7 ==> AllowedQualifications[i] != AllowedQualifications[j]
  {
  }

  // ---------------------------------------------------------------------
  // Whitespace stripping
  // ---------------------------------------------------------------------

  /** The characters with the Unicode White_Space property: the set the
      validation library's `strip_whitespace` trims from both ends. The
      information separators U+001C..U+001F are not among them. */
  predicate IsSpace(c: char) {
    || c == ' '
    || '\t' <= c <= '\r'
    || c == '\U{85}' || c == '\U{A0}' || c == '\U{1680}'
    || '\U{2000}' <= c <= '\U{200A}'
    || c == '\U{2028}' || c == '\U{2029}' || c == '\U{202F}' || c == '\U{205F}'
    || c == '\U{3000}'
  }

  /** Length of the run of whitespace that starts `s`. */
  function LeadingSpace(s: string): (n: nat)
    ensures n <= |s|
    ensures forall k :: 0 <= k < n ==> IsSpace(s[k])
    ensures n < |s| ==> !IsSpace(s[n])
  {
    if |s| > 0 && IsSpace(s[0]) then 1 + LeadingSpace(s[1..]) else 0
  }

  /** Length of the run of whitespace that ends `s`. */
  function TrailingSpace(s: string): (n: nat)
    ensures n <= |s|
    ensures forall k :: |s| - n <= k < |s| ==> IsSpace(s[k])
    ensures n < |s| ==> !IsSpace(s[|s| - n - 1])
  {
    if |s| > 0 && IsSpace(s[|s| - 1]) then 1 + TrailingSpace(s[..|s| - 1]) else 0
  }

  /** `str.strip()`: the longest infix of `s` that neither starts nor ends
      with whitespace, found after dropping whitespace from both ends. */
  function Strip(s: string): (r: string)
    ensures |r| <= |s|
    ensures |r| == 0 || (!IsSpace(r[0]) && !IsSpace(r[|r| - 1]))
    ensures var i := LeadingSpace(s);
      && i + |r| <= |s|
      && r == s[i .. i + |r|]
      && (forall k :: 0 <= k < i ==> IsSpace(s[k]))
      && (forall k :: i + |r| <= k < |s| ==> IsSpace(s[k]))
  {
    var i := LeadingSpace(s);
    var rest := s[i..];
    rest[..|rest| - TrailingSpace(rest)]
  }

  lemma StripKeepsTrimmed(s: string)
    requires |s| == 0 || (!IsSpace(s[0]) && !IsSpace(s[|s| - 1]))
    ensures Strip(s) == s
  {
    if |s| > 0 {
      assert LeadingSpace(s) == 0;
      assert TrailingSpace(s) == 0;
    }
  }

  lemma StripIdempotent(s: string)
    ensures Strip(Strip(s)) == Strip(s)
  {
    StripKeepsTrimmed(Strip(s));
  }

  lemma StripBCA()
    ensures Strip(" BCA ") == "BCA"
    ensures Strip(" BCA ") in AllowedQualifications
    ensures " BCA " !in AllowedQualifications
  {
    assert LeadingSpace(" BCA ") == 1;
    assert TrailingSpace("BCA ") == 1;
    assert AllowedQualifications[3] == "BCA";
  }

  /** A name field: at least two characters once stripped. */
  predicate ValidName(s: string) {
    |Strip(s)| >= 2
  }

  /** An information separator is not whitespace to the trim: a name that
      starts with U+001C keeps it and counts it towards the two characters. */
  lemma SeparatorIsKept()
    ensures Strip("\U{1C}A") == "\U{1C}A"
    ensures ValidName("\U{1C}A")
  {
    StripKeepsTrimmed("\U{1C}A");
  }

  // ---------------------------------------------------------------------
  // Phone pattern ^[0-9]{10}$
  // ---------------------------------------------------------------------

  predicate IsAsciiDigit(c: char) {
    '0' <= c <= '9'
  }

  /** The phone field: exactly ten ASCII digits and nothing else. */
  predicate ValidPhone(s: string) {
    |s| == 10 && forall k :: 0 <= k < |s| ==> IsAsciiDigit(s[k])
  }

  /** Anchored match of `[0-9]{10}` against the whole string, one character
      at a time. */
  method MatchPhone(s: string) returns (ok: bool)
    ensures ok <==> ValidPhone(s)
  {
    if |s| != 10 {
      return false;
    }
    var k := 0;
    while k < |s|
      invariant 0 <= k <= |s|
      invariant forall m :: 0 <= m < k ==> IsAsciiDigit(s[m])
    {
      if !IsAsciiDigit(s[k]) {
        return false;
      }
      k := k + 1;
    }
    return true;
  }

  // ---------------------------------------------------------------------
  // Users and credentials
  // ---------------------------------------------------------------------

  /** Everything stored about a user except the password digest. */
  datatype Profile = Profile(
    firstName: string,
    lastName: string,
    email: string,
    phone: string,
    qualification: string,
    role: string,
    avatarUrl: Option<string>)

  /** A stored user record: the profile plus the digest of the password. */
  datatype User = User(profile: Profile, passwordHash: string)

  /** The registration body. Its `password` field is the plaintext (the
      record's own field name calls it a hash, but it is hashed only after
      validation); `role` and `avatarUrl` may be absent. */
  datatype RegisterForm = RegisterForm(
    firstName: string,
    lastName: string,
    email: string,
    phone: string,
    qualification: string,
    password: string,
    role: Option<string>,
    avatarUrl: Option<string>)

  /** A registration body after validation and normalisation. */
  datatype Registration = Registration(profile: Profile, password: string)

  const DefaultRole := "student"

  /** Body validation of a registration: both names must keep two characters
      after stripping and the phone must match the pattern; names and
      qualification come out stripped, `role` defaults to "student" and
      `avatarUrl` to none. No length rule applies to the password here. */
  function ValidateRegistration(f: RegisterForm): (r: Result<Registration>)
    ensures r.Ok? <==> ValidName(f.firstName) && ValidName(f.lastName) && ValidPhone(f.phone)
    ensures r.Err? ==> r.error.status == Unprocessable
    ensures r.Ok? ==>
      var p := r.value.profile;
      && |p.firstName| >= 2 && |p.lastName| >= 2 && ValidPhone(p.phone)
      && p.firstName == Strip(f.firstName) && p.lastName == Strip(f.lastName)
      && p.qualification == Strip(f.qualification)
      && p.email == f.email && p.phone == f.phone
      && (f.role.None? ==> p.role == "student")
      && (f.role.Some? ==> p.role == f.role.value)
      && p.avatarUrl == f.avatarUrl
      && r.value.password == f.password
  {
    if !ValidName(f.firstName) || !ValidName(f.lastName) || !ValidPhone(f.phone) then
      Err(HttpError(Unprocessable, "Invalid user fields"))
    else
      Ok(Registration(
        Profile(Strip(f.firstName), Strip(f.lastName), f.email, f.phone,
                Strip(f.qualification), f.role.GetOr(DefaultRole), f.avatarUrl),
        f.password))
  }

  datatype Credentials = Credentials(email: string, password: string)

  /** The login body: the password needs at least six characters. */
  predicate ValidLogin(c: Credentials) {
    |c.password| >= 6
  }

  datatype PasswordChange = PasswordChange(userId: string, oldPassword: string, newPassword: string)

  /** The change-password body: both passwords need at least six characters. */
  predicate ValidPasswordChange(f: PasswordChange) {
    |f.oldPassword| >= 6 && |f.newPassword| >= 6
  }

  /** The profile-update body: plain strings, none of the user record's
      constraints apply. */
  datatype ProfileUpdate = ProfileUpdate(
    firstName: string,
    lastName: string,
    phone: string,
    qualification: string,
    avatarUrl: Option<string>)

  // ---------------------------------------------------------------------
  // Roadmaps, results, progress
  // ---------------------------------------------------------------------

  /** A quiz question: prompt, options, and the index of the correct option. */
  datatype Question = Question(prompt: string, options: seq<string>, answerIndex: int)

  datatype RoadmapStep = RoadmapStep(
    order: int,
    title: string,
    description: string,
    videos: seq<string>,
    questions: seq<Question>)

  /** One grading event, logged pass or fail. */
  datatype AssessmentResult = AssessmentResult(
    userId: string,
    domain: string,
    stepOrder: int,
    score: nat,
    total: nat,
    passed: bool)

  /** Per (user, domain) progress: completed step orders (kept free of
      duplicates) and the score recorded for each passed step. The store
      keys scores by the decimal text of the step order; that rendering is
      injective, so the model keys them by the order itself. */
  datatype Progress = Progress(
    userId: string,
    domain: string,
    completedSteps: seq<int>,
    scores: map<int, int>)

  /** A fresh progress record with the default empty fields. */
  function EmptyProgress(userId: string, domain: string): (p: Progress)
    ensures p.userId == userId && p.domain == domain
    ensures |p.completedSteps| == 0 && |p.scores| == 0
  {
    Progress(userId, domain, [], map[])
  }

  // ---------------------------------------------------------------------
  // Resume
  // ---------------------------------------------------------------------

  datatype Resume = Resume(
    userId: string,
    summary: string,
    skills: seq<string>,
    education: seq<map<string, string>>,
    experience: seq<map<string, string>>,
    projects: seq<map<string, string>>,
    contact: map<string, string>)

  /** The resume body: a summary of at least twenty characters and skills of
      at least two characters each (no stripping). */
  predicate ValidResume(r: Resume) {
    |r.summary| >= 20 && forall k :: 0 <= k < |r.skills| ==> |r.skills[k]| >= 2
  }
}
