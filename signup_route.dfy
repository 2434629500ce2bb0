/** The sign-up endpoint of src/app/api/auth/signup/route.ts: the field rules
    of its schema, the flattened error it answers with when a field fails, and
    the sign-up call it makes otherwise. Whether an e-mail address is well
    formed is decided by a predicate passed in, and the identity provider's
    answer to the sign-up call is a function passed in. */
module SignupRoute {
  import opened Types
  import opened Strings
  import opened Api

  // ---------------------------------------------------------------------------
  // Field rules

  const MinPasswordLength := 8
  const MinUsernameLength := 3
  const MaxUsernameLength := 20

  const PasswordMessage := "Password must be at least 8 characters long."
  const UsernameMessage := "Username can only contain letters, numbers, and underscores."
  const FriendIdMessage := "Invalid Friend ID format."
  /** Messages of the validation library's own checks (e-mail, min, max). */
  const InvalidEmailMessage := "Invalid email"
  const TooShortMessage := "String must contain at least 3 character(s)"
  const TooLongMessage := "String must contain at most 20 character(s)"

  predicate ValidPassword(password: string) {
    |password| >= MinPasswordLength
  }

  /** A character of `[a-zA-Z0-9_]`. */
  predicate IsUsernameChar(c: char) {
    ('a' <= c <= 'z') || ('A' <= c <= 'Z') || IsDigit(c) || c == '_'
  }

  /** `/^[a-zA-Z0-9_]+$/`. */
  predicate MatchesUsernamePattern(username: string) {
    |username| >= 1 && forall i :: 0 <= i < |username| ==> IsUsernameChar(username[i])
  }

  predicate ValidUsername(username: string) {
    MinUsernameLength <= |username| <= MaxUsernameLength && MatchesUsernamePattern(username)
  }

  /** `/^\d{4}-\d{4}-\d{4}-\d{4}$/`: positions 4, 9 and 14 hold '-', the other
      sixteen of the nineteen hold ASCII digits. */
  predicate ValidFriendId(friendId: string) {
    |friendId| == 19 &&
    forall i :: 0 <= i < 19 ==> if i % 5 == 4 then friendId[i] == '-' else IsDigit(friendId[i])
  }

  predicate IsGroup(g: string) {
    |g| == 4 && AllDigits(g)
  }

  function JoinGroups(a: string, b: string, c: string, d: string): string {
    a + "-" + b + "-" + c + "-" + d
  }

  lemma ValidFriendIdSplits(friendId: string)
    requires ValidFriendId(friendId)
    ensures IsGroup(friendId[..4]) && IsGroup(friendId[5..9]) && IsGroup(friendId[10..14]) && IsGroup(friendId[15..])
    ensures friendId == JoinGroups(friendId[..4], friendId[5..9], friendId[10..14], friendId[15..])
  {
    var a, b, c, d := friendId[..4], friendId[5..9], friendId[10..14], friendId[15..];
    forall i | 0 <= i < 4
      ensures IsDigit(a[i]) && IsDigit(b[i]) && IsDigit(c[i]) && IsDigit(d[i])
    {
      assert a[i] == friendId[i] && b[i] == friendId[5 + i];
      assert c[i] == friendId[10 + i] && d[i] == friendId[15 + i];
    }
    assert friendId == a + "-" + b + "-" + c + "-" + d;
  }

  lemma GroupsMakeValidFriendId(a: string, b: string, c: string, d: string)
    requires IsGroup(a) && IsGroup(b) && IsGroup(c) && IsGroup(d)
    ensures ValidFriendId(JoinGroups(a, b, c, d))
  {
    var f := JoinGroups(a, b, c, d);
    assert f[..4] == a && f[4] == '-' && f[5..9] == b && f[9] == '-';
    assert f[10..14] == c && f[14] == '-' && f[15..] == d;
    forall i | 0 <= i < 19
      ensures if i % 5 == 4 then f[i] == '-' else IsDigit(f[i])
    {
      if i < 4 { assert f[i] == f[..4][i]; }
      else if 4 < i < 9 { assert f[i] == f[5..9][i - 5]; }
      else if 9 < i < 14 { assert f[i] == f[10..14][i - 10]; }
      else if 14 < i { assert f[i] == f[15..][i - 15]; }
    }
  }

  /** A friend id is valid exactly when it is four groups of four digits joined by '-'. */
  lemma FriendIdGroups(friendId: string)
    ensures ValidFriendId(friendId) <==>
      exists a, b, c, d :: IsGroup(a) && IsGroup(b) && IsGroup(c) && IsGroup(d) && friendId == JoinGroups(a, b, c, d)
  {
    if ValidFriendId(friendId) {
      ValidFriendIdSplits(friendId);
    }
    if exists a, b, c, d :: IsGroup(a) && IsGroup(b) && IsGroup(c) && IsGroup(d) && friendId == JoinGroups(a, b, c, d) {
      var a, b, c, d :| IsGroup(a) && IsGroup(b) && IsGroup(c) && IsGroup(d) && friendId == JoinGroups(a, b, c, d);
      GroupsMakeValidFriendId(a, b, c, d);
    }
  }

  // ---------------------------------------------------------------------------
  // Validation

  /** The request body: not an object at all, or an object whose four fields
      are each a string or missing (None also stands for a value of another type). */
  datatype SignupBody =
    | NotAnObject
    | Fields(email: Option<string>, password: Option<string>, username: Option<string>, friendId: Option<string>)

  datatype SignupData = SignupData(email: string, password: string, username: string, friendId: string)

  datatype Validation = Valid(data: SignupData) | Invalid(errors: Flattened)

  /** A field's message list as the flattened error holds it: only non-empty messages. */
  predicate WellFormedMessages(issues: seq<string>) {
    forall i :: 0 <= i < |issues| ==> issues[i] != ""
  }

  function EmailIssues(email: Option<string>, isEmail: string -> bool): (issues: seq<string>)
    ensures WellFormedMessages(issues)
    ensures issues == [] <==> email.Some? && isEmail(email.value)
  {
    if email.None? then [RequiredMessage]
    else if isEmail(email.value) then [] else [InvalidEmailMessage]
  }

  function PasswordIssues(password: Option<string>): (issues: seq<string>)
    ensures WellFormedMessages(issues)
    ensures issues == [] <==> password.Some? && ValidPassword(password.value)
  {
    if password.None? then [RequiredMessage]
    else if |password.value| < MinPasswordLength then [PasswordMessage] else []
  }

  /** Every check of the username runs, so a short name with a bad character
      collects two messages. */
  function UsernameIssues(username: Option<string>): (issues: seq<string>)
    ensures WellFormedMessages(issues)
    ensures issues == [] <==> username.Some? && ValidUsername(username.value)
  {
    if username.None? then [RequiredMessage]
    else
      var u := username.value;
      (if |u| < MinUsernameLength then [TooShortMessage] else [])
      + (if |u| > MaxUsernameLength then [TooLongMessage] else [])
      + (if MatchesUsernamePattern(u) then [] else [UsernameMessage])
  }

  function FriendIdIssues(friendId: Option<string>): (issues: seq<string>)
    ensures WellFormedMessages(issues)
    ensures issues == [] <==> friendId.Some? && ValidFriendId(friendId.value)
  {
    if friendId.None? then [RequiredMessage]
    else if ValidFriendId(friendId.value) then [] else [FriendIdMessage]
  }

  /** `signupSchema.safeParse(body)`. */
  function Validate(body: SignupBody, isEmail: string -> bool): (v: Validation)
    ensures v.Valid? <==>
      && body.Fields?
      && body.email.Some? && isEmail(body.email.value)
      && body.password.Some? && ValidPassword(body.password.value)
      && body.username.Some? && ValidUsername(body.username.value)
      && body.friendId.Some? && ValidFriendId(body.friendId.value)
    ensures v.Valid? ==> v.data == SignupData(body.email.value, body.password.value, body.username.value, body.friendId.value)
  {
    match body
    case NotAnObject => Invalid(Flattened([ExpectedObjectMessage], []))
    case Fields(email, password, username, friendId) =>
      var fieldErrors :=
        FieldEntry("email", EmailIssues(email, isEmail))
        + FieldEntry("password", PasswordIssues(password))
        + FieldEntry("username", UsernameIssues(username))
        + FieldEntry("friendId", FriendIdIssues(friendId));
      if fieldErrors == [] then Valid(SignupData(email.value, password.value, username.value, friendId.value))
      else Invalid(Flattened([], fieldErrors))
  }

  /** Whatever is accepted meets every field rule the schema states. */
  lemma AcceptedDataMeetsRules(body: SignupBody, isEmail: string -> bool)
    requires Validate(body, isEmail).Valid?
    ensures var data := Validate(body, isEmail).data;
      && |data.password| >= 8
      && 3 <= |data.username| <= 20
      && (forall i :: 0 <= i < |data.username| ==> IsUsernameChar(data.username[i]))
      && |data.friendId| == 19
      && isEmail(data.email)
  {
  }

  /** Field entries as the flattened error holds them: each lists at least one
      message, and no message is empty. */
  predicate WellFormedEntries(entries: seq<(string, seq<string>)>) {
    forall k :: 0 <= k < |entries| ==> entries[k].1 != [] && WellFormedMessages(entries[k].1)
  }

  /** A rejection carries at least one message, and every message is non-empty. */
  lemma RejectionHasMessages(body: SignupBody, isEmail: string -> bool)
    requires Validate(body, isEmail).Invalid?
    ensures var messages := AllMessages(Validate(body, isEmail).errors);
      |messages| > 0 && WellFormedMessages(messages)
  {
    var errors := Validate(body, isEmail).errors;
    if body.Fields? {
      var entries := errors.fieldErrors;
      assert entries ==
        FieldEntry("email", EmailIssues(body.email, isEmail))
        + FieldEntry("password", PasswordIssues(body.password))
        + FieldEntry("username", UsernameIssues(body.username))
        + FieldEntry("friendId", FriendIdIssues(body.friendId));
      assert entries != [] && WellFormedEntries(entries);
      FieldValuesNonEmpty(entries);
      assert errors.formErrors == [];
    }
  }

  /** Concatenating the message lists of well-formed entries gives a
      non-empty list of non-empty messages. */
  lemma {:induction false} FieldValuesNonEmpty(entries: seq<(string, seq<string>)>)
    requires WellFormedEntries(entries)
    ensures |entries| > 0 ==> |FieldValues(entries)| > 0
    ensures WellFormedMessages(FieldValues(entries))
  {
    if entries != [] {
      FieldValuesNonEmpty(entries[1..]);
    }
  }

  // ---------------------------------------------------------------------------
  // The handler

  /** The sign-up call: credentials plus the metadata the profile trigger reads. */
  datatype SignUpCall = SignUpCall(email: string, password: string, metadata: seq<(string, string)>)

  /** The answer to a request, and the sign-up call made for it, if any. */
  datatype Outcome = Outcome(response: Response, call: Option<SignUpCall>)

  const SignupSucceededMessage := "Signup successful, please check your email to verify."

  /** POST. `signUp` answers a sign-up call with its error message, or None. */
  function Post(body: SignupBody, isEmail: string -> bool, signUp: SignUpCall -> Option<string>): (out: Outcome)
    ensures Validate(body, isEmail).Invalid? ==>
      out == Outcome(Response(400, ErrorDetails(Validate(body, isEmail).errors)), None)
    ensures Validate(body, isEmail).Valid? ==>
      var d := Validate(body, isEmail).data;
      && out.call == Some(SignUpCall(d.email, d.password, [("username", d.username), ("friend_id", d.friendId)]))
      && (signUp(out.call.value).Some? ==> out.response == Response(400, ErrorText(signUp(out.call.value).value)))
      && (signUp(out.call.value).None? ==> out.response == Response(201, MessageText(SignupSucceededMessage)))
  {
    match Validate(body, isEmail)
    case Invalid(errors) => Outcome(Response(400, ErrorDetails(errors)), None)
    case Valid(data) =>
      var call := SignUpCall(data.email, data.password, [("username", data.username), ("friend_id", data.friendId)]);
      match signUp(call)
      case Some(message) => Outcome(Response(400, ErrorText(message)), Some(call))
      case None => Outcome(Response(201, MessageText(SignupSucceededMessage)), Some(call))
  }

  /** A sign-up call is made exactly when every field is valid; the status is
      201 only when it succeeds. */
  lemma PostStatus(body: SignupBody, isEmail: string -> bool, signUp: SignUpCall -> Option<string>)
    ensures var out := Post(body, isEmail, signUp);
      && (out.call.Some? <==> Validate(body, isEmail).Valid?)
      && (out.response.status == 201 <==> out.call.Some? && signUp(out.call.value).None?)
      && (out.response.status == 201 || out.response.status == 400)
  {
  }
}
