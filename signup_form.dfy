/** The sign-up form of src/components/auth/SignupForm.tsx: the
    password-confirmation guard, the request it posts, the loading flag around
    the request, and the text of the error toast built from the reply. The
    server's reply is a parameter. */
module SignupForm {
  import opened Types
  import opened Strings
  import opened Api
  import SignupRoute

  /** The `error` field of a failed reply as the form reads it: absent (undefined
      or null), a string, or an object that may carry `formErrors` and `fieldErrors`. */
  datatype ErrorValue =
    | Missing
    | Text(text: string)
    | Obj(formErrors: Option<seq<string>>, fieldErrors: Option<seq<(string, seq<string>)>>)

  /** What the error toast is given: a text, or (for an object with neither
      list) the object itself. */
  datatype Shown = ShowText(text: string) | ShowObject

  const ValidationFallback := "Signup failed. Please check your input."
  const UnknownErrorText := "An unknown error occurred."
  const PasswordsDifferText := "Passwords don't match!"
  const SignupSucceededText := "Signup successful!"
  const DashboardPath := "/dashboard"

  /** `[...(formErrors || []), ...Object.values(fieldErrors || {}).flat()]`. */
  function ObjectMessages(formErrors: Option<seq<string>>, fieldErrors: Option<seq<(string, seq<string>)>>): seq<string> {
    (if formErrors.Some? then formErrors.value else [])
    + (if fieldErrors.Some? then FieldValues(fieldErrors.value) else [])
  }

  /** The text of the error toast. */
  function ErrorToast(error: ErrorValue): (shown: Shown)
    ensures error.Missing? ==> shown == ShowText(UnknownErrorText)
    ensures error.Text? ==> shown == ShowText(if error.text == "" then UnknownErrorText else error.text)
    ensures error.Obj? && error.formErrors.None? && error.fieldErrors.None? ==> shown == ShowObject
    ensures error.Obj? && (error.formErrors.Some? || error.fieldErrors.Some?) ==>
      var messages := ObjectMessages(error.formErrors, error.fieldErrors);
      shown == ShowText(if messages == [] || messages == [""] then ValidationFallback else Join(messages, "\n"))
  {
    match error
    case Obj(formErrors, fieldErrors) =>
      if formErrors.Some? || fieldErrors.Some? then
        var messages := ObjectMessages(formErrors, fieldErrors);
        JoinEmptyIff(messages, "\n");
        var joined := Join(messages, "\n");
        ShowText(if joined == "" then ValidationFallback else joined)
      else ShowObject
    case Text(text) => ShowText(if text == "" then UnknownErrorText else text)
    case Missing => ShowText(UnknownErrorText)
  }

  /** The `error` field of a reply body of the sign-up endpoint. */
  function ErrorValueOf(body: ResponseBody): ErrorValue {
    match body
    case ErrorDetails(details) => Obj(Some(details.formErrors), Some(details.fieldErrors))
    case ErrorText(text) => Text(text)
    case MessageText(_) => Missing
  }

  /** Every refusal of the sign-up endpoint reaches the user as real text: a
      validation refusal as all its messages, one per line, never the fallback;
      a refused sign-up as the provider's message, or the generic text when
      that message is empty. */
  lemma RefusalsShown(body: SignupRoute.SignupBody, isEmail: string -> bool,
                      signUp: SignupRoute.SignUpCall -> Option<string>)
    ensures var out := SignupRoute.Post(body, isEmail, signUp);
      var shown := ErrorToast(ErrorValueOf(out.response.body));
      && (out.call.None? ==>
            var errors := SignupRoute.Validate(body, isEmail).errors;
            && shown == ShowText(Join(AllMessages(errors), "\n"))
            && shown != ShowText(""))
      && (out.call.Some? && signUp(out.call.value).Some? ==>
            var message := signUp(out.call.value).value;
            shown == ShowText(if message == "" then UnknownErrorText else message))
  {
    var out := SignupRoute.Post(body, isEmail, signUp);
    if out.call.None? {
      var errors := SignupRoute.Validate(body, isEmail).errors;
      SignupRoute.RejectionHasMessages(body, isEmail);
      var messages := AllMessages(errors);
      assert ObjectMessages(Some(errors.formErrors), Some(errors.fieldErrors)) == messages;
      JoinEmptyIff(messages, "\n");
      assert messages != [""] by {
        assert messages[0] != "";
      }
    }
  }

  /** The body the form posts; the endpoint's schema ignores `confirmPassword`. */
  datatype SignupRequest = SignupRequest(
    username: string, email: string, password: string, confirmPassword: string, friendId: string)

  function RouteBody(request: SignupRequest): SignupRoute.SignupBody {
    SignupRoute.Fields(Some(request.email), Some(request.password), Some(request.username), Some(request.friendId))
  }

  /** A request the form sends reaches the sign-up call with its username and
      friend id unchanged under the metadata keys `username` and `friend_id`,
      whenever the endpoint accepts it. */
  lemma RequestForwarded(request: SignupRequest, isEmail: string -> bool,
                         signUp: SignupRoute.SignUpCall -> Option<string>)
    requires SignupRoute.Validate(RouteBody(request), isEmail).Valid?
    ensures var call := SignupRoute.Post(RouteBody(request), isEmail, signUp).call;
      && call.Some?
      && call.value.email == request.email && call.value.password == request.password
      && call.value.metadata == [("username", request.username), ("friend_id", request.friendId)]
  {
  }

  /** How the request ends: an answer with whether its status was 2xx and its
      `error` field, or a rejection (the request itself fails, or a failed
      answer's body is not JSON), which handleSubmit does not catch. */
  datatype Reply = Answered(ok: bool, error: ErrorValue) | Rejected

  datatype Toast = SuccessToast(text: string) | ErrorToastShown(shown: Shown)

  class Form {
    var username: string
    var email: string
    var password: string
    var confirmPassword: string
    var friendId: string
    var isLoading: bool

    constructor ()
      ensures username == email == password == confirmPassword == friendId == ""
      ensures !isLoading
    {
      username, email, password, confirmPassword, friendId := "", "", "", "", "";
      isLoading := false;
    }

    /** handleSubmit. `sent` is the request posted, `loadingWhileSent` the loading
        flag while it is outstanding, `toast` the toast shown and `navigateTo` the
        page pushed afterwards. Nothing catches a rejection, so on one the
        handler stops with loading still on and shows no toast. */
    method HandleSubmit(reply: Reply)
      returns (sent: Option<SignupRequest>, ghost loadingWhileSent: bool, toast: Option<Toast>, navigateTo: Option<string>)
      modifies this`isLoading
      ensures password != confirmPassword ==>
        && sent == None && navigateTo == None
        && toast == Some(ErrorToastShown(ShowText(PasswordsDifferText)))
        && isLoading == old(isLoading)
      ensures password == confirmPassword ==>
        && sent == Some(SignupRequest(username, email, password, confirmPassword, friendId))
        && loadingWhileSent
        && (reply.Rejected? ==> isLoading && toast == None && navigateTo == None)
        && (reply.Answered? && reply.ok ==>
              !isLoading && toast == Some(SuccessToast(SignupSucceededText)) && navigateTo == Some(DashboardPath))
        && (reply.Answered? && !reply.ok ==>
              !isLoading && toast == Some(ErrorToastShown(ErrorToast(reply.error))) && navigateTo == None)
    {
      if password != confirmPassword {
        return None, false, Some(ErrorToastShown(ShowText(PasswordsDifferText))), None;
      }
      isLoading := true;
      sent := Some(SignupRequest(username, email, password, confirmPassword, friendId));
      loadingWhileSent := isLoading;
      match reply {
        case Rejected =>
          return sent, loadingWhileSent, None, None;
        case Answered(ok, error) =>
          if ok {
            toast := Some(SuccessToast(SignupSucceededText));
            navigateTo := Some(DashboardPath);
          } else {
            toast := Some(ErrorToastShown(ErrorToast(error)));
            navigateTo := None;
          }
      }
      isLoading := false;
    }
  }
}
