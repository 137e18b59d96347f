/**
 * The HTTP request and response as the controllers see them: the parsed parameters, the cookie jar
 * the browser sent, and a response that is either a redirect, a rendered template or an error
 * status. Also the two parameter helpers the controllers call, `params.require(...).permit(...)`,
 * and the integer cast ActiveRecord applies to an `:id` taken from the path.
 */
module Http {
  import opened Wrappers
  import opened Support
  import opened Schema
  import opened Cookies
  import Routes
  import UserModel

  /** A request parameter: a string, or a nested hash as form fields such as `user[screen_name]`
      build. */
  datatype Param = Text(text: string) | Fields(fields: map<string, Param>)

  type Params = map<string, Param>

  /** What a request carries that the core reads: `request.user_agent` may be absent, `request.ip`
      is always there. */
  datatype Request = Request(
    verb: Routes.Verb,
    path: seq<string>,
    cookies: Jar,
    userAgent: Option<string>,
    ip: string,
    params: Params)

  /** Where a redirect points: `root_path`, `sign_in_path(screen_name_hint:)`, a user's page
      (`redirect_to user`) and `users_url`. */
  datatype Location = Root | SignInPage(screenNameHint: Option<string>) | UserPage(user: Id) | UsersIndex

  /** The templates the modelled actions render. */
  datatype Template = SessionsNew | UsersNew | UsersShow | UsersEdit

  /** A response. An action outside this model (posts, health, PWA) is `Delegated` to its controller. */
  datatype Response =
    | Redirect(location: Location, status: nat)
    | Render(template: Template, status: nat)
    | Failure(status: nat)
    | Delegated(target: Routes.Target)

  const OK: nat := 200
  /** `redirect_to` without a status. */
  const FOUND: nat := 302
  /** `status: :see_other`. */
  const SEE_OTHER: nat := 303
  /** ActionController::ParameterMissing. */
  const BAD_REQUEST: nat := 400
  /** No route, and ActiveRecord::RecordNotFound. */
  const NOT_FOUND: nat := 404
  /** `status: :unprocessable_entity`. */
  const UNPROCESSABLE_ENTITY: nat := 422
  /** An exception nothing rescues. */
  const INTERNAL_SERVER_ERROR: nat := 500

  /** Why reading the parameters failed: `require` found nothing (400), or found a string where
      `permit` needs a hash, which raises NoMethodError (500). */
  datatype ParamError = ParameterMissing | NotAHash

  function ParamFailure(e: ParamError): Response
  {
    match e
    case ParameterMissing => Failure(BAD_REQUEST)
    case NotAHash => Failure(INTERNAL_SERVER_ERROR)
  }

  /** `blank?` on a parameter value: a blank string or an empty hash. */
  predicate BlankParam(p: Param)
  {
    match p
    case Text(s) => Blank(s)
    case Fields(m) => m == map[]
  }

  /** `params.require(key)`, followed by the `permit` the caller needs a hash for. */
  function Require(params: Params, key: string): (r: Result<Params, ParamError>)
    ensures r.Ok? <==> key in params && params[key].Fields? && params[key].fields != map[]
    ensures r.Ok? ==> r.value == params[key].fields
    ensures r == Err(ParameterMissing) <==> key !in params || BlankParam(params[key])
  {
    if key !in params || BlankParam(params[key]) then Err(ParameterMissing)
    else if params[key].Text? then Err(NotAHash)
    else Ok(params[key].fields)
  }

  /** A key listed in `permit(...)`: kept when its value is a permitted scalar (a string), dropped
      otherwise. */
  function Scalar(fields: Params, key: string): Option<string>
  {
    if key in fields && fields[key].Text? then Some(fields[key].text) else None
  }

  /** `params.require(:user).permit(:screen_name, :password, :password_confirmation, :about)`. */
  function UserParams(params: Params): Result<UserModel.UserAttrs, ParamError>
  {
    match Require(params, "user")
    case Err(e) => Err(e)
    case Ok(fields) =>
      Ok(UserModel.UserAttrs(
        Scalar(fields, "screen_name"), Scalar(fields, "password"),
        Scalar(fields, "password_confirmation"), Scalar(fields, "about")))
  }

  /** What sign-in reads: `session_params.dig(:user, :screen_name)` and `dig(:user, :password)`. */
  datatype Credentials = Credentials(screenName: Option<string>, password: Option<string>)

  /** `params.require(:session).permit(user: [ :screen_name, :password ])`, dug into. A `user` that
      is not a hash is not permitted, and digging into it finds nil. */
  function SessionParams(params: Params): Result<Credentials, ParamError>
  {
    match Require(params, "session")
    case Err(e) => Err(e)
    case Ok(fields) =>
      if "user" in fields && fields["user"].Fields? then
        var user := fields["user"].fields;
        Ok(Credentials(Scalar(user, "screen_name"), Scalar(user, "password")))
      else Ok(Credentials(None, None))
  }

  /** Only the four listed keys of `params[:user]` reach the model, and only as strings: whatever else
      the form carries changes nothing. */
  lemma UserParamsReadOnlyPermitted(params: Params, other: Params)
    requires "user" in params && "user" in other && params["user"].Fields? && other["user"].Fields?
    requires params["user"].fields != map[] && other["user"].fields != map[]
    requires forall k :: k in {"screen_name", "password", "password_confirmation", "about"} ==>
      Scalar(params["user"].fields, k) == Scalar(other["user"].fields, k)
    ensures UserParams(params) == UserParams(other)
  {
    assert Scalar(params["user"].fields, "screen_name") == Scalar(other["user"].fields, "screen_name");
    assert Scalar(params["user"].fields, "password") == Scalar(other["user"].fields, "password");
    assert Scalar(params["user"].fields, "password_confirmation") == Scalar(other["user"].fields, "password_confirmation");
    assert Scalar(params["user"].fields, "about") == Scalar(other["user"].fields, "about");
  }

  /** A form that fills in `user[...]` reaches the model as exactly those strings. */
  lemma UserParamsOfForm(screenName: string, password: string, confirmation: string, about: string)
    ensures UserParams(map["user" := Fields(map[
      "screen_name" := Text(screenName), "password" := Text(password),
      "password_confirmation" := Text(confirmation), "about" := Text(about)])])
      == Ok(UserModel.UserAttrs(Some(screenName), Some(password), Some(confirmation), Some(about)))
  {
    var form := map["screen_name" := Text(screenName), "password" := Text(password),
      "password_confirmation" := Text(confirmation), "about" := Text(about)];
    assert "screen_name" in form;
    assert Require(map["user" := Fields(form)], "user") == Ok(form);
  }

  /** The sign-in form reaches the controller as the two strings it holds; a request without the
      form is a 400, and one whose `session` is a non-blank string a 500. */
  lemma SessionParamsCases(params: Params, screenName: string, password: string)
    ensures SessionParams(map["session" := Fields(map["user" := Fields(map[
      "screen_name" := Text(screenName), "password" := Text(password)])])])
      == Ok(Credentials(Some(screenName), Some(password)))
    ensures "session" !in params ==> SessionParams(params) == Err(ParameterMissing)
    ensures "session" in params && params["session"].Text? ==>
      SessionParams(params) == Err(if Blank(params["session"].text) then ParameterMissing else NotAHash)
  {
    var user := map["screen_name" := Text(screenName), "password" := Text(password)];
    var form := map["user" := Fields(user)];
    assert "user" in form;
    assert Require(map["session" := Fields(form)], "session") == Ok(form);
  }

  /** The status a request gets when reading its parameters fails: the user form (or the sign-in form)
      fails exactly when `user` (`session`) is absent or not a non-empty hash; an absent or blank one
      is a 400, and a non-blank string a 500. */
  lemma ParamsFailureStatus(params: Params)
    ensures UserParams(params).Err? <==>
      "user" !in params || params["user"].Text? || params["user"].fields == map[]
    ensures UserParams(params).Err? ==>
      ParamFailure(UserParams(params).error) == Failure(if "user" !in params || BlankParam(params["user"]) then BAD_REQUEST else INTERNAL_SERVER_ERROR)
    ensures SessionParams(params).Err? <==>
      "session" !in params || params["session"].Text? || params["session"].fields == map[]
    ensures SessionParams(params).Err? ==>
      ParamFailure(SessionParams(params).error) == Failure(if "session" !in params || BlankParam(params["session"]) then BAD_REQUEST else INTERNAL_SERVER_ERROR)
  {
  }

  predicate IsDigit(c: char)
  {
    '0' <= c <= '9'
  }

  /** The longest prefix of `s` made of decimal digits. */
  function LeadingDigits(s: string): (d: string)
    ensures |d| <= |s| && d == s[..|d|]
    ensures forall i :: 0 <= i < |d| ==> IsDigit(d[i])
    ensures |d| < |s| ==> !IsDigit(s[|d|])
  {
    if |s| == 0 || !IsDigit(s[0]) then ""
    else
      var rest := LeadingDigits(s[1..]);
      assert s[..1 + |rest|] == [s[0]] + s[1..][..|rest|];
      [s[0]] + rest
  }

  /** The number a string of decimal digits denotes. */
  function DigitsValue(d: string): nat
    requires forall i :: 0 <= i < |d| ==> IsDigit(d[i])
  {
    if |d| == 0 then 0
    else
      assert IsDigit(d[|d| - 1]);
      10 * DigitsValue(d[..|d| - 1]) + (d[|d| - 1] as int - '0' as int)
  }

  /** The integer cast ActiveRecord applies to `params[:id]` (String#to_i): the value of the leading
      digits, 0 when there are none. No row has id 0, so such an id finds nothing. */
  function ToId(s: string): Id
  {
    DigitsValue(LeadingDigits(s))
  }

  /** The decimal rendering of an id, as `user_path(user)` and the other path helpers write it. */
  function Decimal(n: nat): (s: string)
    ensures |s| > 0 && (forall i :: 0 <= i < |s| ==> IsDigit(s[i]))
  {
    if n < 10 then [('0' as int + n) as char] else Decimal(n / 10) + [('0' as int + n % 10) as char]
  }

  /** The leading digits of a string of digits followed by a non-digit are those digits. */
  lemma {:induction false} LeadingDigitsOf(d: string, rest: string)
    requires forall i :: 0 <= i < |d| ==> IsDigit(d[i])
    requires |rest| == 0 || !IsDigit(rest[0])
    ensures LeadingDigits(d + rest) == d
    decreases |d|
  {
    if |d| > 0 {
      assert (d + rest)[1..] == d[1..] + rest;
      LeadingDigitsOf(d[1..], rest);
      assert d == [d[0]] + d[1..];
    }
  }

  /** DigitsValue inverts Decimal. */
  lemma {:induction false} DigitsValueOfDecimal(n: nat)
    ensures DigitsValue(Decimal(n)) == n
  {
    if n >= 10 {
      var s := Decimal(n);
      assert s[..|s| - 1] == Decimal(n / 10);
      DigitsValueOfDecimal(n / 10);
    }
  }

  /** Round trip: an id written into a path by a path helper is read back as that id, also when the
      path segment goes on with a non-digit (`/users/12-alice` is user 12). */
  lemma ToIdOfDecimal(n: nat, rest: string)
    requires |rest| == 0 || !IsDigit(rest[0])
    ensures ToId(Decimal(n) + rest) == n
    ensures Routes.IdSegment(Decimal(n))
  {
    LeadingDigitsOf(Decimal(n), rest);
    DigitsValueOfDecimal(n);
  }

  /** A segment that does not start with a digit, such as "new" or "me", is the id 0, which no row
      has. */
  lemma ToIdOfNonNumeric(s: string)
    requires |s| == 0 || !IsDigit(s[0])
    ensures ToId(s) == 0
  {
  }
}
