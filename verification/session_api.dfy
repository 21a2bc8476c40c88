/** The `Api` singleton: one shared instance holding the signed-in customer's
    access token, the password-grant token request with its response-shape
    check, and the bodies of the sign-up and sign-in posts. */
module SessionApi {
  import opened Common

  /** A parsed JSON value. Numbers are integers here; the token check never
      looks at a number's value. */
  datatype Json =
    | JNull
    | JBool(b: bool)
    | JNum(n: int)
    | JStr(s: string)
    | JArr(items: seq<Json>)
    | JObj(props: map<string, Json>)

  /** JavaScript truthiness of a parsed JSON value. */
  predicate JsonTruthy(j: Json) {
    match j
    case JNull => false
    case JBool(b) => b
    case JNum(n) => n != 0
    case JStr(s) => s != ""
    case JArr(_) => true
    case JObj(_) => true
  }

  /** The class-level state: the lazily created instance (an object identity)
      and that instance's stored customer token. */
  datatype ApiState = ApiState(instance: Option<nat>, nextObject: nat, tokenCustomer: Option<string>)

  /** `Api.getInstance()`: creates the instance on first use and returns the
      stored one afterwards. */
  function GetInstance(st: ApiState): (r: (ApiState, nat))
    ensures r.0.instance == Some(r.1)
    ensures st.instance.Some? ==> r == (st, st.instance.value)
    ensures st.instance.None? ==> r.1 == st.nextObject && r.0 == st.(instance := Some(st.nextObject), nextObject := st.nextObject + 1)
  {
    if st.instance.Some? then (st, st.instance.value)
    else (st.(instance := Some(st.nextObject), nextObject := st.nextObject + 1), st.nextObject)
  }

  /** Every later call returns the object the first call returned and changes
      nothing. */
  lemma GetInstanceStable(st: ApiState)
    ensures var (s1, a) := GetInstance(st);
      var (s2, b) := GetInstance(s1);
      a == b && s2 == s1
  {
  }

  /** `getTokenCustomer`: the stored token, or undefined when it is unset or empty. */
  function GetTokenCustomer(st: ApiState): (r: Option<string>)
    ensures r.Some? <==> Truthy(st.tokenCustomer)
    ensures r.Some? ==> r == st.tokenCustomer && r.value != ""
  {
    if Truthy(st.tokenCustomer) then st.tokenCustomer else None
  }

  /** The answer of the token endpoint: its `ok` flag and its JSON body
      (parsing may throw). */
  datatype TokenResponse = TokenResponse(ok: bool, body: Call<Json>)

  const AUTH_FAILED := "Auth failed: token not received"
  const TOKEN_NOT_RECEIVED := "Token not received"

  /** The accepted token shape: an object with a string `access_token`. */
  predicate HasAccessToken(j: Json) {
    JsonTruthy(j) && j.JObj? && "access_token" in j.props && j.props["access_token"].JStr?
  }

  /** `getToken`: a rejected `fetch` is rethrown, a non-ok answer throws, a
      body of the wrong shape throws, and an accepted token is stored on the
      instance and returned. */
  function GetToken(st: ApiState, fetched: Call<TokenResponse>): (r: (ApiState, Call<string>))
    ensures fetched.Throws? ==> r == (st, Throws(fetched.error))
    ensures fetched.Returns? && !fetched.value.ok ==> r == (st, Throws(ErrorObject(AUTH_FAILED)))
    ensures fetched.Returns? && fetched.value.ok && fetched.value.body.Throws? ==>
      r == (st, Throws(fetched.value.body.error))
    ensures r.1.Returns? <==>
      fetched.Returns? && fetched.value.ok && fetched.value.body.Returns? && HasAccessToken(fetched.value.body.value)
    ensures r.1.Returns? ==>
      r.1.value == fetched.value.body.value.props["access_token"].s
      && r.0 == st.(tokenCustomer := Some(r.1.value))
    ensures fetched.Returns? && fetched.value.ok && fetched.value.body.Returns? && !HasAccessToken(fetched.value.body.value) ==>
      r == (st, Throws(ErrorObject(TOKEN_NOT_RECEIVED)))
  {
    match fetched
    case Throws(e) => (st, Throws(e))
    case Returns(resp) =>
      if !resp.ok then (st, Throws(ErrorObject(AUTH_FAILED)))
      else match resp.body
        case Throws(e) => (st, Throws(e))
        case Returns(data) =>
          if JsonTruthy(data) && data.JObj? && "access_token" in data.props && data.props["access_token"].JStr? then
            var token := data.props["access_token"].s;
            (st.(tokenCustomer := Some(token)), Returns(token))
          else (st, Throws(ErrorObject(TOKEN_NOT_RECEIVED)))
  }

  /** After a successful `getToken`, `getTokenCustomer` hands back the token
      just received, unless the platform sent an empty string, which reads
      back as undefined. */
  lemma TokenReadBack(st: ApiState, resp: Call<TokenResponse>)
    ensures var (st', got) := GetToken(st, resp);
      got.Returns? ==>
        (got.value != "" ==> GetTokenCustomer(st') == Some(got.value))
        && (got.value == "" ==> GetTokenCustomer(st') == None)
  {
  }

  /** A failed `getToken` leaves the stored token as it was. */
  lemma FailedTokenKeepsState(st: ApiState, resp: Call<TokenResponse>)
    ensures GetToken(st, resp).1.Throws? ==> GetToken(st, resp).0 == st
  {
  }

  /** The two requests a sign-in sends. */
  datatype AuthRequest =
    | LoginPost(email: string, password: string)
    | TokenPost(username: string, grantPassword: string)

  datatype LoginResult<+C> = LoginResult(customer: C, token: string)

  /** `loginCustomer`: posts the credentials, and only after that post has
      resolved asks the token endpoint with the same credentials. */
  function LoginCustomer<C>(st: ApiState, email: string, password: string, login: Call<C>, tokenResp: Call<TokenResponse>)
    : (r: (ApiState, seq<AuthRequest>, Call<LoginResult<C>>))
    ensures |r.1| >= 1 && r.1[0] == LoginPost(email, password)
    ensures TokenPost(email, password) in r.1 <==> login.Returns?
    ensures r.1 == if login.Returns? then [LoginPost(email, password), TokenPost(email, password)] else [LoginPost(email, password)]
    ensures login.Throws? ==> r.0 == st && r.2 == Throws(login.error)
    ensures r.2.Returns? <==> login.Returns? && GetToken(st, tokenResp).1.Returns?
    ensures r.2.Returns? ==>
      r.2.value == LoginResult(login.value, GetToken(st, tokenResp).1.value)
      && GetTokenCustomer(r.0) == GetTokenCustomer(st.(tokenCustomer := Some(r.2.value.token)))
  {
    match login
    case Throws(e) => (st, [LoginPost(email, password)], Throws(e))
    case Returns(customer) =>
      var (st', token) := GetToken(st, tokenResp);
      var requests := [LoginPost(email, password), TokenPost(email, password)];
      match token
      case Returns(t) => (st', requests, Returns(LoginResult(customer, t)))
      case Throws(e) => (st', requests, Throws(e))
  }

  /** The address fields of the sign-up form. */
  datatype SignUpAddress = SignUpAddress(street: string, city: string, postalCode: string, country: string)

  /** The customer draft `registerCustomer` posts. A default address is an
      index into `addresses`; None is an undefined property. */
  datatype CustomerDraft = CustomerDraft(
    email: string,
    password: string,
    firstName: string,
    lastName: string,
    dateOfBirth: string,
    addresses: seq<SignUpAddress>,
    defaultShippingAddress: Option<nat>,
    defaultBillingAddress: Option<nat>)

  /** The sign-up body: the form's fields, exactly one address, and no default
      shipping or billing address. */
  function RegistrationBody(
    email: string, password: string, firstName: string, lastName: string,
    dateOfBirth: string, address: SignUpAddress): (d: CustomerDraft)
    ensures |d.addresses| == 1 && d.addresses[0] == address
    ensures d.defaultShippingAddress.None? && d.defaultBillingAddress.None?
    ensures (d.email, d.password, d.firstName, d.lastName, d.dateOfBirth)
      == (email, password, firstName, lastName, dateOfBirth)
  {
    CustomerDraft(email, password, firstName, lastName, dateOfBirth, [address], None, None)
  }
}
