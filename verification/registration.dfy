/** `registerCustomer`: maps the platform's answer to a registered flag and,
    when the platform rejects the draft, normalises its structured error list. */
module Registration {
  import opened Common
  import opened JsString

  /** One entry of the platform's `body.errors` array. */
  datatype PlatformError = PlatformError(
    code: string,
    message: string,
    detailedErrorMessage: Option<string>,
    duplicateValue: Option<string>)

  /** The normalised entry the registration form reads. */
  datatype ErrorEntry = ErrorEntry(detailedErrorMessage: string, code: string, error: string, message: string)

  /** What posting the customer draft produced: a response (whose status code
      may be missing), or a thrown value that may or may not carry a
      `body.errors` array. */
  datatype RegistrationCall =
    | Responded(statusCode: Option<int>)
    | Rejected(errors: Option<seq<PlatformError>>)

  /** `message` is either a plain text or the normalised error list. */
  datatype RegisterMessage = Text(text: string) | Entries(entries: seq<ErrorEntry>)

  /** The sign-in response handed back on the non-throwing path. */
  datatype SignInResponse = SignInResponse(statusCode: Option<int>)

  datatype RegistrationResponse = RegistrationResponse(
    response: Option<SignInResponse>,
    registered: bool,
    message: RegisterMessage)

  /** Normalises one platform error. A truthy `detailedErrorMessage` is split on
      `:` and trimmed: the first part is the code, the second the error, the rest
      rejoined with `:` the message, missing parts defaulting to `''`. Otherwise
      the top-level fields are used, the error falling back from the duplicate
      value to the message. */
  function NormalizeError(e: PlatformError): (r: ErrorEntry)
    ensures Truthy(e.detailedErrorMessage) ==>
      var parts := TrimAll(Split(e.detailedErrorMessage.value, ':'));
      && r.detailedErrorMessage == e.detailedErrorMessage.value
      && r.code == parts[0]
      && (|parts| >= 2 ==> r.error == parts[1])
      && (|parts| < 2 ==> r.error == "")
      && (|parts| < 3 ==> r.message == "")
      && (|parts| >= 3 ==> [r.code, r.error] + Split(r.message, ':') == parts)
    ensures !Truthy(e.detailedErrorMessage) ==>
      && r.detailedErrorMessage == e.message
      && r.code == e.code
      && r.message == e.message
      && r.error == OrElse(e.duplicateValue, e.message)
  {
    if Truthy(e.detailedErrorMessage) then
      var raw := Split(e.detailedErrorMessage.value, ':');
      var parts := TrimAll(raw);
      var rest := if |parts| > 2 then parts[2..] else [];
      TailRoundTrip(raw);
      ErrorEntry(
        e.detailedErrorMessage.value,
        parts[0],
        if |parts| > 1 then parts[1] else "",
        Join(rest, ':'))
    else
      ErrorEntry(e.message, e.code, OrElse(e.duplicateValue, e.message), e.message)
  }

  /** Rejoining the trimmed tail and splitting it again gives the tail back,
      since trimmed pieces of a split contain no separator. */
  lemma TailRoundTrip(raw: seq<string>)
    requires forall i :: 0 <= i < |raw| ==> ':' !in raw[i]
    ensures var parts := TrimAll(raw);
      |parts| >= 3 ==> [parts[0], parts[1]] + Split(Join(parts[2..], ':'), ':') == parts
  {
    var parts := TrimAll(raw);
    if |parts| >= 3 {
      var rest := parts[2..];
      forall i | 0 <= i < |rest| ensures ':' !in rest[i] {
        TrimKeepsAbsence(raw[i + 2], ':');
      }
      SplitJoin(rest, ':');
      assert [parts[0], parts[1]] + rest == parts;
    }
  }

  /** The status → registered mapping, and the catch path that keeps one
      normalised entry per platform error, in order. */
  function RegisterCustomer(call: RegistrationCall): (r: RegistrationResponse)
    ensures r.registered <==> call.Responded? && call.statusCode.Some? && 200 <= call.statusCode.value < 300
    ensures r.response.Some? <==> call.Responded?
    ensures call.Responded? ==> r.response == Some(SignInResponse(call.statusCode))
    ensures call.Responded? ==> r.message == Text(if r.registered then "OK" else "Not Registered")
    ensures call.Rejected? ==> r.message.Entries?
    ensures call.Rejected? && call.errors.None? ==> r.message == Entries([])
    ensures call.Rejected? && call.errors.Some? ==>
      && |r.message.entries| == |call.errors.value|
      && forall i :: 0 <= i < |call.errors.value| ==> r.message.entries[i] == NormalizeError(call.errors.value[i])
  {
    match call
    case Responded(status) =>
      var registered := status.Some? && status.value != 0 && status.value >= 200 && status.value < 300;
      RegistrationResponse(Some(SignInResponse(status)), registered, Text(if registered then "OK" else "Not Registered"))
    case Rejected(errors) =>
      var entries := if errors.Some? then NormalizeAll(errors.value) else [];
      RegistrationResponse(None, false, Entries(entries))
  }

  /** `errors.forEach(... message.push(...))` */
  function NormalizeAll(errors: seq<PlatformError>): (r: seq<ErrorEntry>)
    ensures |r| == |errors|
    ensures forall i :: 0 <= i < |errors| ==> r[i] == NormalizeError(errors[i])
  {
    if |errors| == 0 then [] else [NormalizeError(errors[0])] + NormalizeAll(errors[1..])
  }

  /** A field the platform writes into a detailed message: non-empty, without
      `:` and without surrounding whitespace. */
  predicate CleanField(x: string) {
    x != [] && ':' !in x && !HasOuterWs(x)
  }

  /** Trimming removes exactly one leading space from a clean field. */
  lemma TrimSpacedField(x: string)
    requires CleanField(x)
    ensures Trim(" " + x) == x
  {
    var t := " " + x;
    assert t[1..] == x;
    assert LeadingWs(t) == 1;
    assert TrailingWs(t) == 0;
  }

  /** The three pieces of `code: error: message` before trimming. */
  lemma SplitDetail(code: string, error: string, message: string)
    requires CleanField(code) && CleanField(error) && CleanField(message)
    ensures Split(code + ": " + error + ": " + message, ':') == [code, " " + error, " " + message]
  {
    var raw := [code, " " + error, " " + message];
    NoColonAfterSpace(error);
    NoColonAfterSpace(message);
    JoinThree(code, " " + error, " " + message, ':');
    ColonSpaceLayout(code, error, message);
    SplitJoin(raw, ':');
  }

  lemma ColonSpaceLayout(x: string, y: string, z: string)
    ensures x + ": " + y + ": " + z == x + [':'] + (" " + y) + [':'] + (" " + z)
  {
    assert ": " == [':'] + " ";
  }

  lemma NoColonAfterSpace(x: string)
    requires ':' !in x
    ensures ':' !in " " + x
  {
    assert forall i :: 1 <= i < |" " + x| ==> (" " + x)[i] == x[i - 1];
  }

  lemma JoinThree(a: string, b: string, c: string, sep: char)
    ensures Join([a, b, c], sep) == a + [sep] + b + [sep] + c
  {
    assert [a, b, c][1..] == [b, c];
    assert [b, c][1..] == [c];
    assert Join([c], sep) == c;
    assert Join([b, c], sep) == b + [sep] + c;
  }

  /** The pieces trim to the fields themselves. */
  lemma TrimDetail(code: string, error: string, message: string)
    requires CleanField(code) && CleanField(error) && CleanField(message)
    ensures TrimAll([code, " " + error, " " + message]) == [code, error, message]
  {
    TrimSpacedField(error);
    TrimSpacedField(message);
    TrimFixedPoint(code);
  }

  /** A detailed message of the form `code: error: message`, the way the
      platform reports a duplicate email, is taken apart into its three fields. */
  lemma DetailedMessageFields(code: string, error: string, message: string, top: PlatformError)
    requires CleanField(code) && CleanField(error) && CleanField(message)
    ensures var detail := code + ": " + error + ": " + message;
      NormalizeError(top.(detailedErrorMessage := Some(detail)))
        == ErrorEntry(detail, code, error, message)
  {
    var detail := code + ": " + error + ": " + message;
    SplitDetail(code, error, message);
    TrimDetail(code, error, message);
    var parts := [code, error, message];
    assert parts[2..] == [message];
  }

  /** Without a detailed message and without a duplicate value, every field of
      the entry is the platform's message except the code. */
  lemma SimpleErrorExample()
    ensures NormalizeError(PlatformError("InvalidInput", "Password does not meet requirements", None, None))
      == ErrorEntry(
        "Password does not meet requirements",
        "InvalidInput",
        "Password does not meet requirements",
        "Password does not meet requirements")
  {
  }
}
