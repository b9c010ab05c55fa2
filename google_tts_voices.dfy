/** The `google-tts-voices` edge function: with the awaited sign-in,
    credential lookup and provider answer taken as inputs, the handler is a
    function from those to the response it returns and the provider URL it
    requests, if any. */
module GoogleTtsVoices {
  import opened Types
  import opened Strings
  import opened Platform

  const CorsHeaders: map<string, string> := map[
    "Access-Control-Allow-Origin" := "*",
    "Access-Control-Allow-Headers" := "authorization, x-client-info, apikey, content-type"
  ]
  const JsonHeaders: map<string, string> := CorsHeaders["Content-Type" := "application/json"]

  /** The voice-listing endpoint; the key is appended as a query parameter. */
  const VoicesEndpoint: string := "https://texttospeech.googleapis.com/v1/voices?key="

  const NotAuthenticatedError: string := "User not authenticated"
  const KeyNotFoundError: string := "Google API key not found. Please set it in the Settings page."
  const InvalidKeyError: string := "The provided Google API Key is invalid."
  const ErrorPrefix: string := "Google API Error: "
  /** Compared against the lower-cased provider message. */
  const InvalidKeyMarker: string := "api key not valid"

  /** What the awaited `fetch` and `response.json()` give: either one of
      them throws (a network failure, a body that is not JSON) with the
      error's message, or the parsed value, of which the handler reads
      `error.message` and which it re-serialises as `serialized` when
      passing it through. */
  datatype ProviderBody =
    | Threw(thrownMessage: string)
    | Parsed(errorMessage: Option<string>, serialized: string)

  /** The provider's answer: `response.ok`, `response.statusText`, the body. */
  datatype ProviderReply = ProviderReply(ok: bool, statusText: string, body: ProviderBody)

  datatype ResponseBody =
    | PlainText(text: string)
    | ErrorJson(error: string)
    | PassThrough(serialized: string)

  /** `headers` is the dictionary the handler passes to `new Response`; for
      the plain-text preflight answer the runtime adds its own
      `Content-Type: text/plain;charset=UTF-8`, which is not part of it. */
  datatype Response = Response(status: int, headers: map<string, string>, body: ResponseBody)

  /** The response returned, and the URL fetched from the provider (None when
      the handler returns before the call). */
  datatype Handled = Handled(response: Response, fetchedUrl: Option<string>)

  function ErrorResponse(status: int, error: string): (r: Response)
    ensures r.status == status && r.body == ErrorJson(error) && r.headers == JsonHeaders
  {
    Response(status, JsonHeaders, ErrorJson(error))
  }

  /** `data?.error?.message || \`Google API Error: ${statusText}\``. */
  function ProviderErrorMessage(errorMessage: Option<string>, statusText: string): (m: string)
    ensures errorMessage.Some? && errorMessage.value != "" ==> m == errorMessage.value
    ensures errorMessage.None? || errorMessage.value == "" ==> m == ErrorPrefix + statusText
  {
    if errorMessage.Some? && errorMessage.value != "" then errorMessage.value else ErrorPrefix + statusText
  }

  /** The marker occurs in `message` at index `i`, ignoring ASCII case. */
  ghost predicate MarkerAtIgnoringCase(message: string, i: int)
  {
    && 0 <= i <= |message| - |InvalidKeyMarker|
    && forall j :: 0 <= j < |InvalidKeyMarker| ==> ToLowerChar(message[i + j]) == InvalidKeyMarker[j]
  }

  /** A provider message that names an invalid key, ignoring case. */
  predicate SaysKeyInvalid(message: string)
    ensures SaysKeyInvalid(message) <==> exists i :: MarkerAtIgnoringCase(message, i)
  {
    MarkerWindows(message);
    Contains(ToLower(message), InvalidKeyMarker)
  }

  lemma MarkerWindows(message: string)
    ensures (exists i :: OccursAt(ToLower(message), InvalidKeyMarker, i)) <==> exists i :: MarkerAtIgnoringCase(message, i)
  {
    var lower := ToLower(message);
    forall i
      ensures OccursAt(lower, InvalidKeyMarker, i) <==> MarkerAtIgnoringCase(message, i)
    {
      if 0 <= i <= |message| - |InvalidKeyMarker| {
        if OccursAt(lower, InvalidKeyMarker, i) {
          forall j | 0 <= j < |InvalidKeyMarker|
            ensures ToLowerChar(message[i + j]) == InvalidKeyMarker[j]
          {
            assert lower[i..i + |InvalidKeyMarker|][j] == lower[i + j];
          }
        }
        if MarkerAtIgnoringCase(message, i) {
          assert lower[i..i + |InvalidKeyMarker|] == InvalidKeyMarker;
        }
      }
    }
  }

  /** The response once the provider call has settled. */
  function ClassifyReply(reply: ProviderReply): (r: Response)
    ensures reply.body.Threw? ==> r == ErrorResponse(500, reply.body.thrownMessage)
    ensures reply.body.Parsed? && reply.ok ==> r == Response(200, JsonHeaders, PassThrough(reply.body.serialized))
    ensures reply.body.Parsed? && !reply.ok ==>
      var m := ProviderErrorMessage(reply.body.errorMessage, reply.statusText);
      r == if SaysKeyInvalid(m) then ErrorResponse(400, InvalidKeyError) else ErrorResponse(500, m)
  {
    match reply.body
    case Threw(thrownMessage) =>
      ErrorResponse(500, thrownMessage)
    case Parsed(errorMessage, serialized) =>
      if !reply.ok then
        var m := ProviderErrorMessage(errorMessage, reply.statusText);
        if SaysKeyInvalid(m) then ErrorResponse(400, InvalidKeyError) else ErrorResponse(500, m)
      else
        Response(200, JsonHeaders, PassThrough(serialized))
  }

  /** The `serve` handler. */
  function Serve(requestMethod: string, user: Option<User>, credential: CredentialLookup, reply: ProviderReply): (h: Handled)
    ensures requestMethod == "OPTIONS" ==>
      h == Handled(Response(200, CorsHeaders, PlainText("ok")), None)
    ensures requestMethod != "OPTIONS" && user.None? ==>
      h == Handled(ErrorResponse(401, NotAuthenticatedError), None)
    ensures requestMethod != "OPTIONS" && user.Some? && !HasApiKey(credential) ==>
      h == Handled(ErrorResponse(400, KeyNotFoundError), None)
    ensures requestMethod != "OPTIONS" && user.Some? && HasApiKey(credential) ==>
      h == Handled(ClassifyReply(reply), Some(VoicesEndpoint + credential.apiKey.value))
  {
    if requestMethod == "OPTIONS" then
      Handled(Response(200, CorsHeaders, PlainText("ok")), None)
    else if user.None? then
      Handled(ErrorResponse(401, NotAuthenticatedError), None)
    else if !HasApiKey(credential) then
      Handled(ErrorResponse(400, KeyNotFoundError), None)
    else
      Handled(ClassifyReply(reply), Some(VoicesEndpoint + credential.apiKey.value))
  }

  /** Every response carries the CORS headers. */
  lemma EveryResponseHasCorsHeaders(requestMethod: string, user: Option<User>, credential: CredentialLookup, reply: ProviderReply)
    ensures var headers := Serve(requestMethod, user, credential, reply).response.headers;
      forall k :: k in CorsHeaders ==> k in headers && headers[k] == CorsHeaders[k]
  {
  }

  /** The handler answers only with 200, 400, 401 or 500. */
  lemma StatusIsOneOfFour(requestMethod: string, user: Option<User>, credential: CredentialLookup, reply: ProviderReply)
    ensures Serve(requestMethod, user, credential, reply).response.status in {200, 400, 401, 500}
  {
  }

  /** Without a usable key the provider is not called: the answer cannot
      depend on what the provider would have said. */
  lemma NoProviderCallWithoutKey(requestMethod: string, user: Option<User>, credential: CredentialLookup, reply: ProviderReply, other: ProviderReply)
    requires requestMethod == "OPTIONS" || user.None? || !HasApiKey(credential)
    ensures Serve(requestMethod, user, credential, reply) == Serve(requestMethod, user, credential, other)
    ensures Serve(requestMethod, user, credential, reply).fetchedUrl == None
  {
  }

  /** A preflight request is answered before sign-in and lookup are read. */
  lemma PreflightIgnoresEverythingElse(user: Option<User>, credential: CredentialLookup, reply: ProviderReply)
    ensures Serve("OPTIONS", user, credential, reply) == Serve("OPTIONS", None, NoRow, reply)
  {
  }

  /** Outside a preflight, 200 exactly when a signed-in user's stored key
      gets an ok answer that parses; the provider body then passes
      unchanged. */
  lemma SuccessIff(requestMethod: string, user: Option<User>, credential: CredentialLookup, reply: ProviderReply)
    requires requestMethod != "OPTIONS"
    ensures var h := Serve(requestMethod, user, credential, reply);
      h.response.status == 200 <==> user.Some? && HasApiKey(credential) && reply.ok && reply.body.Parsed?
    ensures var h := Serve(requestMethod, user, credential, reply);
      h.response.status == 200 ==> h.response.body == PassThrough(reply.body.serialized)
  {
  }

  /** A failed provider answer is a 400 invalid-key error exactly when its
      message names an invalid key, and otherwise a 500 carrying it. */
  lemma ProviderFailureClassified(user: User, apiKey: string, reply: ProviderReply)
    requires apiKey != "" && !reply.ok && reply.body.Parsed?
    ensures var r := Serve("GET", Some(user), Row(Some(apiKey)), reply).response;
      var m := ProviderErrorMessage(reply.body.errorMessage, reply.statusText);
      && (r.status == 400 <==> SaysKeyInvalid(m))
      && (r.status == 400 ==> r.body == ErrorJson(InvalidKeyError))
      && (r.status != 400 ==> r.status == 500 && r.body == ErrorJson(m))
  {
  }

  /** A message that starts with the marker as Google capitalises it
      names an invalid key, whatever follows. */
  lemma CapitalisedMarkerSaysKeyInvalid(tail: string)
    ensures SaysKeyInvalid("API key not valid" + tail)
  {
    var message := "API key not valid" + tail;
    var lower := ToLower(message);
    assert lower[0] == 'a' && lower[1] == 'p' && lower[2] == 'i';
    assert forall i :: 3 <= i < |InvalidKeyMarker| ==> lower[i] == message[i];
    assert lower[0..|InvalidKeyMarker|] == InvalidKeyMarker;
    assert OccursAt(lower, InvalidKeyMarker, 0);
  }

  /** Google's message for a bad key ("API key not valid. Please pass a
      valid API key.") and every other message that opens with the same
      words give the invalid-key error, not a server error. */
  lemma GoogleInvalidKeyMessageRecognised(user: User, apiKey: string, tail: string, statusText: string, serialized: string)
    requires apiKey != ""
    ensures var reply := ProviderReply(false, statusText, Parsed(Some("API key not valid" + tail), serialized));
      Serve("GET", Some(user), Row(Some(apiKey)), reply).response == ErrorResponse(400, InvalidKeyError)
  {
    CapitalisedMarkerSaysKeyInvalid(tail);
  }
}
