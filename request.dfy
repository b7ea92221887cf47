/**
 The client helper that shapes a request to the score endpoint: the `images`
 validator of SentMessage, the host/port rule, the route builder, the fixed fields
 of the payload, and the bearer-token decision of `post_compute_score`. The
 identity-token provider (`mint`) and the HTTP call (`send`) are parameters.
 */
module Request {
  import opened Python
  import opened Strings
  import Base64
  import Score

  // ---------------------------------------------------------------------------
  // The `images` validator

  /** An element of the list given as `images`: a `str`, a `bytes`, or a value of another type. */
  datatype Image = Text(text: string) | Raw(content: bytes) | OtherValue(typeName: string)

  /** One step of `images_to_bytes`: text is kept, bytes become Base64 text, anything else raises. */
  function NormalizeImage(image: Image): (r: Result<string, Exception>)
  {
    match image
    case Text(text) => Success(text)
    case Raw(content) => Success(Base64.Encode(content))
    case OtherValue(_) => Failure(Exception(NotImplementedError, ""))
  }

  /** What the validator leaves in the field: `None` for `None`, else the normalised list or the exception. */
  function NormalizedImages(images: Option<seq<Image>>): Result<Option<seq<string>>, Exception>
  {
    match images
    case None => Success(None)
    case Some(xs) =>
      match MapInOrder(xs, NormalizeImage)
      case Failure(e) => Failure(e)
      case Success(texts) => Success(Some(texts))
  }

  /**
   What the validator promises: `None` stays `None`; a list keeps its length and
   order, its text elements unchanged and its bytes elements as Base64 text that
   decodes back to them; an element of any other type raises NotImplementedError.
   */
  lemma NormalizedImagesSpec(images: Option<seq<Image>>)
    ensures images.None? ==> NormalizedImages(images) == Success(None)
    ensures images.Some? ==>
      (NormalizedImages(images).Failure? <==> exists i :: 0 <= i < |images.value| && images.value[i].OtherValue?)
    ensures NormalizedImages(images).Failure? ==> NormalizedImages(images).error.kind == NotImplementedError
    ensures images.Some? && NormalizedImages(images).Success? ==>
      var xs, texts := images.value, NormalizedImages(images).value;
      texts.Some? && |texts.value| == |xs| &&
      (forall i :: 0 <= i < |xs| && xs[i].Text? ==> texts.value[i] == xs[i].text) &&
      (forall i :: 0 <= i < |xs| && xs[i].Raw? ==>
         texts.value[i] == Base64.Encode(xs[i].content) &&
         Base64.Decode(texts.value[i]) == Some(xs[i].content))
  {
    if images.Some? {
      var xs := images.value;
      MapInOrderSuccess(xs, NormalizeImage);
      if NormalizedImages(images).Failure? {
        var k := MapInOrderFailureAt(xs, NormalizeImage);
        assert xs[k].OtherValue?;
      } else {
        forall i | 0 <= i < |xs| && xs[i].Raw?
          ensures Base64.Decode(NormalizeImage(xs[i]).value) == Some(xs[i].content)
        {
          Base64.DecodeEncode(xs[i].content);
        }
      }
    }
  }

  /** `SentMessage.images_to_bytes`: builds the normalised list element by element. */
  method ImagesToBytes(images: Option<seq<Image>>) returns (r: Result<Option<seq<string>>, Exception>)
    ensures r == NormalizedImages(images)
  {
    var imgs: seq<string> := [];
    if images.Some? {
      var xs := images.value;
      var i := 0;
      while i < |xs|
        invariant 0 <= i <= |xs|
        invariant MapInOrder(xs[..i], NormalizeImage) == Success(imgs)
      {
        assert xs[..i + 1][..i] == xs[..i];
        var image := xs[i];
        if image.Text? {
          imgs := imgs + [image.text];
        } else if image.Raw? {
          imgs := imgs + [Base64.Encode(image.content)];
        } else {
          assert MapInOrder(xs[..i + 1], NormalizeImage).Failure?;
          MapInOrderPrefixFailure(xs, NormalizeImage, i + 1);
          return Failure(Exception(NotImplementedError, ""));
        }
        i := i + 1;
      }
      assert xs[..i] == xs;
      return Success(Some(imgs));
    }
    r := Success(None);
  }

  // ---------------------------------------------------------------------------
  // Host, port and route

  /**
   `http_call_url`: a host that does not contain "localhost" is used as it is; a
   local host gets `:port` appended; a local host without a port gives `None`.
   */
  function HttpCallUrl(hostUrl: string, apiAppPort: Option<int> := None): Option<string>
  {
    if !ContainsSubstring(hostUrl, "localhost") then Some(hostUrl)
    else if apiAppPort.Some? then Some(hostUrl + ":" + IntToDecimal(apiAppPort.value))
    else None
  }

  /** A host in which "localhost" occurs nowhere is returned unchanged, whatever the port. */
  lemma HttpCallUrlRemote(hostUrl: string, apiAppPort: Option<int>)
    requires forall i :: !OccursAt(hostUrl, "localhost", i)
    ensures HttpCallUrl(hostUrl, apiAppPort) == Some(hostUrl)
  {
    ContainsSubstringIff(hostUrl, "localhost");
  }

  /**
   A host in which "localhost" occurs, with a port: the result is the host, a colon
   and the decimal port, and reading the text after the colon gives back the port.
   */
  lemma HttpCallUrlLocalWithPort(hostUrl: string, port: int, i: int)
    requires OccursAt(hostUrl, "localhost", i)
    ensures HttpCallUrl(hostUrl, Some(port)) == Some(hostUrl + ":" + IntToDecimal(port))
    ensures var url := HttpCallUrl(hostUrl, Some(port)).value;
      hostUrl + ":" <= url && IsDecimal(url[|hostUrl| + 1..]) && DecimalValue(url[|hostUrl| + 1..]) == port
  {
    OccursAtContains(hostUrl, "localhost", i);
    var url := hostUrl + ":" + IntToDecimal(port);
    assert url[|hostUrl| + 1..] == IntToDecimal(port);
    IntToDecimalValue(port);
  }

  /** A host in which "localhost" occurs, without a port: the function returns `None`, not the host. */
  lemma HttpCallUrlLocalWithoutPort(hostUrl: string, i: int)
    requires OccursAt(hostUrl, "localhost", i)
    ensures HttpCallUrl(hostUrl) == None
  {
    OccursAtContains(hostUrl, "localhost", i);
  }

  lemma HttpCallUrlExamples()
    ensures HttpCallUrl("http://localhost", Some(8080)) == Some("http://localhost:8080")
    ensures HttpCallUrl("http://localhost") == None
  {
    assert OccursAt("http://localhost", "localhost", 7);
    HttpCallUrlLocalWithPort("http://localhost", 8080, 7);
    HttpCallUrlLocalWithoutPort("http://localhost", 7);
    assert IntToDecimal(8080) == "8080";
    assert "http://localhost" + ":" + "8080" == "http://localhost:8080";
  }

  lemma HttpCallUrlRemoteExample()
    ensures HttpCallUrl("http://example.com", Some(8080)) == Some("http://example.com")
  {
    var host := "http://example.com";
    forall i ensures !OccursAt(host, "localhost", i) {
      if 0 <= i <= |host| - 9 {
        assert host[i..i + 9][5] == host[i + 5] != 'h';
      }
    }
    HttpCallUrlRemote(host, Some(8080));
  }

  /** `build_full_route`: the application prefix, the router prefix and the route, in that order. */
  function BuildFullRoute(routerPrefix: string, route: string, apiAppPrefix: string := "/v1"): string
  {
    apiAppPrefix + routerPrefix + route
  }

  /** The three pieces can be read back from the full route at their offsets. */
  lemma BuildFullRouteParts(routerPrefix: string, route: string, apiAppPrefix: string)
    ensures var full := BuildFullRoute(routerPrefix, route, apiAppPrefix);
      |full| == |apiAppPrefix| + |routerPrefix| + |route| &&
      full[..|apiAppPrefix|] == apiAppPrefix &&
      full[|apiAppPrefix|..|apiAppPrefix| + |routerPrefix|] == routerPrefix &&
      full[|apiAppPrefix| + |routerPrefix|..] == route
  {
    var full := BuildFullRoute(routerPrefix, route, apiAppPrefix);
    assert full == (apiAppPrefix + routerPrefix) + route;
    assert (apiAppPrefix + routerPrefix)[..|apiAppPrefix|] == apiAppPrefix;
    assert (apiAppPrefix + routerPrefix)[|apiAppPrefix|..] == routerPrefix;
  }

  /** The endpoint of the score router under the default application prefix. */
  lemma ScoreEndpointRoute()
    ensures BuildFullRoute("/score", Score.PostComputeScoreRoute) == "/v1/score/post_compute_score"
  {
  }

  /**
   The call `build_full_route(Route.post_compute_score)` as Python makes it: with
   `args` as the positional arguments, fewer than two (or more than three) raise
   `TypeError` before the body runs.
   */
  function CallBuildFullRoute(args: seq<string>): (r: Result<string, Exception>)
    ensures r.Success? <==> 2 <= |args| <= 3
    ensures r.Failure? ==> r.error.kind == TypeError
  {
    if |args| == 2 then Success(BuildFullRoute(args[0], args[1]))
    else if |args| == 3 then Success(BuildFullRoute(args[0], args[1], args[2]))
    else Failure(Exception(TypeError, "build_full_route() takes 2 or 3 positional arguments"))
  }

  // ---------------------------------------------------------------------------
  // The payload

  /** The body `get_request_data` serialises (the fields of SentMessage). */
  datatype SentMessage = SentMessage(
    images: Option<seq<string>>,
    imagesLabels: Option<seq<string>>,
    imagesUrls: Option<seq<string>>,
    userId: string,
    preferences: seq<string>)

  const DummyUserId: string := "dummy_user_id"

  const FixedPreferences: seq<string> := ["environment", "societal", "animal", "health"]

  /** `get_request_data` before serialisation: fixed user and preference order, images through the validator. */
  function RequestData(images: Option<seq<Image>>, imagesLabels: Option<seq<string>>,
                       imagesUrls: Option<seq<string>>): (r: Result<SentMessage, Exception>)
    ensures r.Failure? <==> NormalizedImages(images).Failure?
    ensures r.Failure? ==> r.error == NormalizedImages(images).error
    ensures r.Success? ==>
      r.value.userId == "dummy_user_id" &&
      r.value.preferences == ["environment", "societal", "animal", "health"] &&
      r.value.images == NormalizedImages(images).value &&
      r.value.imagesLabels == imagesLabels && r.value.imagesUrls == imagesUrls
  {
    match NormalizedImages(images)
    case Failure(e) => Failure(e)
    case Success(normalized) => Success(SentMessage(normalized, imagesLabels, imagesUrls, DummyUserId, FixedPreferences))
  }

  /**
   The fixed preference order names the four categories of the score endpoint once
   each, and ranks environment 1, societal 2, animal 3 and health 4.
   */
  lemma FixedPreferencesRanks()
    ensures FixedPreferences ==
      [Score.Preference.Environment.Name(), Score.Preference.Societal.Name(), Score.Preference.Animal.Name(), Score.Preference.Health.Name()]
    ensures Score.ComputeRankings([Score.Preference.Environment, Score.Preference.Societal, Score.Preference.Animal, Score.Preference.Health])
      == Success(Score.Rankings(1, 2, 3, 4))
  {
    Score.ClientOrderRanks();
  }

  // ---------------------------------------------------------------------------
  // The token decision and the call

  /** The client's locality test: a prefix test on the API URL. */
  predicate IsLocalApi(apiUrl: string)
  {
    "http://localhost" <= apiUrl
  }

  /**
   The token the headers carry. A supplied token is used as is; with none, a token is
   minted for the API URL unless it is local. The provider may raise, and its
   exception then leaves the client.
   */
  function AuthorizationToken(apiUrl: string, authorizationToken: Option<string>,
                              mint: string -> Result<string, Exception>)
    : (r: Result<Option<string>, Exception>)
    ensures authorizationToken.Some? ==> r == Success(authorizationToken)
    ensures authorizationToken.None? && IsLocalApi(apiUrl) ==> r == Success(None)
    ensures authorizationToken.None? && !IsLocalApi(apiUrl) ==>
      (mint(apiUrl).Success? ==> r == Success(Some(mint(apiUrl).value))) &&
      (mint(apiUrl).Failure? ==> r == Failure(mint(apiUrl).error))
  {
    if !IsLocalApi(apiUrl) && authorizationToken.None? then
      match mint(apiUrl)
      case Failure(e) => Failure(e)
      case Success(token) => Success(Some(token))
    else Success(authorizationToken)
  }

  /** What an f-string prints for an optional string. */
  function FormatOptional(o: Option<string>): string
  {
    if o.Some? then o.value else "None"
  }

  /** The headers of the request: JSON content, and the bearer token. */
  function Headers(token: Option<string>): (r: seq<(string, string)>)
    ensures |r| == 2 && r[0] == ("Content-Type", "application/json")
    ensures r[1].0 == "Authorization" && "Bearer " <= r[1].1
    ensures token.Some? ==> r[1].1[|"Bearer "|..] == token.value
    ensures token.None? ==> r[1].1 == "Bearer None"
  {
    [("Content-Type", "application/json"), ("Authorization", "Bearer " + FormatOptional(token))]
  }

  /**
   The prefix test implies the substring test of `http_call_url`, but not the other
   way round: "https://localhost" counts as local there and as remote here.
   */
  lemma LocalityTests(apiUrl: string)
    ensures IsLocalApi(apiUrl) ==> ContainsSubstring(apiUrl, "localhost")
    ensures !IsLocalApi("https://localhost") && ContainsSubstring("https://localhost", "localhost")
  {
    if IsLocalApi(apiUrl) {
      assert OccursAt(apiUrl, "localhost", 7);
      OccursAtContains(apiUrl, "localhost", 7);
    }
    assert "http://localhost"[4] != "https://localhost"[4];
    assert OccursAt("https://localhost", "localhost", 8);
    OccursAtContains("https://localhost", "localhost", 8);
  }

  /**
   What an attempt of the client leaves behind: the audience a token was requested
   for, the headers if they were built, and the outcome.
   */
  datatype ClientAttempt = ClientAttempt(
    mintedFor: Option<string>,
    headers: Option<seq<(string, string)>>,
    outcome: Result<seq<byte>, Exception>)

  /**
   `post_compute_score` of the client as written. The token is decided (the provider
   may raise) and the headers built; then the request URL is composed from
   `http_call_url` and a one-argument call of `build_full_route`; only then would the
   payload be built and sent (`send` stands for the POST and returns the response body).
   */
  function PostComputeScore(images: Option<seq<Image>>, imagesUrls: Option<seq<string>>,
                            imagesLabels: Option<seq<string>>, apiUrl: string, apiPort: int,
                            authorizationToken: Option<string>, mint: string -> Result<string, Exception>,
                            send: (string, seq<(string, string)>, SentMessage) -> seq<byte>)
    : ClientAttempt
  {
    var minted := if !IsLocalApi(apiUrl) && authorizationToken.None? then Some(apiUrl) else None;
    match AuthorizationToken(apiUrl, authorizationToken, mint)
    case Failure(e) => ClientAttempt(minted, None, Failure(e))
    case Success(token) =>
      var headers := Headers(token);
      var host := HttpCallUrl(apiUrl, Some(apiPort));
      var outcome :=
        match CallBuildFullRoute([Score.PostComputeScoreRoute])
        case Failure(e) => Failure(e)
        case Success(route) =>
          match host
          case None => Failure(Exception(TypeError, "unsupported operand type(s) for +: 'NoneType' and 'str'"))
          case Some(h) =>
            match RequestData(images, imagesLabels, imagesUrls)
            case Failure(e) => Failure(e)
            case Success(data) => Success(send(h + route, headers, data));
      ClientAttempt(minted, Some(headers), outcome)
  }

  /**
   No call of the client sends anything. A token is requested exactly when the target
   is not local and none was supplied. When that request raises, its exception leaves
   the client before any header is built; otherwise the headers carry `Bearer` and the
   token, and the client raises `TypeError` while composing the URL.
   */
  lemma PostComputeScoreOutcome(images: Option<seq<Image>>, imagesUrls: Option<seq<string>>,
                                imagesLabels: Option<seq<string>>, apiUrl: string, apiPort: int,
                                authorizationToken: Option<string>, mint: string -> Result<string, Exception>,
                                send: (string, seq<(string, string)>, SentMessage) -> seq<byte>)
    ensures var attempt := PostComputeScore(images, imagesUrls, imagesLabels, apiUrl, apiPort,
                                            authorizationToken, mint, send);
      attempt.outcome.Failure? &&
      (attempt.mintedFor.Some? <==> !IsLocalApi(apiUrl) && authorizationToken.None?) &&
      (attempt.mintedFor.Some? ==> attempt.mintedFor.value == apiUrl) &&
      (attempt.mintedFor.Some? && mint(apiUrl).Failure? ==>
         attempt.headers.None? && attempt.outcome.error == mint(apiUrl).error) &&
      (attempt.mintedFor.Some? && mint(apiUrl).Success? ==>
         attempt.headers.Some? && attempt.headers.value[1].1 == "Bearer " + mint(apiUrl).value &&
         attempt.outcome.error.kind == TypeError) &&
      (attempt.mintedFor.None? ==> attempt.headers.Some? && attempt.outcome.error.kind == TypeError) &&
      (authorizationToken.Some? ==> attempt.headers.value[1].1 == "Bearer " + authorizationToken.value) &&
      (attempt.mintedFor.None? && authorizationToken.None? ==> attempt.headers.value[1].1 == "Bearer None")
  {
  }
}
