/**
 The score endpoint `post_compute_score`: how a LabelMessage becomes one call of the
 scoring pipeline, and how the pipeline's answer becomes a ScoreResponse or an HTTP
 error. The HTTP client that fetches image URLs (`fetch`), the pipeline
 `ocr_and_compute_images_score` (`pipeline`) and the configured retry flag are
 parameters; the OCR engine and the interpreter it is handed are not modelled.
 */
module Score {
  import opened Python

  /** `Route.post_compute_score`, the path of the endpoint inside its router. */
  const PostComputeScoreRoute: string := "/post_compute_score"

  /** The four ranking categories a user orders. */
  datatype Preference = Environment | Societal | Animal | Health {
    /** The value by which the category travels in a request body. */
    function Name(): string
    {
      match this
      case Environment => "environment"
      case Societal => "societal"
      case Animal => "animal"
      case Health => "health"
    }
  }

  /** The request body: inline images as bytes, image URLs, labels already known, the ordered preferences. */
  datatype LabelMessage = LabelMessage(
    images: Option<seq<bytes>>,
    imagesUrls: Option<seq<string>>,
    imagesLabels: Option<seq<string>>,
    preferences: seq<Preference>,
    userId: string)

  /** The four ranking arguments of the pipeline, 1-based. */
  datatype Rankings = Rankings(environment: int, societal: int, animal: int, health: int)

  /** The arguments of the pipeline call that the handler chooses. */
  datatype PipelineCall = PipelineCall(
    rankings: Rankings,
    preKnownLabels: Option<seq<string>>,
    imagesBytes: seq<bytes>,
    retryWithGoogleBoundingPolys: bool,
    returnFoundElements: bool)

  /** The 4-tuple `(clothing_score, materials, country, label)` the pipeline returns. */
  datatype PipelineResult = PipelineResult(score: real, materials: seq<string>, country: string, clothingLabel: string)

  datatype ScoreResponse = ScoreResponse(clothingLabel: string, score: real, materials: seq<string>, country: string)

  /** What leaves the handler instead of a response: an `HttpLabelException`, or an exception it does not catch. */
  datatype HandlerError = HttpLabelException(exception: Exception) | Unhandled(exception: Exception)

  function OrEmpty<T>(o: Option<seq<T>>): seq<T>
  {
    if o.Some? then o.value else []
  }

  // ---------------------------------------------------------------------------
  // Preference ranks

  /** Python's `s.index(x)`: the position of the first `x` in `s`, or a `ValueError`. */
  function IndexOf<T(==)>(s: seq<T>, x: T): (r: Result<nat, Exception>)
    ensures r.Success? <==> x in s
    ensures r.Success? ==> r.value < |s| && s[r.value] == x
    ensures r.Success? ==> forall j :: 0 <= j < r.value ==> s[j] != x
    ensures r.Failure? ==> r.error.kind == ValueError
    decreases |s|
  {
    if |s| == 0 then Failure(Exception(ValueError, "is not in list"))
    else if s[0] == x then Success(0)
    else match IndexOf(s[1..], x)
      case Success(i) => Success(i + 1)
      case Failure(e) => Failure(e)
  }

  /** `k` is one more than the index of the first occurrence of `p` in `prefs`. */
  predicate IsRank(prefs: seq<Preference>, p: Preference, k: int)
  {
    1 <= k <= |prefs| && prefs[k - 1] == p && forall j :: 0 <= j < k - 1 ==> prefs[j] != p
  }

  predicate HasAllCategories(prefs: seq<Preference>)
  {
    Environment in prefs && Societal in prefs && Animal in prefs && Health in prefs
  }

  /** `preferences.index(c) + 1` for the four categories, in the order the call evaluates them. */
  function ComputeRankings(prefs: seq<Preference>): (r: Result<Rankings, Exception>)
    ensures r.Success? <==> HasAllCategories(prefs)
    ensures r.Success? ==>
      IsRank(prefs, Environment, r.value.environment) && IsRank(prefs, Societal, r.value.societal) &&
      IsRank(prefs, Animal, r.value.animal) && IsRank(prefs, Health, r.value.health)
    ensures r.Failure? ==> r.error.kind == ValueError
  {
    match IndexOf(prefs, Environment)
    case Failure(e) => Failure(e)
    case Success(environment) =>
      match IndexOf(prefs, Societal)
      case Failure(e) => Failure(e)
      case Success(societal) =>
        match IndexOf(prefs, Animal)
        case Failure(e) => Failure(e)
        case Success(animal) =>
          match IndexOf(prefs, Health)
          case Failure(e) => Failure(e)
          case Success(health) => Success(Rankings(environment + 1, societal + 1, animal + 1, health + 1))
  }

  /**
   When the preferences are an ordering of the four categories, the ranks are four
   distinct numbers that are together exactly 1, 2, 3 and 4.
   */
  lemma PermutationRanks(prefs: seq<Preference>)
    requires multiset(prefs) == multiset{Environment, Societal, Animal, Health}
    ensures ComputeRankings(prefs).Success?
    ensures var r := ComputeRankings(prefs).value;
      r.environment != r.societal && r.environment != r.animal && r.environment != r.health &&
      r.societal != r.animal && r.societal != r.health && r.animal != r.health &&
      {r.environment, r.societal, r.animal, r.health} == {1, 2, 3, 4}
  {
    assert |prefs| == |multiset(prefs)| == 4;
    assert Environment in multiset(prefs) && Societal in multiset(prefs);
    assert Animal in multiset(prefs) && Health in multiset(prefs);
    var r := ComputeRankings(prefs).value;
    FourDistinct(r.environment, r.societal, r.animal, r.health);
  }

  /** Four pairwise distinct numbers between 1 and 4 are 1, 2, 3 and 4. */
  lemma FourDistinct(a: int, b: int, c: int, d: int)
    requires 1 <= a <= 4 && 1 <= b <= 4 && 1 <= c <= 4 && 1 <= d <= 4
    requires a != b && a != c && a != d && b != c && b != d && c != d
    ensures {a, b, c, d} == {1, 2, 3, 4}
  {
  }

  /** The order the client always sends ranks environment first and health last. */
  lemma ClientOrderRanks()
    ensures ComputeRankings([Environment, Societal, Animal, Health]) == Success(Rankings(1, 2, 3, 4))
  {
  }

  /** The reversed order ranks health first and environment last. */
  lemma ReversedOrderRanks()
    ensures ComputeRankings([Health, Animal, Societal, Environment]) == Success(Rankings(4, 3, 2, 1))
  {
  }

  // ---------------------------------------------------------------------------
  // Image list assembly: the comprehension over `images_urls` is MapInOrder with `fetch`

  /** `images_bytes`: the fetched contents of the URLs, then the inline images. */
  function ImagesBytes(imagesUrls: Option<seq<string>>, images: Option<seq<bytes>>,
                       fetch: string -> Result<bytes, Exception>): Result<seq<bytes>, Exception>
  {
    match MapInOrder(OrEmpty(imagesUrls), fetch)
    case Failure(e) => Failure(e)
    case Success(fetched) => Success(fetched + OrEmpty(images))
  }

  /**
   The layout of `images_bytes`: one entry per URL, in URL order, followed by the
   inline images in order; an absent list contributes nothing.
   */
  lemma ImagesBytesLayout(imagesUrls: Option<seq<string>>, images: Option<seq<bytes>>,
                          fetch: string -> Result<bytes, Exception>)
    requires forall i :: 0 <= i < |OrEmpty(imagesUrls)| ==> fetch(OrEmpty(imagesUrls)[i]).Success?
    ensures ImagesBytes(imagesUrls, images, fetch).Success?
    ensures var r, urls, inline := ImagesBytes(imagesUrls, images, fetch).value, OrEmpty(imagesUrls), OrEmpty(images);
      |r| == |urls| + |inline| &&
      (forall i :: 0 <= i < |urls| ==> r[i] == fetch(urls[i]).value) &&
      (forall j :: 0 <= j < |inline| ==> r[|urls| + j] == inline[j])
  {
    MapInOrderSuccess(OrEmpty(imagesUrls), fetch);
  }

  /** Builds `images_bytes` the way the handler does: fetch URL by URL, then append the inline images. */
  method AssembleImagesBytes(imagesUrls: Option<seq<string>>, images: Option<seq<bytes>>,
                             fetch: string -> Result<bytes, Exception>)
    returns (r: Result<seq<bytes>, Exception>)
    ensures r == ImagesBytes(imagesUrls, images, fetch)
  {
    var imagesBytes: seq<bytes> := [];
    if imagesUrls.Some? {
      var urls := imagesUrls.value;
      var fetched: seq<bytes> := [];
      var i := 0;
      while i < |urls|
        invariant 0 <= i <= |urls|
        invariant MapInOrder(urls[..i], fetch) == Success(fetched)
      {
        assert urls[..i + 1][..i] == urls[..i];
        var content := fetch(urls[i]);
        if content.Failure? {
          assert urls[..i + 1][i] == urls[i];
          assert MapInOrder(urls[..i + 1], fetch) == Failure(content.error);
          MapInOrderPrefixFailure(urls, fetch, i + 1);
          return Failure(content.error);
        }
        fetched := fetched + [content.value];
        i := i + 1;
      }
      assert urls[..i] == urls;
      imagesBytes := imagesBytes + fetched;
      assert imagesBytes == fetched;
    }
    assert MapInOrder(OrEmpty(imagesUrls), fetch) == Success(imagesBytes);
    ghost var fromUrls := imagesBytes;
    if images.Some? {
      imagesBytes := imagesBytes + images.value;
    }
    assert imagesBytes == fromUrls + OrEmpty(images);
    r := Success(imagesBytes);
  }

  // ---------------------------------------------------------------------------
  // The pipeline call, the exception classification and the response

  /** The exception classes named by the handler's `except` clause. */
  const CaughtExceptions: set<ExceptionKind> :=
    {MaterialNotFound, CountryNotFound, TextNotFound, MissingMaterialPercentage, MultipleLabelErrors}

  /** What the `except` clause does with an exception raised inside the `try`. */
  function Classify(e: Exception): (r: HandlerError)
    ensures r.exception == e
    ensures r.HttpLabelException? <==>
      e.kind.MaterialNotFound? || e.kind.CountryNotFound? || e.kind.TextNotFound? ||
      e.kind.MissingMaterialPercentage? || e.kind.MultipleLabelErrors?
  {
    if e.kind in CaughtExceptions then HttpLabelException(e) else Unhandled(e)
  }

  /** Exactly five classes are converted; the errors the glue itself meets are among the others. */
  lemma CaughtExceptionsAreFive()
    ensures |CaughtExceptions| == 5
    ensures ValueError !in CaughtExceptions && TypeError !in CaughtExceptions
    ensures RequestException !in CaughtExceptions && NotImplementedError !in CaughtExceptions
    ensures forall name :: OtherException(name) !in CaughtExceptions
  {
  }

  /** The pipeline call for a message whose images have been assembled; a missing category raises. */
  function PipelineCallFor(msg: LabelMessage, imagesBytes: seq<bytes>, retry: bool): (r: Result<PipelineCall, Exception>)
    ensures r.Success? <==> HasAllCategories(msg.preferences)
    ensures r.Failure? ==> r.error.kind == ValueError
    ensures r.Success? ==>
      var call := r.value;
      IsRank(msg.preferences, Environment, call.rankings.environment) &&
      IsRank(msg.preferences, Societal, call.rankings.societal) &&
      IsRank(msg.preferences, Animal, call.rankings.animal) &&
      IsRank(msg.preferences, Health, call.rankings.health) &&
      call.preKnownLabels == msg.imagesLabels &&
      call.imagesBytes == imagesBytes &&
      call.retryWithGoogleBoundingPolys == retry &&
      call.returnFoundElements
  {
    match ComputeRankings(msg.preferences)
    case Failure(e) => Failure(e)
    case Success(rankings) => Success(PipelineCall(rankings, msg.imagesLabels, imagesBytes, retry, true))
  }

  /** The response built from the pipeline's 4-tuple. */
  function Response(result: PipelineResult): (r: ScoreResponse)
    ensures r.clothingLabel == result.clothingLabel && r.score == result.score
    ensures r.materials == result.materials && r.country == result.country
  {
    ScoreResponse(result.clothingLabel, result.score, result.materials, result.country)
  }

  /** The whole handler: build the images, rank the preferences, call the pipeline, map its answer. */
  function Handle(msg: LabelMessage, fetch: string -> Result<bytes, Exception>,
                  pipeline: PipelineCall -> Result<PipelineResult, Exception>, retry: bool)
    : Result<ScoreResponse, HandlerError>
  {
    match ImagesBytes(msg.imagesUrls, msg.images, fetch)
    case Failure(e) => Failure(Classify(e))
    case Success(imagesBytes) =>
      match PipelineCallFor(msg, imagesBytes, retry)
      case Failure(e) => Failure(Classify(e))
      case Success(call) =>
        match pipeline(call)
        case Failure(e) => Failure(Classify(e))
        case Success(result) => Success(Response(result))
  }

  /** On success the response carries the pipeline's label, score, materials and country unchanged. */
  lemma HandleSuccess(msg: LabelMessage, fetch: string -> Result<bytes, Exception>,
                      pipeline: PipelineCall -> Result<PipelineResult, Exception>, retry: bool)
    requires Handle(msg, fetch, pipeline, retry).Success?
    ensures ImagesBytes(msg.imagesUrls, msg.images, fetch).Success?
    ensures HasAllCategories(msg.preferences)
    ensures var call := PipelineCallFor(msg, ImagesBytes(msg.imagesUrls, msg.images, fetch).value, retry).value;
      pipeline(call).Success? &&
      var result, response := pipeline(call).value, Handle(msg, fetch, pipeline, retry).value;
      response.clothingLabel == result.clothingLabel && response.score == result.score &&
      response.materials == result.materials && response.country == result.country
  {
  }

  /** A missing category ends the request with the `ValueError` of `.index`, not with an HTTP label error. */
  lemma MissingCategoryUnhandled(msg: LabelMessage, fetch: string -> Result<bytes, Exception>,
                                 pipeline: PipelineCall -> Result<PipelineResult, Exception>, retry: bool)
    requires ImagesBytes(msg.imagesUrls, msg.images, fetch).Success?
    requires !HasAllCategories(msg.preferences)
    ensures Handle(msg, fetch, pipeline, retry).Failure?
    ensures var err := Handle(msg, fetch, pipeline, retry).error;
      err.Unhandled? && err.exception.kind == ValueError
  {
  }

  /**
   An exception the pipeline raises becomes an `HttpLabelException` carrying it when
   it is one of the five label errors, and leaves the handler untouched otherwise.
   */
  lemma PipelineErrorClassified(msg: LabelMessage, fetch: string -> Result<bytes, Exception>,
                                pipeline: PipelineCall -> Result<PipelineResult, Exception>, retry: bool)
    requires ImagesBytes(msg.imagesUrls, msg.images, fetch).Success?
    requires HasAllCategories(msg.preferences)
    requires pipeline(PipelineCallFor(msg, ImagesBytes(msg.imagesUrls, msg.images, fetch).value, retry).value).Failure?
    ensures var e := pipeline(PipelineCallFor(msg, ImagesBytes(msg.imagesUrls, msg.images, fetch).value, retry).value).error;
      Handle(msg, fetch, pipeline, retry) ==
        if e.kind in CaughtExceptions then Failure(HttpLabelException(e)) else Failure(Unhandled(e))
  {
  }

  /**
   The first fetch that raises decides the outcome, before the preferences are looked
   at and before the pipeline is called.
   */
  lemma FetchFailureFirst(msg: LabelMessage, fetch: string -> Result<bytes, Exception>,
                          pipeline: PipelineCall -> Result<PipelineResult, Exception>, retry: bool, k: nat)
    requires k < |OrEmpty(msg.imagesUrls)| && fetch(OrEmpty(msg.imagesUrls)[k]).Failure?
    requires forall j :: 0 <= j < k ==> fetch(OrEmpty(msg.imagesUrls)[j]).Success?
    ensures Handle(msg, fetch, pipeline, retry) == Failure(Classify(fetch(OrEmpty(msg.imagesUrls)[k]).error))
  {
    MapInOrderFirstFailure(OrEmpty(msg.imagesUrls), fetch, k);
  }

  /** `post_compute_score`: the handler, with the image list built by the loop above. */
  method PostComputeScore(msg: LabelMessage, fetch: string -> Result<bytes, Exception>,
                          pipeline: PipelineCall -> Result<PipelineResult, Exception>, retry: bool)
    returns (r: Result<ScoreResponse, HandlerError>)
    ensures r == Handle(msg, fetch, pipeline, retry)
  {
    var imagesBytes := AssembleImagesBytes(msg.imagesUrls, msg.images, fetch);
    if imagesBytes.Failure? {
      return Failure(Classify(imagesBytes.error));
    }
    var call := PipelineCallFor(msg, imagesBytes.value, retry);
    if call.Failure? {
      return Failure(Classify(call.error));
    }
    var outcome := pipeline(call.value);
    if outcome.Failure? {
      return Failure(Classify(outcome.error));
    }
    r := Success(Response(outcome.value));
  }
}
