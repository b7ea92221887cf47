# Clothing rater: request and response glue

The clothing rater takes photos of clothing labels, or URLs of such photos, and
returns a sustainability score. It also returns the materials, the country and
the label it found. This project models the glue around the scoring pipeline,
on both sides of the HTTP endpoint `POST /v1/score/post_compute_score`:

- **Server** (`src/app/routes/score.py`, module `Score`). Assemble the image list:
  fetched URL contents first, then inline images. Rank the four preference
  categories by their first position in the list. Call the pipeline with those
  ranks. Turn exactly five label-extraction exceptions into an
  `HttpLabelException`. Copy the pipeline's 4-tuple into the response.
- **Client** (`src/meta/request.py`, module `Request`). Run the `images`
  validator: strings pass through, bytes become Base64 text, anything else raises
  `NotImplementedError`. Apply the host/port rule of `http_call_url`, which returns
  `None` for a local host without a port. Build routes. Fill in the fixed payload
  fields. Decide whether to mint a bearer token.
- **Supporting modules**. `Python` holds `None`, raise-or-return, bytes, the
  exception classes, and in-order mapping for loops that may raise. `Strings`
  holds Python's substring test and `str(int)`. `Base64` follows section 4 of
  RFC 4648: an encoder and a strict decoder, proved to be inverses.

Outside code is passed in as function parameters and not modelled:

- the HTTP fetch of an image URL (`fetch`: URL to bytes or an exception);
- the scoring pipeline `ocr_and_compute_images_score` (`pipeline`: call
  arguments to the 4-tuple or an exception);
- the identity-token provider (`mint`: audience to a token or an exception);
- the outgoing POST (`send`);
- the configured flag `retry_with_google_bounding_polys` (`retry`).

The client's `post_compute_score` is modelled with its one-argument call of
`build_full_route` (line 80), although the function requires two (line 55). So
no call sends anything. When a token has to be minted and the provider raises,
that exception leaves the client before the headers are built. Otherwise the
client raises `TypeError` while it composes the URL. The model does not correct
that call.

## Model

| member | source | states |
|---|---|---|
| `Python.MapInOrderSuccess` | src/app/routes/score.py:47-50 | a loop over a list whose steps may raise completes exactly when no step raises; the result then has one entry per element, in order |
| `Python.MapInOrderFirstFailure` | src/app/routes/score.py:47-50 | the first step that raises decides the exception of the whole loop |
| `Python.MapInOrderPrefixFailure` | src/meta/request.py:21-27 | once a prefix of the elements has raised, the later elements change nothing |
| `Python.MapInOrderFailureAt` | src/meta/request.py:21-27 | a loop that raised did so at some element, and every element before it returned |
| `Strings.ContainsSubstringIff` | src/meta/request.py:32 | Python's `t in s` holds exactly when `t` occurs at some index of `s` |
| `Strings.ContainsWitness` | src/meta/request.py:32 | a successful substring scan yields an index where `t` occurs |
| `Strings.OccursAtContains` | src/meta/request.py:32 | an occurrence at any index makes the substring test true |
| `Strings.NatToDecimal` | src/meta/request.py:36 | the decimal text of a natural number is a non-empty run of digits, with no leading zero except for 0 itself |
| `Strings.IntToDecimal` | src/meta/request.py:36 | `str(n)` is decimal text, and it starts with a minus sign exactly when `n` is negative |
| `Strings.IntToDecimalValue` | src/meta/request.py:36 | reading back the decimal text of an integer gives that integer |
| `Strings.IntToDecimalInjective` | src/meta/request.py:36 | distinct ports print as distinct texts |
| `Base64.Encode` | src/meta/request.py:25 | the encoding of any bytes is a whole number of four-character quanta |
| `Base64.EncodeVectors` | src/meta/request.py:25 | the encoder gives the section 10 test vectors of RFC 4648 for "f", "fo", "foo" and "foobar", so its bit order is the standard one |
| `Base64.EncodeLength` | src/meta/request.py:25 | the encoding of n bytes has exactly 4 * ceil(n / 3) characters |
| `Base64.EncodeAlphabet` | src/meta/request.py:25 | every character of an encoding is in the standard alphabet or is `=`; pads appear only in the last quantum |
| `Base64.EncodeIsAscii` | src/meta/request.py:25 | the encoding is ASCII, so `.decode("utf8")` changes no character |
| `Base64.DecodeEncode` | src/meta/request.py:25 | decoding the Base64 text of any bytes gives back exactly those bytes |
| `Base64.EncodeDecode` | src/meta/request.py:25 | text that the strict decoder accepts is exactly the encoding of what it decodes to |
| `Base64.EncodeDecodedQuantum` | src/meta/request.py:25 | a four-character quantum that decodes re-encodes to itself; only the last quantum carries padding |
| `Base64.DecodeTriple` | src/meta/request.py:25 | the four characters of three encoded bytes decode to those three bytes, in any position of the text |
| `Base64.DecodePair` | src/meta/request.py:25 | a final quantum with one pad decodes to the two bytes it encodes |
| `Base64.DecodeSingle` | src/meta/request.py:25 | a final quantum with two pads decodes to the one byte it encodes |
| `Request.NormalizedImagesSpec` | src/meta/request.py:17-28 | `None` gives `None`; otherwise length and order are kept, strings are copied, bytes become Base64 text that decodes back to them, and any other element type raises `NotImplementedError` |
| `Request.ImagesToBytes` | src/meta/request.py:17-28 | the append loop, including its raise branch, computes exactly the validator's result |
| `Request.HttpCallUrlRemote` | src/meta/request.py:31-33 | a host in which "localhost" occurs nowhere is returned unchanged, whatever the port |
| `Request.HttpCallUrlLocalWithPort` | src/meta/request.py:31-36 | for a local host with a port, the result is host, `:` and the decimal port, and the text after the colon reads back as the port |
| `Request.HttpCallUrlLocalWithoutPort` | src/meta/request.py:31-36 | a local host without a port gives `None`, not the host |
| `Request.HttpCallUrlExamples` | src/meta/request.py:31-36 | `("http://localhost", 8080)` gives `"http://localhost:8080"`; `"http://localhost"` alone gives `None` |
| `Request.HttpCallUrlRemoteExample` | src/meta/request.py:31-33 | `("http://example.com", 8080)` gives `"http://example.com"` |
| `Request.BuildFullRouteParts` | src/meta/request.py:55-56 | the full route is the application prefix, the router prefix and the route, each readable at its offset |
| `Request.ScoreEndpointRoute` | src/meta/request.py:55-56 | `("/score", "/post_compute_score")` with the default prefix gives `"/v1/score/post_compute_score"` |
| `Request.CallBuildFullRoute` | src/meta/request.py:55 | a call of `build_full_route` succeeds only with two or three positional arguments; otherwise it raises `TypeError` |
| `Request.RequestData` | src/meta/request.py:39-52 | the payload always has user `"dummy_user_id"` and preferences environment, societal, animal, health; labels and URLs are passed through; images go through the validator, which fails exactly when the payload fails and whose exception is the payload's exception |
| `Request.FixedPreferencesRanks` | src/meta/request.py:50 | the fixed order names the four server categories once each, and the server ranks it environment 1, societal 2, animal 3, health 4 |
| `Request.AuthorizationToken` | src/meta/request.py:72-73 | a supplied token is used as is; with no token, one is minted for the API URL exactly when it does not start with `http://localhost`, and a provider exception becomes the result's exception |
| `Request.Headers` | src/meta/request.py:74-77 | JSON content type, and an Authorization value of `Bearer ` followed by the token, or `Bearer None` when there is no token |
| `Request.LocalityTests` | src/meta/request.py:72 | the prefix test on `http://localhost` implies the substring test of `http_call_url`, but not conversely (`https://localhost`) |
| `Request.PostComputeScoreOutcome` | src/meta/request.py:63-80 | no call sends anything; a token is requested exactly for a non-local target without a token; a provider exception leaves the client with no headers built; otherwise the header carries the token (or `Bearer None`) and the call raises `TypeError` while composing the URL |
| `Score.IndexOf` | src/app/routes/score.py:57-61 | `list.index`: the first position of the element, or `ValueError` exactly when it is absent |
| `Score.ComputeRankings` | src/app/routes/score.py:57-61 | each rank is 1 plus the first index of its category; `ValueError` exactly when a category is missing |
| `Score.PermutationRanks` | src/app/routes/score.py:57-61 | when the preferences order the four categories, the ranks are pairwise distinct and together are exactly {1, 2, 3, 4} |
| `Score.ClientOrderRanks` | src/app/routes/score.py:57-61 | environment, societal, animal, health ranks 1, 2, 3, 4 |
| `Score.ReversedOrderRanks` | src/app/routes/score.py:57-61 | health, animal, societal, environment ranks health 1, animal 2, societal 3, environment 4 |
| `Score.ImagesBytesLayout` | src/app/routes/score.py:45-52 | when every fetch succeeds, `images_bytes` holds the URL contents in URL order, then the inline images in order; an absent list adds nothing, and the length is the sum |
| `Score.AssembleImagesBytes` | src/app/routes/score.py:45-52 | the fetch-then-append code builds exactly that list, or stops with the first fetch's exception |
| `Score.Classify` | src/app/routes/score.py:67-74 | an exception becomes an `HttpLabelException` carrying it exactly when it is one of the five label errors; any other exception leaves unchanged |
| `Score.CaughtExceptionsAreFive` | src/app/routes/score.py:67-73 | the caught tuple has five classes; `ValueError`, `TypeError`, HTTP-client errors and every other class are outside it |
| `Score.PipelineCallFor` | src/app/routes/score.py:54-65 | the pipeline gets the four ranks, the labels as `pre_known_labels`, the assembled images, the configured retry flag and `return_found_elements=True`; a missing category raises `ValueError` first |
| `Score.Response` | src/app/routes/score.py:75-77 | the response copies label, score, materials and country from the 4-tuple |
| `Score.HandleSuccess` | src/app/routes/score.py:54-77 | a successful request had all fetches succeed and all categories present, and its response carries the pipeline's values unchanged |
| `Score.MissingCategoryUnhandled` | src/app/routes/score.py:57-74 | a missing category ends the request with the unhandled `ValueError`, never an `HttpLabelException` |
| `Score.PipelineErrorClassified` | src/app/routes/score.py:54-74 | a pipeline exception becomes an `HttpLabelException` when it is one of the five, and propagates unchanged otherwise |
| `Score.FetchFailureFirst` | src/app/routes/score.py:45-50 | the first URL whose fetch raises decides the outcome, before the preferences are read or the pipeline is called |
| `Score.PostComputeScore` | src/app/routes/score.py:34-77 | the handler method computes exactly the composition above: images, ranks, pipeline call, classification, response |

## Left out

- HTTP transport: `requests.get` and `requests.request` are the parameters `fetch` and `send`, with no timeout. The status check and error log after the POST (src/meta/request.py:90-95) come after the `TypeError` and are not modelled.
- FastAPI plumbing: the router and its prefix, `Depends(get_ocr)`, `Depends(get_interpreter)`, `Body` parsing and `response_model` validation. The OCR engine and interpreter handed to the pipeline are not arguments of the model's `PipelineCall`.
- Pydantic and JSON: the validator is modelled as a function on the raw `images` list. Field coercion by the `LabelMessage` schema, `.dict()` and `json.dumps` are not modelled. The schemas are not part of this model.
- The scoring pipeline, `Interpreter`, `Ocr`, `Preference` and the exception classes come from files that are not part of this model. `Preference` is a four-value datatype whose values are the lower-case names the client sends. The exception hierarchy is flat, so a subclass of a caught class is not caught in the model. Score, materials, country and label have placeholder types (`real`, `seq<string>`, `string`, `string`), because their real types are not visible.
- Token minting by `GoogleInterface().generate_id_token` is the parameter `mint`, which returns a token or raises. Only the decision whether to mint, and whether the provider raised, is modelled.
- `sys.setrecursionlimit(100)` (src/app/routes/score.py:26) is a process-wide interpreter setting, not modelled.
- The unused `label = None` before the `try` (src/app/routes/score.py:43) has no effect on any outcome.
- Request.PostComputeScoreOutcome: does not model what the client would send with a corrected URL. As written, `build_full_route` is called with one argument and raises `TypeError`, so no request is sent.
- Base64.Decode: stricter than Python's `base64.b64decode`, which by default skips characters outside the alphabet and ignores nonzero pad bits. It is the decoder for which both round trips hold. Nothing in the modelled files decodes.
- Exception messages are placeholders. Only the exception class is relied on.
