# Text-to-image call wrapper: a Dafny model

This project models the logic of a single-page image-generation front end
(`app.py`). The page resolves a Hugging Face bearer token at start-up. It then
turns the user's prompt and settings into a JSON payload and posts it to a
hosted Stable Diffusion endpoint. It retries while the model is still loading
(HTTP 503/504), and returns the image bytes or raises an error.

Modules, one per component:

- `Wrappers` (`wrappers.dfy`): `Option`.
- `Credentials` (`credentials.dfy`): `get_hf_token` and the halt check after it.
  The secret store and the environment are maps from names to values.
- `Payload` (`payload.dfy`): the request record, a small JSON value type, and
  the payload construction (`BuildPayload`). Its partners are a declarative
  description (`PayloadFor`) and a decoder (`ReadRequest`) that inverts it.
- `Inference` (`inference.dfy`): response classification, the backoff clamp,
  the retry policy as a recursive reference definition (`Retrying`), and the
  loop of `call_hf_text2image` as a method (`CallTextToImage`). The method is
  proved equal to the reference definition. The network is a sequence of
  replies, one per post. Sleeps are recorded as a sequence of durations, and
  posts as the sequence of payloads sent.
- `UiParams` (`ui_params.dfy`): str.strip, int(), str.split and the two
  conversions at lines 125-126 (size "WxH" and seed text).

Five behaviours of the code that a reader might not expect, all modelled as the code has them:

- An empty value in the secret store is returned as it is. It does not fall
  through to the environment, so the program halts even when the environment
  holds a token (`Credentials.ResolutionExamples`, last case).
- `str.strip()` removes the ASCII separators 0x1c-0x1f, but `int()` does not
  skip them. Seed text such as "\x1c5" therefore passes the isdigit guard, and
  then `int()` raises a ValueError at module level that nothing catches
  (`UiParams.SeparatorBeforeSeedRaises`).
- CPython's int() refuses text with more than 4300 digits (leading zeros
  count). So a seed of 4301 zeros also passes the isdigit guard and then
  raises (`UiParams.TooManyDigitsRaises`).
- `max_retries` may be zero or negative. Then nothing is posted and the call
  ends with the exhausted-retries error (`Inference.NoBudgetNoPost`).
- A seed passed directly to the call (not typed on the page) may be any integer. Only the page's own
  parsing guarantees a non-negative one (`UiParams.ParseSeed`).

## Model

| member | source | states |
|---|---|---|
| `Credentials.GetHfToken` | app.py:11-21 | a secret-store entry wins even when empty; otherwise the environment value, or "" when absent; a non-empty token comes from one of the two sources |
| `Credentials.Start` | app.py:23-27 | the program halts exactly when the resolved token is empty; otherwise it runs with that token |
| `Credentials.HaltsExactlyWhenNoToken` | app.py:11-27 | halting happens iff the secret is present and empty, or there is no secret and the environment value is missing or empty |
| `Credentials.SecretIgnoresEnvironment` | app.py:13-14 | with the secret present, the environment has no influence on the token or on halting |
| `Credentials.OtherSecretsIrrelevant` | app.py:13-19 | secret-store entries under other names do not change the token |
| `Credentials.ResolutionExamples` | app.py:11-27 | secrets "A" and env "B" give "A"; env only gives "B"; neither halts; an empty secret halts despite env "B" |
| `Payload.BuildPayload` | app.py:46-63 | the payload has exactly inputs, parameters and options; the four fixed parameters; negative_prompt and seed only when supplied; wait_for_model true; and it reads back as the request |
| `Payload.NegativePromptPresentIffNonEmpty` | app.py:60-61 | negative_prompt is in the parameters iff the negative prompt is non-empty, and then equals it |
| `Payload.SeedPresentIffGiven` | app.py:62-63 | seed is in the parameters iff a seed is given (0 included), and then equals it |
| `Payload.ReadRequestInverts` | app.py:46-63 | every payload that fits a request decodes back to exactly that request |
| `Payload.PayloadForUnique` | app.py:46-63 | a request has exactly one payload: no other keys and no other values are possible |
| `Payload.PayloadDeterminesRequest` | app.py:46-63 | two requests that give the same payload are equal |
| `Inference.Backoff` | app.py:74-80 | the wait always lies in [3, 30]; it is 10 without an estimate, and otherwise the estimate raised to 3 or lowered to 30 |
| `Inference.Classify` | app.py:66-89 | an image response (200 with content type starting "image/") finishes with its body; 503/504 and only those retry after Backoff; every other response finishes with an error carrying its status and content type; a failed connection finishes with a network error |
| `Inference.RetryingShape` | app.py:65-91 | after k transient replies, the call posts k+1 times (or budget times when they use it up), sleeps the k backoffs in order, and ends with reply k's outcome or with exhausted retries |
| `Inference.SleepsClampedAndCounted` | app.py:65-81 | every sleep lies in [3, 30]; posts equal sleeps plus one, or equal sleeps when exhausted; posts are at most max_retries, and zero exactly when max_retries <= 0 |
| `Inference.ExhaustedIffAllTransient` | app.py:65-91 | retries are exhausted iff all max_retries replies were 503/504; then there are exactly max_retries posts and max_retries sleeps |
| `Inference.FirstImageIsReturned` | app.py:69-71 | the first image reply after only transient ones is returned, with no post or sleep after it |
| `Inference.NonRetryableFailsAtOnce` | app.py:83-89 | a first reply that is neither an image nor 503/504 fails after one post and no sleep, with its status and content type |
| `Inference.NoBudgetNoPost` | app.py:65 | with max_retries <= 0 nothing is posted and the result is the exhausted error |
| `Inference.ColdStartScenarios` | app.py:65-91 | [503 est 2, 503, 200 image/png] with 3 attempts sleeps 3 then 10 and returns the image after 3 posts; 200 text/plain fails at once; two 503/504 with 2 attempts exhaust after 2 posts and 2 sleeps |
| `Inference.CallTextToImage` | app.py:43-91 | the loop's outcome, number of posts and sleeps are exactly those of the retry policy; every post carries the payload built for the request |
| `UiParams.LeadingSpaces` | app.py:125-126 | counts the maximal prefix of whitespace, for strip()'s set or int()'s |
| `UiParams.TrailingSpaces` | app.py:125-126 | counts the maximal suffix of whitespace, for strip()'s set or int()'s |
| `UiParams.Strip` | app.py:125-126 | the result is the text between the leading and trailing whitespace of the given set, and neither of its ends is whitespace; with StripSet it is str.strip(), with IntSet what int() reads |
| `UiParams.PyInt` | app.py:125-126 | int() succeeds iff the text without int()'s whitespace is one to 4300 digits with at most one leading sign; the value is the digits' decimal value, negated after "-"; None (a ValueError) otherwise |
| `UiParams.Split` | app.py:125 | the pieces contain no separator and joined with it give back the text |
| `UiParams.SplitJoin` | app.py:125 | splitting a join of separator-free pieces gives back the pieces |
| `UiParams.ParseSize` | app.py:125 | a parsed size comes from text with exactly one "x", whose two sides int() reads as width and height |
| `UiParams.ParseSizeOfParts` | app.py:125 | two int() texts around one "x" parse to that width and height |
| `UiParams.DigitsRoundTrip` | app.py:125-126 | decimal notation read back gives the number |
| `UiParams.StripPadded` | app.py:125-126 | whitespace of the given set around text that does not start or end with it is stripped to that text |
| `UiParams.StripSigned` | app.py:125 | a digit string, with or without a minus sign, is what int() reads of itself |
| `UiParams.PyIntRoundTrip` | app.py:125 | int(str(i)) == i for every integer of at most 4300 digits |
| `UiParams.SizeRoundTrip` | app.py:125 | str(w) + "x" + str(h) parses to (w, h) when both sides have at most 4300 digits |
| `UiParams.SideNotations` | app.py:122 | the sides 1024, 768 and 512 are written "1024", "768" and "512" |
| `UiParams.SquareOption` | app.py:122-125 | an option "NxN" parses to (N, N) when N has at most 4300 digits |
| `UiParams.SizeOptionsAreSquare` | app.py:122-125 | the three offered sizes parse to (1024,1024), (768,768) and (512,512) |
| `UiParams.IntStripAgrees` | app.py:126 | when strip() leaves digits, int() accepts the text iff it removes the same whitespace as strip() |
| `UiParams.ParseSeed` | app.py:126 | no seed iff the stripped text is not a non-empty digit string; a seed iff it is and int() skips the same whitespace, and the digits number at most 4300, then its decimal value, never negative; otherwise the error int() raises |
| `UiParams.SeedRoundTrip` | app.py:126 | a number's decimal notation of at most 4300 digits, padded with whitespace that int() skips, is read as that number |
| `UiParams.TooManyDigitsRaises` | app.py:126 | a digit string of more than 4300 digits passes the isdigit guard and then int() raises |
| `UiParams.SeparatorBeforeSeedRaises` | app.py:126 | a digit string after one of 0x1c-0x1f passes the isdigit guard and then int() raises |
| `UiParams.BlankSeedIsNone` | app.py:123-126 | blank seed text (under strip()'s set) gives no seed |
| `UiParams.SignedSeedIsNone` | app.py:126 | "+n" and "-n" give no seed |

## Left out

- The Streamlit page (title, caption, sidebar, widgets, spinner, image display, download button) is presentation. Its `st.error` plus `st.stop` is modelled only as the `Halted` outcome.
- `requests.post`, its URL, headers and 180-second timeout are network I/O. They are replaced by a sequence of replies, one per post. A connection failure or timeout is a `ConnectionFailed` reply.
- Inference.CallTextToImage: requires one reply per possible post (`max_retries <= |replies|`). This is an assumption about the abstract network, not a demand on the source's callers.
- `time.sleep` is recorded as a duration in a log instead of blocking.
- PIL decoding and the PNG re-encoding (app.py:141-146) are a foreign library.
- JSON decoding of response bodies is abstracted to an estimate or none. "None" covers a body that is not JSON, is not an object, or lacks estimated_time. A non-numeric estimated_time, which raises outside the `try` at app.py:80, is not modelled.
- Floating point: the guidance scale is a `real` copied into the payload unchanged. estimated_time is an integer, not a float.
- The ValueError raised at lines 125-126 is an outcome (`None` for the size, `IntRaised` for the seed). What Streamlit shows for it is not modelled.
- Error messages: only the error kind, plus status and content type for API errors, are kept. The message text and the decoded body are not modelled.
- Text: ASCII only. str.isspace, str.isdigit and int() also accept Unicode whitespace and digits.
  The ASCII whitespace sets are modelled exactly: 0x1c-0x1f count for strip() but not for int().
  The 4300-digit limit of int() is modelled as CPython's default; a changed `sys.set_int_max_str_digits` setting is not modelled. int() also accepts underscores between digits. None of these is modelled.
- The default arguments of call_hf_text2image (app.py:43-45) are the defaults of the `Request` constructor and `Inference.DEFAULT_MAX_RETRIES`. The page's only call passes every argument (app.py:131-140), with max_retries=4.
- The module-level constants (model id, endpoint URL, headers) and the prompt boost text are plain data with no logic.
- The payload parameters are gathered in a local map before the nested object is assembled. The source inserts them into the nested dict after creating it; the resulting value is the same.
