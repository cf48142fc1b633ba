# light-matching: a Dafny model of the request logic

light-matching is a Next.js application. A user uploads a product photo
and picks a photography template (studio lighting, street photography,
cut-out, ...). The server asks an OpenAI model for a number of distinct
photography prompts. It then asks an image model (Google Gemini, the "Nano
Banana" adapter) for one relit image per prompt and returns the prompts
and the images. The repository also holds:

- a second image adapter for Seedream 4.0 Edit on fal.ai;
- an in-memory fixed-window rate limiter;
- a bounded-concurrency mapper.

This project models the decision and transformation rules of that core as
pure Dafny functions over immutable datatypes and proves what they promise.

| module | file | models |
|---|---|---|
| `Outcomes` | outcomes.dfy | `Option`, and `Outcome` (a value, or the message of a thrown error) |
| `Js` | js.dfy | the JavaScript semantics the code leans on: values, numbers with NaN and infinities, truthiness, `\|\|`, `??`, optional chaining, `find`, `slice`, `Math.min`/`max`, `Math.trunc`, `Array.from({length})`, `trim`, `parseInt(s, 10)` |
| `Web` | web.dfy | blobs, multipart forms, JSON bodies and route responses |
| `RateLimiter` | rate_limit.dfy | lib/rateLimit.js: `requestKey` and `rateLimit`; the bucket map is explicit state and `Date.now()` a parameter |
| `Concurrency` | concurrency.dfy | lib/concurrency.js: `mapWithConcurrency` as a worker/cursor state machine driven by an arbitrary scheduler |
| `Page` | page.dfy | app/page.js: upload validation, `clampCount`, `deriveSrc`, viewer keys, the Generate button, the submitted form |
| `Providers` | providers.dfy | what both image adapters share: `esc`, `svgDataUrl`, the live count clamp |
| `NanoBanana` | nano_banana.dfy | lib/nanoBanana.js: mock/live choice, mock placeholders, request parts, reply extraction, the sequential live loop |
| `Seedream` | seedream.dfy | lib/seedream.js: mock/live choice, mock placeholders, upload file, subscription input, URL extraction |
| `GeneratePrompts` | generate_prompts.dfy | lib/generatePrompts.js: template check, request assembly, the output-text fallback chain, prompt parsing |
| `GenerateRoute` | generate_route.dfy | app/api/generate/route.js |
| `ImagesRoute` | images_route.dfy | app/api/images/route.js |
| `PromptsRoute` | prompts_route.dfy | app/api/prompts/route.js |

External calls are oracles, that is, function parameters keyed by call
index:

- Gemini's `generateContent`;
- fal.ai's `storage.upload` and `subscribe`;
- OpenAI's `responses.create`.

Every operation that calls one returns the list of requests it sent, so
"nothing is sent" is a statement about an empty list. Library primitives
whose exact output the logic does not inspect are fields of a
`Js.Primitives` record:

- `String()`;
- `JSON.parse`;
- base64;
- `encodeURIComponent`;
- the SVG document text.

Environment variables are a map parameter. A request body that fails to
parse is an `Outcome` given to the handler. A throw outside a handler's
`try` becomes `Web.Unhandled`.

## The code as written

Each of the following is how the code behaves as written, and each is
stated and proved in the model:

- **The rate limiter and the concurrency mapper are not used.** No route
  imports `rateLimit` or `mapWithConcurrency`. Both are modelled and proved
  as libraries. The routes send no 429 and do not cap concurrency.
- **The fan-out is unbounded.** The generate route starts every per-prompt
  generation at once through `Promise.all`. When several fail, the error
  reported is the one that settles first, so it depends on timing. The
  model takes the settle times as a parameter. Any failed generation can be
  the one reported (`GenerateRoute.AnyRejectionMayBeReported`); a sole
  failure always is (`GenerateRoute.SoleRejectionIsReported`).
- **The generate route ignores `engine`.** The page sends the field, but
  the route always calls the Gemini adapter (`GenerateRoute.EngineIsIgnored`).
- **Upload validation happens only in the browser.** Type and size are
  checked in `Page.ValidateAndSetFile`. The routes accept any file
  (`GenerateRoute.Post` checks only that a template and an image are present).
- **The count is capped but not floored.** The generate route's
  `Math.min(parseInt(...), 8)` caps the count at 8 and leaves 0, negative
  and NaN counts as they are (`GenerateRoute.CountCappedNotFloored`).
- **The images route passes the count on unclamped.** Only the adapters'
  live paths clamp it to 1..8.
- **The mocks do not cap the count.**
  - The Gemini mock draws exactly `count` placeholders, and fails with
    `Invalid array length` above 2^32 - 1 (`ImagesRoute.MockCountIsUncapped`).
  - The Seedream mock also draws `max(1, count)` with no upper cap
    (`Seedream.MockCountIsUncapped`).
- **The Seedream mock's floor misses NaN.** `Math.max(1, NaN)` is NaN, so a
  NaN count gives an empty array: no image at all, although the floor
  suggests at least one (`Seedream.MockNaNCountGivesNoImages`).
- **The Seedream live path promises no image.** A reply without usable URLs
  resolves to an empty list (`Seedream.LiveReplyMayHoldNoImages`).
- **The Gemini live path is sequential.** The `n` calls run one after
  another, and the first rejection ends the loop.

## Model

| member | source | states |
|---|---|---|
| RateLimiter.ClientIp | lib/rateLimit.js:7-12 | The address is never empty. It is the trimmed first entry of `x-forwarded-for` when that is non-empty, else `cf-connecting-ip` when non-empty, else `x-real-ip` when non-empty, else `unknown`; a header that is present but empty counts as missing. |
| RateLimiter.NoAddressHeadersGiveUnknown | lib/rateLimit.js:8-12 | Missing headers are no error: with none of the three address headers the address is `unknown`. |
| RateLimiter.BlankFirstForwardedEntryGivesUnknown | lib/rateLimit.js:8-12 | Only the first forwarded entry is read: `x-forwarded-for: " ,10.0.0.1"` with empty `cf-connecting-ip` and `x-real-ip` gives `unknown`, although a later entry holds an address. |
| RateLimiter.UserAgentPart | lib/rateLimit.js:13-14 | The user-agent part is a prefix of the `user-agent` header (empty when it is absent): the whole header when it has at most 40 characters, else exactly its first 40. |
| RateLimiter.JoinKey | lib/rateLimit.js:14 | The key is `scope:ip:ua`. Its length is the parts' lengths plus two, and each part sits at its place between the two colons. |
| RateLimiter.RequestKey | lib/rateLimit.js:6-15 | The key of a request starts with the scope and a colon, then holds the client address and a colon, and ends with the user-agent part; its length is theirs plus two. |
| RateLimiter.DefaultScopeIsGlobal | lib/rateLimit.js:6 | Without a scope argument the key is derived for the scope `global`. |
| RateLimiter.ScopeRoundTrip | lib/rateLimit.js:6-14 | A scope without `:` is recovered from any key derived for it, as the text before the first colon. |
| RateLimiter.DistinctScopesDistinctKeys | lib/rateLimit.js:6-14 | Two different scopes without `:` never give the same key, whatever the two requests. |
| RateLimiter.RateLimit | lib/rateLimit.js:17-31 | It states: (1) only the key's bucket is created or changed; (2) a missing or expired bucket restarts at count 1 with `resetAt = now + windowMs`, and a live bucket is incremented; (3) `allowed` iff the new count is at most `limit`; (4) `remaining = max(0, limit - count)`, never negative; (5) `retryAfterMs` is 0 when allowed, else `resetAt - now`, which is positive when `windowMs > 0`. |
| RateLimiter.RunWithinWindow | lib/rateLimit.js:19-30 | Within a live window, the j-th further call of a key sees count `c + j + 1`, keeps `resetAt`, and is admitted iff that count is at most `limit`. |
| RateLimiter.LimitPlusOneCalls | lib/rateLimit.js:17-31 | Take `limit + 1` calls of one key inside a window. The first `limit` are admitted. The last is refused with a positive retry delay. A call once the window has ended is admitted again. |
| RateLimiter.ScopesDoNotShareBudget | lib/rateLimit.js:6-23 | A check under one scope leaves every later answer under another scope unchanged, for the same client. |
| Concurrency.Claim | lib/concurrency.js:6-8 | Claiming advances the shared cursor by exactly one. A worker keeps running iff the claimed index is below the length, and then runs on that index. |
| Concurrency.SpawnWorkersShape | lib/concurrency.js:2-10 | Spawning `count` workers leaves worker w running on index w, the mapper started on 0..count-1 in order, and every result slot a hole. |
| Concurrency.StartState | lib/concurrency.js:2-10 | `min(concurrency, items.length)` workers start (none when concurrency is below 1), each on its own index, with no result stored, and the pool invariant holds. |
| Concurrency.ResumeKeepsInv | lib/concurrency.js:5-9 | Whichever running worker settles next, the invariant is kept: positional results, in-order claims, distinct running indices, every claimed index stored or in flight. The cursor grows by one, the worker count is fixed, and the settled value lands in its own slot. |
| Concurrency.TerminalResults | lib/concurrency.js:5-12 | Once every worker has ended, every index was claimed once and `results[i] == mapper(items[i], i)` for each index. |
| Concurrency.InFlightBound | lib/concurrency.js:4-10 | The indices in flight are exactly the claimed ones without a stored result, and there are never more than `min(concurrency, items.length)` of them. |
| Concurrency.MapWithConcurrency | lib/concurrency.js:1-13 | With the default concurrency of 3, or any other, and under any completion order: the result has one slot per item; with at least one worker slot i holds `mapper(items[i], i)` and the mapper is started on 0, 1, ... once each, in order; with none, every slot is a hole and the mapper is never called. |
| Page.ValidateAndSetFile | app/page.js:39-57 | It states: (1) no file is accepted and clears the selection; (2) a file is accepted iff its type is png, jpeg or webp and its size is at most 8 MiB; (3) acceptance selects the file and clears the error; (4) a rejection keeps the selection; (5) the type is checked before the size; (6) an empty type is shown as `unknown`. |
| Page.SizeCeilingInclusive | app/page.js:49-52 | Exactly 8 MiB of an allowed type is accepted. Anything larger is refused for its size. |
| Page.ClampCount | app/page.js:64-68 | The result is always an integer in 1..8. NaN gives 1, numbers below 2 give 1, numbers from 8 give 8, and numbers in [1, 9) are truncated. |
| Page.ClampCountIdempotent | app/page.js:64-68 | A clamped count clamps to itself. |
| Page.InlinePayloadPriority | app/page.js:81 | The inline payload is the first truthy of `b64`, `base64`, `image_base64`, else `data`. |
| Page.ObjectSrc | app/page.js:79-85 | An object's fields are tried in order: a string `url`; then a string inline payload behind the PNG data-URL prefix; then a string `image`; then a string `image.url`; otherwise nothing. |
| Page.DeriveSrc | app/page.js:70-87 | Falsy values, booleans and numbers give nothing. An `http://`, `https://` or `data:` string is returned verbatim. Any other non-empty string becomes a PNG data URL. Objects go through the field priority. |
| Page.DeriveSrcIdempotentOnStrings | app/page.js:70-78 | What `deriveSrc` makes of a string renders to itself again. |
| Page.ViewerKey | app/page.js:134-147 | A closed viewer stays closed. Escape closes. ArrowRight gives `min(len-1, i+1)`, ArrowLeft gives `max(0, i-1)`, and other keys change nothing. |
| Page.ViewerStaysInRange | app/page.js:140-147 | From a valid index, with at least one image, any key sequence keeps the index in `0..len-1` or closes the viewer. |
| Page.SubmitForm | app/page.js:159-169 | A form is posted iff an image is chosen. It carries that image, the template, the clamped count as a decimal numeral and the chosen `engine`. It carries the typed description iff one was typed. |
| Page.ListOrEmpty | app/page.js:176-177 | An array response field is taken as it is; anything else reads as an empty list. |
| Page.FailureMessage | app/page.js:175-179 | The error line is never empty. It is the body's non-empty string `error` as it is, and `Request failed (<status>)` when `error` is falsy. |
| Page.ReadResponse | app/page.js:174-179 | A status in 200..299 shows the body's `prompts` and `images` arrays (empty when absent or not arrays). Any other status shows the error line. |
| Page.ReadsRouteBody | app/page.js:174-179 | Reading back a route body gives what was sent: a success body's prompts and images exactly, and an error body's message, or the status line when it is empty. |
| Page.NonJsonAnswerShowsStatus | app/page.js:174-175 | A failed response without a JSON body is read as `{}` and reported as `Request failed (<status>)`. |
| Page.EnabledButtonPostsTemplateAndImage | app/page.js:32-34 | An enabled Generate button always posts a form with a non-empty template and an image. |
| Page.IsGenerateDisabled | app/page.js:32-34 | The button is disabled without an image, with an empty template, or while loading; what an enabled button leads to is stated by `Page.EnabledButtonPostsTemplateAndImage` and `GenerateRoute.PageSubmissionPassesValidation`. |
| Js.FindFirst | lib/nanoBanana.js:73 | `find` yields a matching element of the list, or `undefined` when none matches. |
| Js.FindFirstIsEarliest | lib/nanoBanana.js:73 | `find` yields the earliest match. |
| Js.EnvOr | lib/generatePrompts.js:45 | `process.env[name] || fallback` is the variable when it is set and non-empty, and the fallback when it is unset or empty. |
| Js.ArrayFromLength | lib/nanoBanana.js:29 | `Array.from({length})` makes NaN, -Infinity and every number below 1 (negatives and fractions included) length 0. A number from 1 up is truncated to its floor. A floor beyond 2^32 - 1, or +Infinity, is the RangeError `Invalid array length`. |
| Js.ToLength | lib/nanoBanana.js:29 | ToLength of a number, step by step as ECMAScript defines it, is in 0 .. 2^53 - 1. |
| Js.ArrayFromLengthIsCheckedToLength | lib/nanoBanana.js:29 | `Array.from({length})` equals the ECMAScript reference reading: ToLength, then a RangeError exactly when that exceeds 2^32 - 1. |
| Js.ParseInt | app/api/images/route.js:8 | `parseInt(s, 10)` is NaN iff there is no digit after the leading white space and sign. Otherwise it is a whole number, negative only after a `-`. It is never infinite. |
| Js.ParseIntOfDecimal | app/api/generate/route.js:8 | `parseInt` reads back every decimal numeral `${n}` prints. |
| Js.ParseIntOfNegativeDecimal | app/api/generate/route.js:8 | `parseInt` reads back the numeral with a leading minus sign as its negation. |
| Providers.EscIsPerCharacter | lib/nanoBanana.js:9 | The two `replace` passes of `esc` do not interfere. Each `&` becomes `&amp;`, each `<` becomes `&lt;`, and every other character is kept. |
| Providers.Esc | lib/nanoBanana.js:9 | The escaped text contains no `<`. Its partners are `Providers.EscIsPerCharacter` and `Providers.EscRoundTrip`. |
| Providers.EscRoundTrip | lib/nanoBanana.js:9 | Decoding the two entities gives back exactly the original text. |
| Providers.EscInjective | lib/seedream.js:10 | Distinct texts stay distinct after escaping. |
| Providers.EscPlainText | lib/seedream.js:10 | Text without `&` or `<` is embedded unchanged. |
| Providers.SvgDataUrl | lib/nanoBanana.js:8-25 | The placeholder is an SVG data URL (`data:image/svg+xml;utf8,`). |
| Providers.LiveCount | lib/nanoBanana.js:55 | `max(1, min(8, Number(count) \|\| 1))` is always in [1, 8]. NaN and 0 give 1, values in [1, 8] are kept, larger values give 8 and smaller ones give 1. |
| Providers.LiveIterations | lib/nanoBanana.js:87 | The live loop runs between one and eight times: the smallest whole number at or above the clamped count. |
| NanoBanana.LoadConfig | lib/nanoBanana.js:6 | Mock mode holds iff `GOOGLE_NANO_BANANA_MOCK` is `1` or `GOOGLE_API_KEY` is unset or empty. |
| NanoBanana.ModeFixedAtLoad | lib/nanoBanana.js:6-51 | The mode is fixed at load. Loaded in mock mode, a call sends nothing and answers the same whatever the environment at call time; loaded with a key, it sends at least one request. Each request names the model the call-time environment names. |
| NanoBanana.MockImages | lib/nanoBanana.js:27-33 | The mock draws exactly as many placeholders as `Array.from` makes for `count`, uncapped; placeholder i carries subtitle i. A length beyond the array limit is the error `Invalid array length`. |
| NanoBanana.MockHead | lib/nanoBanana.js:30 | The placeholder head is the first 60 characters of a non-empty string prompt, and `no prompt` for a falsy prompt or one without `slice`. |
| Providers.NumberedSubtitle | lib/nanoBanana.js:30 | A placeholder subtitle starts with the head and ends, after the separator, with the number. Gemini uses the 60-character head, a bullet and i + 1; Seedream (lib/seedream.js:31) uses its printed head, a middle dot and i + 1. |
| Providers.NumberedSubtitlesDistinct | lib/nanoBanana.js:29-31 | Different numbers give different subtitles, so the placeholders of one mock call are pairwise distinct in either adapter (the same holds at lib/seedream.js:30-32). |
| NanoBanana.Parts | lib/nanoBanana.js:58-64 | There is a text part iff the prompt is truthy, and it comes first. There is an inline part iff there is an image; it holds the image's base64 and its type, or `image/png`. |
| NanoBanana.PartsReadBack | lib/nanoBanana.js:58-64 | The model reads back what was put in: the text is the printed prompt iff the prompt is truthy, and the inline data is the image's base64 and type (`image/png` when empty) iff there is an image. With neither, the request has no parts. |
| NanoBanana.LiveRequest | lib/nanoBanana.js:51-69 | Each live request names `GEMINI_IMAGE_MODEL` when it is set and non-empty, else `gemini-2.0-flash`, and carries the parts built for the prompt and image. |
| NanoBanana.ExtractImage | lib/nanoBanana.js:72-83 | What a reply becomes is always a data URL, never empty. |
| NanoBanana.ExtractImageUsesFirstDataPart | lib/nanoBanana.js:72-78 | The image is taken from the first candidate part that carries inline data. |
| NanoBanana.ExtractImageFallback | lib/nanoBanana.js:79-83 | The explanatory placeholder is returned when no part carries inline data. |
| NanoBanana.LiveReplies | lib/nanoBanana.js:86-89 | `n` sequential rounds send the same request each time. Success means n calls, with reply k the SDK's k-th answer. A rejection comes from the last call sent, and every earlier call succeeded. |
| NanoBanana.LiveRounds | lib/nanoBanana.js:72-90 | Success holds iff every round was answered; image k is then what reply k yields. A rejection is the last call's error, passed on unchanged. |
| NanoBanana.GenerateImage | lib/nanoBanana.js:44-91 | The mock sends nothing and returns the mock placeholders. The live path sends between one and `LiveIterations(count)` copies of the same request, and on success returns one image per call, `LiveIterations(count)` in all. |
| NanoBanana.GeneratedImagesAreDataUrls | lib/nanoBanana.js:44-91 | In either mode every image returned is a data URL. |
| NanoBanana.LiveImagesFollowReplies | lib/nanoBanana.js:66-90 | On the live path each image comes from its own reply, and a rejection is passed on unchanged from the round that failed. |
| NanoBanana.LiveCountIsClamped | lib/nanoBanana.js:55 | A whole count from 1 to 8 asks for exactly that many images. Counts from 8 up ask for 8. NaN and 0 ask for one. |
| Seedream.LoadConfig | lib/seedream.js:7 | Mock mode holds iff `FAL_KEY` is unset or empty. |
| Seedream.ModeFixedAtLoad | lib/seedream.js:7-40 | A module loaded without `FAL_KEY` never calls fal.ai, and one loaded with it always does. |
| Seedream.MockHead | lib/seedream.js:31 | The subtitle head is `no prompt` for a falsy prompt and the first 60 characters of a string prompt. It is a TypeError exactly for a truthy prompt that cannot be sliced. |
| Seedream.MockImages | lib/seedream.js:28-34 | The mock draws `Array.from({length: max(1, count)})` placeholders, numbered from 1 behind the head. The head is computed only when there is a placeholder to label. |
| Seedream.MockCountIsUncapped | lib/seedream.js:30 | A whole count n gives exactly n placeholders, with no cap at eight. |
| Seedream.MockNaNCountGivesNoImages | lib/seedream.js:30 | A NaN count gives no placeholder at all. |
| Seedream.MockSmallCountGivesOneImage | lib/seedream.js:30 | Zero, negative and other counts up to 1 give exactly one placeholder. |
| Seedream.UploadFor | lib/seedream.js:49-53 | With a `File` global the upload is a file of the same bytes, typed as the image or `image/png`, named `upload.png` iff that type contains `png` and `upload.jpg` otherwise. Without one the upload is the blob itself. |
| Seedream.LiveInput | lib/seedream.js:57-63 | `num_images` and `max_images` both equal the clamped count in [1, 8]. The safety checker is on. `image_urls` is `[url]` iff an upload URL came back. The prompt is empty for a falsy prompt and is a string prompt as it is. |
| Seedream.LiveCountsAgree | lib/seedream.js:44-61 | Seedream asks for as many images as Gemini sends requests for the same count exactly when the clamped count is a whole number; a fraction reaches fal.ai unrounded. |
| Seedream.KeepTruthy | lib/seedream.js:67 | `filter(Boolean)` keeps only truthy values and keeps every truthy value. The result never grows the list, and holds no value more often than the input. |
| Seedream.KeepTruthyConcat | lib/seedream.js:67 | Filtering distributes over concatenation, so the kept values stay in their original order. |
| Seedream.KeepTruthyAllTruthy | lib/seedream.js:67 | A list that is truthy throughout is kept whole. |
| Seedream.ExtractUrls | lib/seedream.js:66-68 | A non-array `images` is a TypeError from `map`. Otherwise the list is no longer than the reply's and holds only truthy values. |
| Seedream.ExtractUrlsProvenance | lib/seedream.js:66-67 | Each URL is the string entry or the `url` of some reply entry. Every entry whose string or `url` is truthy contributes it. |
| Seedream.ExtractUrlsKeepsUrlStrings | lib/seedream.js:66-67 | A reply listing non-empty URL strings is passed through whole and in order. |
| Seedream.LiveReplyMayHoldNoImages | lib/seedream.js:66-68 | A reply with no usable URL gives an empty list, not an error. |
| Seedream.GenerateImage | lib/seedream.js:36-69 | It states: (1) the mock sends nothing; (2) live without an image, exactly one subscription is sent; (3) with an image, the upload goes first, and a failed upload ends the call with its error; (4) a successful upload is followed by a subscription carrying the uploaded URL; (5) the result is the URLs extracted from the subscription's reply, or its error. |
| Seedream.Subscribed | lib/seedream.js:65-68 | The subscription is appended to the requests already sent. |
| Seedream.LiveRequestAndResultBounds | lib/seedream.js:44-68 | Live, at most eight images are requested with the safety checker on, and every image returned is truthy. |
| GeneratePrompts.UserText | lib/generatePrompts.js:29 | The instruction is `Generate <count> distinct prompts for `, the printed template, ` photography of a product described as: `, the printed description, and the closing sentence naming the `prompts` key; each piece sits at the stated position. |
| GeneratePrompts.UserTextDeterminesOptions | lib/generatePrompts.js:29 | For the same count, equal instructions mean equal descriptions, and equal templates when the templates print to the same length. |
| GeneratePrompts.ImageContent | lib/generatePrompts.js:40-43 | An image item is attached iff `imageBase64` or `imageDataUrl` is truthy. `imageDataUrl` wins; otherwise the base64 goes behind `data:image/png;base64,`. |
| GeneratePrompts.Request | lib/generatePrompts.js:31-52 | The request names `OPENAI_MODEL` when it is set and non-empty, else `gpt-5`, and asks for a JSON object. It has one or two content items: the instruction text first, then the image item iff there is an image. |
| GeneratePrompts.TextOut | lib/generatePrompts.js:55-63 | The text is tried in this order, each step falling through only on null or undefined: (1) `output_text` when it is a string, else its first element; (2) the first `output_text` item of `output[0].content`; (3) the first content item's text. |
| GeneratePrompts.OutputTextStringWins | lib/generatePrompts.js:57-59 | A string `output_text` wins over every other reply shape. |
| GeneratePrompts.ParsePrompts | lib/generatePrompts.js:54-70 | Every failure carries the prefix `Failed to parse prompts JSON: `: missing text, a parse error with its message, and a nullish parsed value. A parsed `prompts` array is returned as it is, and anything else gives an empty list. |
| GeneratePrompts.ParseText | lib/generatePrompts.js:64-66 | The `try` statements succeed exactly when there is a text, it parses, and the parsed value is not nullish; they then yield its `prompts` when that is an array, and an empty list otherwise. |
| GeneratePrompts.GeneratePrompts | lib/generatePrompts.js:20-70 | A falsy template throws `template is required` before any request is sent. Otherwise exactly one request is sent, and an SDK rejection passes through unchanged; a reply is parsed. |
| GeneratePrompts.WellFormedReplyRoundTrip | lib/generatePrompts.js:55-66 | A reply whose text parses to `{prompts: [...]}` yields exactly that list. |
| GeneratePrompts.ReplyWithoutPromptsArrayYieldsNone | lib/generatePrompts.js:66 | A parsed object without a `prompts` array yields an empty list, not an error. |
| GenerateRoute.RequestedCount | app/api/generate/route.js:8 | The count is NaN iff `parseInt` gives NaN. It is capped at 8, and a parsed value of 8 or less is passed on unchanged. |
| GenerateRoute.CountCappedNotFloored | app/api/generate/route.js:8 | A count field `n` asks for `min(n, 8)`, and `-n` is passed on as it is. |
| GenerateRoute.ImageRuns | app/api/generate/route.js:30-35 | There is one adapter call per prompt, in prompt order. Each is made with `count: 1` on its own blob of the uploaded bytes and type. |
| GenerateRoute.All | app/api/generate/route.js:31-35 | `Promise.all` succeeds iff every generation does, and then keeps their values in order. A failure reports the error of a failed generation that settled no later than any other failure. |
| GenerateRoute.FirstRejection | app/api/generate/route.js:31-35 | Among the generations, none is found iff all succeeded; otherwise a failed one is found that settles no later than any other failure. |
| GenerateRoute.AnyRejectionMayBeReported | app/api/generate/route.js:31-35 | Every failed generation is the one reported when it settles before all others. |
| GenerateRoute.SoleRejectionIsReported | app/api/generate/route.js:31-35 | When exactly one generation fails, its error is reported whatever the timing. |
| GenerateRoute.FlatMapOfAdapterResults | app/api/generate/route.js:37 | On adapter results the `\|\| r` fallback never applies: `flatMap` is the in-order concatenation of the image lists. |
| GenerateRoute.Spread | app/api/generate/route.js:37 | An element contributes its `images` array when it has one; otherwise the element itself, spread when it is an array. Concatenation over all results is `GenerateRoute.FlatMapImages`, whose partner is `GenerateRoute.FlatMapOfAdapterResults`. |
| GenerateRoute.FlatMapImages | app/api/generate/route.js:37 | `flatMap` concatenates the contributions in result order; on adapter results that is the concatenation of the image lists (`GenerateRoute.FlatMapOfAdapterResults`). |
| GenerateRoute.ImageStage | app/api/generate/route.js:30-42 | The image stage answers 200 with the prompts unchanged, or 500 with an error body. It records one request list per prompt. |
| GenerateRoute.Generate | app/api/generate/route.js:22-42 | A prompt failure is a 500 with its message, and no image is requested. Otherwise the image stage runs on the prompts. |
| GenerateRoute.Post | app/api/generate/route.js:5-43 | An unreadable form escapes the handler. A missing template or image is a 400 `template and image are required`; otherwise the handler generates. Every non-200 answer carries an error body. |
| Web.BodyJson | app/api/generate/route.js:13-41 | The JSON a body is read back as: an error body is `{error}`, and a prompts-and-images body is `{prompts, images}` holding the two lists. |
| GenerateRoute.MissingInputsSendNothing | app/api/generate/route.js:12-17 | The 400 for missing inputs sends no prompt or image request. |
| GenerateRoute.EngineIsIgnored | app/api/generate/route.js:6-10 | Forms that differ only in `engine` get the same answer after the same requests. |
| GenerateRoute.SingleImagePerCall | app/api/generate/route.js:33 | An adapter asked for one image returns exactly one, in either mode. |
| GenerateRoute.OneImagePerPrompt | app/api/generate/route.js:30-39 | A 200 answer follows successful prompt generation. It carries exactly as many images as prompts and adapter call lists. Image i is the single image the adapter returned for prompt i. |
| GenerateRoute.ImageStageOneImagePerPrompt | app/api/generate/route.js:30-39 | A 200 from the image stage carries one image per prompt, in prompt order: image i is the single image generated for prompt i. |
| GenerateRoute.ImageCallsPerPrompt | app/api/generate/route.js:30-35 | Per prompt the mock sends nothing, and the live adapter sends exactly one request with that prompt and the uploaded image. |
| GenerateRoute.ImageFailureReportsFirstRejection | app/api/generate/route.js:31-41 | A 500 from the image stage carries the error of a failed generation, one whose failure settled no later than any other. |
| GenerateRoute.PageSubmissionPassesValidation | app/api/generate/route.js:7-12 | A form the page posts with the button enabled passes the route's validation, and the route asks for the count the page clamped. |
| GenerateRoute.AnsweredImagesRenderVerbatim | app/api/generate/route.js:37-39 | Every image of a 200 answer is a data-URL string that the page's `deriveSrc` renders unchanged. |
| GenerateRoute.ImageStageRendersVerbatim | app/api/generate/route.js:30-39 | Every image of a 200 from the image stage is a data-URL string that `deriveSrc` renders unchanged. |
| GenerateRoute.PageShowsAnswer | app/page.js:171-179 | The page shows what the route answered. For a 200 that is the body's prompts and images exactly. For a 400 or 500 error body it is the error message, or `Request failed (<status>)` when the message is empty. |
| GenerateRoute.PromptRequestCarriesUpload | app/api/generate/route.js:19-28 | The prompt request carries the upload as a PNG data URL of its base64. An upload whose base64 text is empty is sent without an image item. |
| ImagesRoute.Post | app/api/images/route.js:4-20 | It states: (1) an unreadable form escapes the handler; (2) a falsy prompt is a 400 `prompt is required` with no call; (3) otherwise the adapter gets the prompt, the image field as it is and the unclamped parsed count; (4) an error is a 500 with its message, and success is `{images}` holding the adapter's images. |
| ImagesRoute.RequestedCount | app/api/images/route.js:8 | The count is 1 when the field is missing or empty, and otherwise the number a decimal field spells, unclamped. |
| ImagesRoute.ImagesOf | app/api/images/route.js:16 | The answer holds the adapter's `images` array when it has one, else the value itself. |
| ImagesRoute.MockCountIsUncapped | app/api/images/route.js:8-16 | In mock mode a count `n` gives n placeholders up to the array limit, and a 500 `Invalid array length` above it. |
| ImagesRoute.LiveCallsAtMostEight | app/api/images/route.js:15 | On the live path at most eight requests are sent, whatever the count. |
| PromptsRoute.FormArgs | app/api/prompts/route.js:13-21 | The form branch takes the template field. Its count is the unclamped `parseInt` of the field or `1`, and the description is the field or `''`. The image's base64 is present iff there is an image. |
| PromptsRoute.JsonArgs | app/api/prompts/route.js:23 | Destructuring a null or undefined body throws. Otherwise template and image are read as they are, count defaults to 1 and the description to `''` only when undefined. |
| PromptsRoute.IsMultipart | app/api/prompts/route.js:10-12 | The form branch is taken when the content type contains `multipart/form-data` (`PromptsRoute.ContentTypeDispatch`). |
| PromptsRoute.ContentTypeDispatch | app/api/prompts/route.js:10-12 | `multipart/form-data` followed by any parameters selects the form branch, and a missing content type selects JSON. |
| PromptsRoute.ArgsOf | app/api/prompts/route.js:10-24 | A multipart request is read as a form and anything else as JSON. A body that cannot be read is the error it raised. |
| PromptsRoute.ReadsOneBody | app/api/prompts/route.js:10-24 | Only one body is read: a multipart request's JSON body and any other request's form make no difference to the answer. |
| PromptsRoute.Post | app/api/prompts/route.js:4-40 | It states: (1) a body that cannot be read escapes the handler; (2) a falsy template is a 400 `template is required`, with nothing sent; (3) otherwise `generatePrompts` runs; (4) its error is a 500 with the message, and its prompts are a 200 `{prompts}`. |
| PromptsRoute.OneRequestPerAnswer | app/api/prompts/route.js:26-40 | A 400 sends no request, and every other answer follows exactly one request. |
| PromptsRoute.FormAndJsonAgree | app/api/prompts/route.js:10-24 | A multipart form and a JSON body carrying the same options get the same answer after the same request. |
| PromptsRoute.PostFollowsArgs | app/api/prompts/route.js:26-40 | The handler depends on nothing of the request but its options. |

## Left out

- Rendering, React state and effects, the image preview (`URL.createObjectURL`), clipboard, download and drag-and-drop handlers are user-interface glue; only the decision rules of app/page.js are modelled.
- The error message texts on the page (`toFixed(2)` MB formatting, `Unsupported file type: ...`) are floating-point formatting; rejections are the tagged `Page.Rejection` instead.
- `Number(n)` on the count input is taken as already done: `Page.ClampCount` starts from a number.
- Page.ValidateAndSetFile: the blob's type is taken as given; the browser's normalisation of MIME types is not modelled.
- Strings are sequences of Unicode characters, while JavaScript slices UTF-16 code units (`slice(0, 60)`, `slice(0, 40)`). Outside the Basic Multilingual Plane the two differ in length, and a JavaScript cut can fall inside a surrogate pair.
- NanoBanana.MockImages: a prompt whose 60-unit head ends in half a surrogate pair makes `encodeURIComponent` throw `URIError: URI malformed`, so the mock rejects and the routes answer 500. The model's URI encoding is a total function, so this failure is not modelled.
- Seedream.MockImages: the same `URIError` for a head cut inside a surrogate pair is not modelled, for the same reason.
- RateLimiter.UserAgentPart: keeps the first 40 characters, where `slice(0, 40)` keeps 40 UTF-16 code units; the keys differ for user agents outside the Basic Multilingual Plane.
- Js.ParseInt: the value is the exact integer; the rounding of numerals longer than about 15 digits to a double is not modelled.
- A form entry of the wrong kind (a file under a text name, or text under `image`) is not modelled: text fields and file fields are separate maps.
- `String()`, `JSON.parse`, base64, `encodeURIComponent` and the SVG document text are opaque functions of `Js.Primitives`; their outputs are not inspected by the logic.
- Providers.SvgDataUrl: states the data-URL prefix only; the SVG markup is opaque.
- Providers.EscIsPerCharacter: `esc` is modelled on strings; the `(s || '')` guard is not exercised, since every caller passes a string.
- The SDK clients (Gemini, fal.ai, OpenAI) are oracles; API keys, `baseURL`, `fal.config` and the SDKs' own validation are not modelled.
- The exact wording of engine TypeErrors (`Cannot read properties of ...`, `... is not a function`) follows V8's messages as closely as the model's values allow.
- Async timing: the sequential Gemini loop is modelled as its outcome. For `Promise.all` only the order in which the generations settle matters, and that order is a parameter.
- Concurrency.MapWithConcurrency: a rejecting mapper is not modelled (the mapper is a total function), so fail-fast behaviour and the fate of sibling workers after a rejection are left out.
- `console.warn` logging and `NextResponse` serialisation are left out; a response is a status and a body datatype.
- Environment variables are a map parameter, and `Date.now()` is the parameter `now`.
- RateLimiter.RateLimit: `limit` and `windowMs` are integers. Non-integer or NaN JavaScript numbers are not modelled.
- Concurrency.MapWithConcurrency: `concurrency` is an integer. A fractional or NaN concurrency, which `Array.from` would truncate or read as 0, is not modelled.
- Web.BodyJson: serialising a body and parsing it back in the browser is taken to give back the same values. That fails for numbers outside the double range: `JSON.parse` reads a numeral such as `1e999` in a model reply as Infinity, and `NextResponse.json` writes Infinity as `null`. A prompt list holding such a number reaches the page with `null` in its place, so GenerateRoute.PageShowsAnswer's "exactly" holds only for replies without such numerals. The images are strings and are unaffected.
- GenerateRoute.PageShowsAnswer: rests on the Web.BodyJson round trip, so it does not cover a prompt list holding a numeral outside the double range.
- relight.py and app/layout.js are not part of this model.
