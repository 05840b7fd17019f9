# Nutrition analysis endpoint, modelled in Dafny

This project models the request pipeline behind `POST /api/analyze` of a
vegetarian-food nutrition service. Every request goes through four stages:

1. **Validation.** The handler checks the untrusted JSON body, meaning `image`, `mimeType`, `foodName` and `amount`. It collects every problem it finds, in a fixed order, and answers 400 with the problems joined by `"; "`.
2. **Prompt.** A valid body becomes the content of one message to a language model. A body with an image gets the image followed by a fixed instruction. Otherwise the content is a single instruction that quotes the trimmed food name and the amount, or "1 serving" when no amount is given.
3. **Parsing.** The handler finds the JSON object in the model's reply. It first tries a fenced code block whose body is matched lazily. Failing that, it takes the span from the first `{` to the last `}`. It then requires a truthy `foodName` and a truthy `nutrition`.
4. **Answer.** The handler maps each outcome to an HTTP status and body. Upstream errors map to fixed messages. A parse failure gives 500. An `error` member of the reply gives 400. Otherwise the handler answers 200 with the data itself.

Modules:

- `Results`: the `Option` and `Result` datatypes.
- `JsValues`: the JavaScript values a parsed body can hold, and the language operations the handler relies on:
  - truthiness;
  - `length` in UTF-16 code units;
  - the `\s` class and `trim`;
  - `join`.
- `Validation`: the body, the error list as a specification function `Errors`, and the imperative validator `ValidateInput`. `ValidateInput` is proved to compute `Errors`. Lemmas cover the order and exclusivity of the checks.
- `Prompt`: the template texts, the corrected builder `BuildPrompt` used by the pipeline, and the builder as written (see Findings).
- `Extraction`: the two regular expressions written as scans over the reply. Each scan has a declarative statement of what its expression matches. The proofs show that each scan finds the leftmost match, which is lazy for the fenced block and greedy for the bare object.
- `ResponseParser`: `parseNutritionResponse`, with `JSON.parse` as a function parameter.
- `Analyze`: the status table, the outer `catch`, and the whole handler, once corrected and once as written.

Two kinds of input that cannot be seen are parameters:

- The model call is a function from the message content to an `Upstream`. An `Upstream` is either the error the call throws or the blocks of its reply.
- `JSON.parse` is a function from a text to an optional object. The extracted text always starts with `{` and ends with `}`, so a successful parse is an object.

The image instruction (`server/routes/analyze.js:182-185`) asks the model to answer `{"error": "Please upload an image of food"}` for a picture that is not food. That reply has no `foodName`, so `parseNutritionResponse` throws (lines 90-92). The handler then answers 500 "Failed to parse nutrition data" (lines 239-245), not 400 with the model's message (`Analyze.ErrorOnlyReplyIs500`). The handler passes an `error` on with 400 only when the object also has `foodName` and `nutrition`.

## Model

| member | source | states |
|---|---|---|
| Validation.ValidateInput | server/routes/analyze.js:19-70 | The imperative validator, with its pushes and early return, yields exactly the error list `Errors(body)`; `valid` holds exactly when that list is empty |
| Validation.PushImageErrors | server/routes/analyze.js:30-45 | The image checks append exactly the image errors of the body to the list they are given |
| Validation.PushFoodNameErrors | server/routes/analyze.js:48-56 | The food-name checks append exactly the food-name errors to the list they are given |
| Validation.PushAmountErrors | server/routes/analyze.js:58-64 | The amount checks append exactly the amount errors to the list they are given |
| Validation.Errors | server/routes/analyze.js:19-70 | At most five errors are reported, and a body with neither image nor food name always gets one |
| Validation.MimeTypeListed | server/routes/analyze.js:32-34 | A MIME type is accepted exactly when it is one of the listed strings, each of which starts with `image/` |
| Validation.PassesBase64Test | server/routes/analyze.js:37-39 | An object image, and an array image of other than one element, always fail the data check |
| Validation.Base64TestOnPrinted | server/routes/analyze.js:37 | Wherever `String(image)` is known, the data check passes exactly when that text matches `/^[A-Za-z0-9+/=]+$/` |
| Validation.ExceedsImageLimit | server/routes/analyze.js:42-44 | Only a string, an array or an object can be too large; a string longer than 13 MiB characters always is, and one of at most half that never is |
| Validation.Messages | server/routes/analyze.js:25-62 | One message per error, in order, each the text the validator pushes for that error |
| Validation.NoInputIsAlone | server/routes/analyze.js:23-27 | The "nothing provided" error is reported exactly when neither image nor food name is truthy, and then it is the only error |
| Validation.ImageChecksAccumulate | server/routes/analyze.js:30-45 | With an image present, the MIME, data and size errors are each reported exactly when their own check fails, independently of the other two; without an image none is reported |
| Validation.StringImageData | server/routes/analyze.js:37-39 | For a non-empty string image, the data error is reported exactly when some character is outside `[A-Za-z0-9+/=]` |
| Validation.ErrorsInCheckOrder | server/routes/analyze.js:23-64 | The errors appear in the order the checks run, each at most once |
| Validation.FoodNameCheckedInTurn | server/routes/analyze.js:48-56 | Not a string, too long (over 200 code units) and blank are each reported exactly under their own condition, with the earlier checks passing; this holds whether or not an image is present |
| Validation.FoodNameAtMostOnce | server/routes/analyze.js:48-56 | At most one food-name error is reported |
| Validation.BlankLongNameIsTooLong | server/routes/analyze.js:51-54 | A name of 300 spaces is reported as too long, not as empty |
| Validation.AmountCheckedInTurn | server/routes/analyze.js:58-64 | Not a string and too long (over 100 code units) are reported under their own conditions; a falsy amount is validated exactly like an absent one |
| Validation.AmountAtMostOnce | server/routes/analyze.js:58-64 | At most one amount error is reported |
| Validation.NoErrorsIffAccepted | server/routes/analyze.js:19-70 | A body passes exactly when it has an image or a food name, any image passes all three checks, any food name is a string of at most 200 code units with a character that is not a space, and any amount is a string of at most 100 code units |
| JsValues.JsLength | server/routes/analyze.js:42 | `length` counts UTF-16 code units: between the number of characters and twice it, zero only for the empty string, and equal to the number of characters when all of them are in the Basic Multilingual Plane |
| JsValues.JsLengthOfChar | server/routes/analyze.js:51 | One character is one code unit, or two exactly when it lies above the Basic Multilingual Plane |
| JsValues.JsLengthAppend | server/routes/analyze.js:51 | The length of a concatenation is the sum of the lengths |
| JsValues.FalsyValues | server/routes/analyze.js:24 | A JSON value is falsy exactly when it is `undefined`, `null`, `false`, `0` or the empty string |
| JsValues.SpaceClass | server/routes/analyze.js:53 | On ASCII, `\s` is exactly the space and the characters tab to carriage return; letters and digits are never spaces; every space is in the Basic Multilingual Plane |
| JsValues.Printed | server/routes/analyze.js:37 | `String(value)` of a string is the string itself |
| JsValues.Join | server/routes/analyze.js:144 | `join` of no parts is empty; otherwise the result starts with the first part, has the separator right after it when there are several, and ends with the last part |
| JsValues.JoinOne | server/routes/analyze.js:144 | Joining one part gives that part |
| JsValues.JoinAppend | server/routes/analyze.js:144 | Joining one more part appends the separator and that part, so `join` keeps every part, in order, with the separator between each two |
| Validation.AllowedListJoined | server/routes/analyze.js:33 | The MIME error lists `image/jpeg, image/png, image/webp, image/gif`, the declared order of the allowed types, separated by ", " |
| JsValues.Trim | server/routes/analyze.js:53 | `trim` keeps a slice of the input with only spaces before and after it, and that slice neither starts nor ends with a space |
| JsValues.TrimStart | server/routes/analyze.js:53 | The result is a suffix of the input; every dropped character is a space and the first kept one is not |
| JsValues.TrimEnd | server/routes/analyze.js:53 | The result is a prefix of the input; every dropped character is a space and the last kept one is not |
| JsValues.TrimEmpty | server/routes/analyze.js:53 | A string trims to nothing exactly when all its characters are spaces |
| Prompt.ServingAmountAsWritten | server/routes/analyze.js:195 | `amount?.trim()` throws a `TypeError`, with no status, exactly when the amount is neither absent, `null` nor a string |
| Prompt.BuildPromptAsWritten | server/routes/analyze.js:152-222 | For a valid body the payload as written can throw only without an image, and then with no status; otherwise it has two parts with an image and one without, the last being text |
| Prompt.ServingAmount | server/routes/analyze.js:195 | The quantity is never empty and has no surrounding spaces; it is the trimmed amount when the amount is a string with a character that is not a space, and "1 serving" otherwise |
| Prompt.BuildPrompt | server/routes/analyze.js:152-222 | A valid body with an image gives exactly two parts: the image with its allowed declared type, then the fixed instruction. Without an image it gives exactly one text part, built from the non-empty trimmed food name and the serving amount |
| Prompt.ImageIgnoresFoodName | server/routes/analyze.js:152-191 | With an image present, changing the food name or the amount does not change the payload |
| Prompt.TextDependsOnSanitizedInput | server/routes/analyze.js:192-222 | Without an image, bodies with the same trimmed name and the same serving amount get the same payload |
| Prompt.TextInstructionQuotes | server/routes/analyze.js:200 | The text instruction opens with a sentence that quotes the food name and the quantity verbatim, at fixed offsets |
| Prompt.AsWrittenThrowsOnFalsyAmount | server/routes/analyze.js:194-195 | For a valid body, the handler as written throws exactly when there is no image and the amount is `false` or `0`; otherwise it builds the corrected payload |
| Prompt.AmountAsWritten | server/routes/analyze.js:195 | On an amount that passed validation, `amount?.trim() \|\| '1 serving'` throws exactly for `false` and `0`, and otherwise equals the serving amount |
| Prompt.ZeroAmountThrows | server/routes/analyze.js:195 | `{foodName: "rice", amount: 0}` passes validation, the prompt as written throws on it, and the corrected builder uses "1 serving" |
| Extraction.SkipSpaces | server/routes/analyze.js:75 | `\s*` stops at the first position that is not a space, and everything it skipped is a space |
| Extraction.LazyClose | server/routes/analyze.js:75 | The lazy body stops at the least position that closes the block, and finds nothing only when no position does |
| Extraction.FencedAt | server/routes/analyze.js:75 | An attempt at one position yields a group that starts with `{` and ends with `}` |
| Extraction.FindFenced | server/routes/analyze.js:75 | The search yields a group that starts with `{` and ends with `}`, at or after where it began |
| Extraction.FencedAtSpec | server/routes/analyze.js:75 | The attempt at a position finds a match of the fenced expression there, with the one possible opening and the least close; it finds nothing exactly when the expression cannot match there |
| Extraction.FindFencedSearch | server/routes/analyze.js:75 | The search stops at the first position whose attempt succeeds, and finds nothing exactly when every attempt fails |
| Extraction.FindFencedSpec | server/routes/analyze.js:75 | The search finds the leftmost position where the fenced expression matches, with the least match there, and nothing exactly when it matches nowhere |
| Extraction.IndexFrom | server/routes/analyze.js:79 | The first position at or after the start holding the character, or none when no such position exists |
| Extraction.LastIndexBefore | server/routes/analyze.js:79 | The last position before the bound holding the character, or none when no such position exists |
| Extraction.FindBraces | server/routes/analyze.js:79 | The bare match spans a `{` up to a later `}` |
| Extraction.FindBracesSpec | server/routes/analyze.js:79 | The bare match starts no later, and ends no earlier, than any match of `/(\{[\s\S]*\})/`; there is none exactly when the expression matches nowhere |
| Extraction.ExtractJson | server/routes/analyze.js:75-86 | The extracted text has at least two characters, starts with `{` and ends with `}` |
| Extraction.FencedBlockWins | server/routes/analyze.js:75-86 | When the leftmost fenced match is at `p` with its least close `e`, the extracted text is that block's object, whatever the rest of the reply holds |
| Extraction.BareObjectFallback | server/routes/analyze.js:78-86 | With no fenced match anywhere, the extracted text runs from the first `{` to the last `}` |
| Extraction.NoJsonFound | server/routes/analyze.js:82-84 | No JSON is found exactly when no `{` comes before a `}` |
| Extraction.FencedAndBareAgree | server/routes/analyze.js:75-86 | An object without backquotes is extracted whole, whether it is the whole reply or sits in a `json` fenced block |
| ResponseParser.ParseNutritionResponse | server/routes/analyze.js:73-99 | "No JSON" happens exactly when extraction fails, and invalid JSON exactly when parsing fails. Once the text parses, the result is that object exactly when it has a truthy `foodName` and a truthy `nutrition`, and a missing food name is reported exactly when `foodName` is falsy. A missing nutrition error means the food name was present |
| ResponseParser.NoFoodNameRefused | server/routes/analyze.js:90-92 | A parsed object without a truthy food name is refused as missing one, whatever else it holds |
| ResponseParser.FencedAndBareParseAlike | server/routes/analyze.js:73-99 | An object without backquotes parses the same alone and fenced |
| Analyze.HandleAnthropicError | server/routes/analyze.js:102-136 | Statuses 429, 400 and 413 are kept; every other status becomes 500 |
| Analyze.UpstreamStatusTable | server/routes/analyze.js:102-136 | 429 gives 429 "overloaded", 401 gives 500 "configuration", 400 gives 400 "invalid request" and 413 gives 413 "too large". Any other status, or none, gives 500 "Failed to analyze" |
| Analyze.UpstreamMessageHidden | server/routes/analyze.js:102-136 | Two upstream errors with the same status get the same answer, so the upstream message never reaches the client |
| Analyze.CatchError | server/routes/analyze.js:253-260 | A thrown error is always answered with a non-200 status from the handler's set |
| Analyze.RespondToText | server/routes/analyze.js:237-252 | 500 "Failed to parse nutrition data" exactly when parsing fails. 400 carries the object's truthy `error`. 200 carries the object itself, which has a food name and nutrition and no truthy `error` |
| Analyze.Dispatch | server/routes/analyze.js:224-260 | A thrown call goes to the outer `catch`. A reply with no blocks is answered 500 "Failed to analyze", since reading its first block throws. A first block without text is answered 500 "Failed to parse nutrition data". A first block with text is answered from that text. Every answer has a known status, and a 200 body has a food name and nutrition and no error |
| Analyze.AnalyzeFood | server/routes/analyze.js:138-262 | An invalid body is answered 400 with the messages joined by "; ". A valid body is answered by dispatching the model's reply to that body's prompt. Every answer has one of the statuses 200, 400, 413, 429 or 500. A 200 body has a food name and nutrition and no error |
| Analyze.OverloadedAtHandler | server/routes/analyze.js:109-113 | A valid body whose model call throws with status 429 is answered 429 "overloaded", whatever the upstream message |
| Analyze.GoodReplyAnswered | server/routes/analyze.js:252 | A valid body whose reply starts with text holding an object with a truthy food name and nutrition and no truthy `error` is answered 200 with that object |
| Analyze.UnparsableReplyIs500 | server/routes/analyze.js:239-245 | A valid body whose first reply text has no JSON, or JSON that does not parse, is answered 500 "Failed to parse nutrition data" |
| Analyze.AnalyzeFoodAsWritten | server/routes/analyze.js:138-262 | The handler as written answers only with known statuses |
| Analyze.InvalidRequestNeverCallsModel | server/routes/analyze.js:141-146 | An invalid body gets the same 400 answer whatever the model and the parser would do |
| Analyze.ValidRequestAsksOnce | server/routes/analyze.js:224-235 | A valid body's answer depends on the model only through its reply to that body's prompt |
| Analyze.EmptyRequestMessage | server/routes/analyze.js:141-146 | A body with neither image nor food name is answered 400 "No image or food name provided" |
| Analyze.ErrorOnlyReplyIs500 | server/routes/analyze.js:239-245 | A reply object with an `error` and no food name is answered 500 "Failed to parse nutrition data" |
| Analyze.ReplyErrorPassedOn | server/routes/analyze.js:248-250 | The reply's `error` is passed on with 400 exactly when the object parsed and has a truthy food name, nutrition and error |
| Analyze.FencedAndBareAnswerAlike | server/routes/analyze.js:237-252 | A JSON object gets the same answer whether the model fences it in a `json` block or not |
| Analyze.AsWrittenDiffersOnFalsyAmount | server/routes/analyze.js:138-262 | The handler as written answers like the corrected one, except for a valid text request whose amount is `false` or `0`. That request it answers 500 "Failed to analyze", without calling the model |
| Analyze.ZeroAmountIs500 | server/routes/analyze.js:195 | `{foodName: "rice", amount: 0}` gets 500 "Failed to analyze" from the handler as written, whatever the model would say |

## Left out

- The SDK client and the network call: the lazy `getAnthropicClient` singleton and `messages.create`, with its model name and token limit. The call is a function parameter of the handler.
- The internals of `JSON.parse`. It is a function parameter, and the message of its syntax error is not modelled.
- Logging with `console.error`, which is output only. The messages of the parser's thrown errors therefore appear only as the `ParseError` constructors.
- The Express bootstrap in `server/index.js`, including CORS and the 10 MB JSON body limit. That limit rules out a string image over 13 MiB, but not an object with a large numeric `length`: `{"image": {"length": 20000000}, "mimeType": "image/png"}` is a tiny body that the handler reports as too large. The model checks the handler on its own.
- The React client and its hooks.
- Validation.PassesBase64Test: the model decides `String(image)` for values that are not strings by cases:
  - booleans print as letters;
  - a number passes when it is a non-negative integer;
  - an array prints as its elements joined by commas;
  - an object prints as `[object Object]`.
  An object with its own `toString` member has no text in the model (`Printed` gives none), and neither has a number of 10^21 or more, which JavaScript prints in exponent form.
- Validation.PassesBase64Test: the model passes every non-negative integer, including those of 10^21 and more. The source passes such a number only when its shortest form has one significant digit: `String(1e21)` is `"1e+21"` and passes, but `String(1.5e21)` is `"1.5e+21"`, whose `.` fails. So `{"image": 1.5e21, "mimeType": "image/png"}` is answered 400 "Invalid image data format" by the source, while the model finds no error and calls the model. The same holds for such a number inside a one-element array.
- JsValues.Printed: a number of the body holds any real, not only a double. `express.json` reads the body's numbers as doubles, and `String` prints the shortest text that reads back as that double, so `2^60` prints as `1152921504606847000` while `Printed` gives the exact value's digits. Below 10^21 that changes which digits print but not the data check's verdict, as long as the body's numbers are doubles, since an integer prints as digits either way. For a real that is not a double the verdict can differ: `Num(9007199254740992.5)` fails the check in the model, while the nearest double, 9007199254740992, passes in JavaScript.
- Validation.PassesBase64Test: a JSON object can carry a `toString` member, as in `{"image": {"toString": 1}}`. `String(image)` then throws a `TypeError`, so the source answers 500 "Failed to analyze", while the model reports 400 invalid image data because every object fails the data check.
- Validation.ExceedsImageLimit: an object's `length` member is compared only when it is a number. Coercing other members to a number is not modelled.
- JsValues.JsLength: Dafny characters are Unicode scalar values, so a string holding a lone surrogate cannot be represented.
- A body that is not an object. With `req.body` undefined, the destructuring at line 20 throws and the outer `catch` answers the generic 500 "Failed to analyze".
- A reply whose `content` is not a list of blocks. The model takes `content` as a list. A missing or null `content`, or an empty string, makes `content[0].text` throw at line 235, which ends in the generic 500 "Failed to analyze". A non-empty string such as `"abc"` gives `content[0].text` as undefined. `parseNutritionResponse(undefined)` then throws inside the inner `try` (line 240), and the answer is 500 "Failed to parse nutrition data". An object with a key `"0"` is read as if it were a list.
- `TypeError` messages are not modelled; the handler never shows them.

## Findings

| source | as written | input that shows it | evidently intended | confidence | as-written member | corrected member |
|---|---|---|---|---|---|---|
| server/routes/analyze.js:195 | `if (amount)` lets any falsy amount through. `amount?.trim()` then calls `trim` on `false` or `0`, which throws a `TypeError`. The outer `catch` answers 500 "Failed to analyze. Please try again." | body `{"foodName": "rice", "amount": 0}` | A falsy amount means one serving, as an absent or blank one does | not executed | Prompt.BuildPromptAsWritten, with Prompt.ZeroAmountThrows and Analyze.ZeroAmountIs500 | Prompt.BuildPrompt with Prompt.ServingAmount, used by Analyze.AnalyzeFood; see Prompt.AsWrittenThrowsOnFalsyAmount and Analyze.AsWrittenDiffersOnFalsyAmount |
