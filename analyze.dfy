/**
 * The request handler `analyzeFood`: validate the body, build the prompt,
 * call the model once, and turn its reply or its failure into the HTTP
 * response. The model is a function from the message content to what the
 * call yields, and `JSON.parse` a function from text to an object.
 */
module Analyze {
  import opened Results
  import opened JsValues
  import opened Validation
  import opened Prompt
  import opened Extraction
  import opened ResponseParser

  /** An HTTP response: its status code and its JSON body. */
  datatype Response = Response(status: int, body: Value)

  /** The body `{ error: message }`. */
  function ErrorBody(message: string): Value {
    Obj(map["error" := Str(message)])
  }

  const OverloadedMessage: string := "Service temporarily" + " overloaded." + " Please try again" + " in a moment."
  const ConfigurationMessage: string := "API configuration" + " error. Please" + " contact support."
  const InvalidRequestMessage: string := "Invalid request." + " Please check" + " your input."
  const TooLargeMessage: string := "Image too large." + " Please use a" + " smaller image."
  const AnalyzeFailedMessage: string := "Failed to analyze." + " Please try again."
  const ParseFailedMessage: string := "Failed to parse" + " nutrition data"

  /** The statuses the handler answers with. */
  predicate KnownStatus(status: int) {
    status == 200 || status == 400 || status == 413 || status == 429 || status == 500
  }

  /**
   * `handleAnthropicError`: rate limiting, a bad request and a too large
   * payload keep their status; a rejected key and anything else become 500.
   * Each answer carries a fixed message and never the upstream one.
   */
  function HandleAnthropicError(status: int): (r: Response)
    ensures KnownStatus(r.status) && r.status != 200
    ensures status == 429 || status == 400 || status == 413 ==> r.status == status
    ensures !(status == 429 || status == 400 || status == 413) ==> r.status == 500
  {
    if status == 429 then Response(429, ErrorBody(OverloadedMessage))
    else if status == 401 then Response(500, ErrorBody(ConfigurationMessage))
    else if status == 400 then Response(400, ErrorBody(InvalidRequestMessage))
    else if status == 413 then Response(413, ErrorBody(TooLargeMessage))
    else Response(500, ErrorBody(AnalyzeFailedMessage))
  }

  /** The outer `catch`: an error with a truthy `status` goes to the table, any other is a generic failure. */
  function CatchError(e: Thrown): (r: Response)
    ensures KnownStatus(r.status) && r.status != 200
  {
    if e.status.Some? && e.status.value != 0 then HandleAnthropicError(e.status.value)
    else Response(500, ErrorBody(AnalyzeFailedMessage))
  }

  /**
   * What the call to the model yields: an error it throws, or the blocks of
   * its reply, each with the text it carries when it is a text block.
   */
  datatype Upstream =
    | Raised(error: Thrown)
    | Replied(blocks: seq<Option<string>>)

  /**
   * The answer to the text of the reply: 500 when it cannot be parsed, 400
   * carrying the object's own `error` when that is truthy, and the object
   * itself with 200 otherwise.
   */
  function RespondToText(text: string, parse: JsonParser): (r: Response)
    ensures r.status == 200 || r.status == 400 || r.status == 500
    ensures r.status == 500 <==> ParseNutritionResponse(text, parse).Failure?
    ensures r.status == 500 ==> r.body == ErrorBody(ParseFailedMessage)
    ensures r.status == 400 ==>
      var data := ParseNutritionResponse(text, parse).value;
      Truthy(Get(data, "error")) && r.body == Obj(map["error" := Get(data, "error")])
    ensures r.status == 200 ==>
      var data := ParseNutritionResponse(text, parse).value;
      && !Truthy(Get(data, "error"))
      && Truthy(Get(data, "foodName")) && Truthy(Get(data, "nutrition"))
      && r.body == Obj(data)
  {
    match ParseNutritionResponse(text, parse)
    case Failure(_) => Response(500, ErrorBody(ParseFailedMessage))
    case Success(data) =>
      if Truthy(Get(data, "error")) then Response(400, Obj(map["error" := Get(data, "error")]))
      else Response(200, Obj(data))
  }

  /**
   * What follows the call: its error goes to the outer `catch`; a reply
   * with no first block throws there too (reading `.text` of `undefined`);
   * a first block without text makes the parser throw, answered as a parse
   * failure; otherwise its text is answered.
   */
  function Dispatch(reply: Upstream, parse: JsonParser): (r: Response)
    ensures KnownStatus(r.status)
    ensures reply.Raised? ==> r == CatchError(reply.error)
    ensures reply.Replied? && reply.blocks == [] ==> r == Response(500, ErrorBody(AnalyzeFailedMessage))
    ensures reply.Replied? && reply.blocks != [] && reply.blocks[0].None? ==>
      r == Response(500, ErrorBody(ParseFailedMessage))
    ensures reply.Replied? && reply.blocks != [] && reply.blocks[0].Some? ==>
      r == RespondToText(reply.blocks[0].value, parse)
    ensures r.status == 200 ==>
      r.body.Obj? && Truthy(Get(r.body.members, "foodName")) && Truthy(Get(r.body.members, "nutrition"))
      && !Truthy(Get(r.body.members, "error"))
  {
    match reply
    case Raised(e) => CatchError(e)
    case Replied(blocks) =>
      if |blocks| == 0 then CatchError(Thrown(None, "TypeError"))
      else
        match blocks[0]
        case None => Response(500, ErrorBody(ParseFailedMessage))
        case Some(text) => RespondToText(text, parse)
  }

  /** The body of the 400 answer to an invalid request: the messages joined by "; ". */
  function ValidationBody(errors: seq<InputError>): Value {
    ErrorBody(Join(Messages(errors), "; "))
  }

  /** `analyzeFood` with the prompt built as evidently intended. */
  function AnalyzeFood(b: Body, model: seq<ContentPart> -> Upstream, parse: JsonParser): (r: Response)
    ensures KnownStatus(r.status)
    ensures Errors(b) != [] ==> r == Response(400, ValidationBody(Errors(b)))
    ensures Errors(b) == [] ==> r == Dispatch(model(BuildPrompt(b)), parse)
    ensures r.status == 200 ==>
      r.body.Obj? && Truthy(Get(r.body.members, "foodName")) && Truthy(Get(r.body.members, "nutrition"))
      && !Truthy(Get(r.body.members, "error"))
  {
    if Errors(b) != [] then Response(400, ValidationBody(Errors(b)))
    else Dispatch(model(BuildPrompt(b)), parse)
  }

  /** `analyzeFood` as written, where building the prompt can throw on the amount. */
  function AnalyzeFoodAsWritten(b: Body, model: seq<ContentPart> -> Upstream, parse: JsonParser): (r: Response)
    ensures KnownStatus(r.status)
  {
    if Errors(b) != [] then Response(400, ValidationBody(Errors(b)))
    else
      match BuildPromptAsWritten(b)
      case Failure(e) => CatchError(e)
      case Success(content) => Dispatch(model(content), parse)
  }

  // ----- Properties of the handler -----

  /** An invalid request is answered before, and whatever, the model would say. */
  lemma InvalidRequestNeverCallsModel(b: Body, m1: seq<ContentPart> -> Upstream, m2: seq<ContentPart> -> Upstream,
                                      p1: JsonParser, p2: JsonParser)
    requires Errors(b) != []
    ensures AnalyzeFood(b, m1, p1) == AnalyzeFood(b, m2, p2)
    ensures AnalyzeFood(b, m1, p1).status == 400
  {
  }

  /** A valid request's answer depends on the model only through its reply to this request's prompt. */
  lemma ValidRequestAsksOnce(b: Body, m1: seq<ContentPart> -> Upstream, m2: seq<ContentPart> -> Upstream, parse: JsonParser)
    requires Errors(b) == []
    requires m1(BuildPrompt(b)) == m2(BuildPrompt(b))
    ensures AnalyzeFood(b, m1, parse) == AnalyzeFood(b, m2, parse)
  {
  }

  /** An empty request is refused with the one message that says nothing was sent. */
  lemma EmptyRequestMessage(b: Body, model: seq<ContentPart> -> Upstream, parse: JsonParser)
    requires !Truthy(b.image) && !Truthy(b.foodName)
    ensures AnalyzeFood(b, model, parse) == Response(400, ErrorBody(NoInput.Message()))
  {
    NoInputIsAlone(b);
  }

  /** The status table of upstream errors, and the generic failure for an error without a status. */
  lemma UpstreamStatusTable(e: Thrown)
    ensures e.status == Some(429) ==> CatchError(e) == Response(429, ErrorBody(OverloadedMessage))
    ensures e.status == Some(401) ==> CatchError(e) == Response(500, ErrorBody(ConfigurationMessage))
    ensures e.status == Some(400) ==> CatchError(e) == Response(400, ErrorBody(InvalidRequestMessage))
    ensures e.status == Some(413) ==> CatchError(e) == Response(413, ErrorBody(TooLargeMessage))
    ensures (e.status.None? || e.status.value !in {429, 401, 400, 413}) ==>
      CatchError(e) == Response(500, ErrorBody(AnalyzeFailedMessage))
  {
  }

  /** The upstream message never reaches the client: errors with the same status get the same answer. */
  lemma UpstreamMessageHidden(e1: Thrown, e2: Thrown)
    requires e1.status == e2.status
    ensures CatchError(e1) == CatchError(e2)
  {
  }

  /**
   * A reply whose object carries an `error` but no food name, as the
   * instruction asks for a picture that is not food, is answered as a parse
   * failure with 500, not with its error.
   */
  lemma ErrorOnlyReplyIs500(text: string, parse: JsonParser, json: string, data: map<string, Value>)
    requires ExtractJson(text) == Some(json) && parse(json) == Some(data)
    requires Truthy(Get(data, "error")) && !Truthy(Get(data, "foodName"))
    ensures RespondToText(text, parse) == Response(500, ErrorBody(ParseFailedMessage))
  {
    NoFoodNameRefused(text, parse, json, data);
  }

  /** A reply's own `error` is passed on with 400 only when the object also has a food name and nutrition. */
  lemma ReplyErrorPassedOn(text: string, parse: JsonParser)
    ensures RespondToText(text, parse).status == 400 <==>
      && ParseNutritionResponse(text, parse).Success?
      && Truthy(Get(ParseNutritionResponse(text, parse).value, "foodName"))
      && Truthy(Get(ParseNutritionResponse(text, parse).value, "nutrition"))
      && Truthy(Get(ParseNutritionResponse(text, parse).value, "error"))
  {
  }

  /** A JSON object answers the same whether the model fences it in a `json` block or not. */
  lemma FencedAndBareAnswerAlike(j: string, parse: JsonParser)
    requires |j| >= 2 && j[0] == '{' && j[|j| - 1] == '}'
    requires forall k :: 0 <= k < |j| ==> j[k] != '`'
    ensures RespondToText(Fence + JsonTag + "\n" + j + "\n" + Fence, parse) == RespondToText(j, parse)
  {
    FencedAndBareParseAlike(j, parse);
  }

  /**
   * The handler as written answers like the corrected one except for a
   * valid text request whose amount is `false` or `0`, which it answers
   * with the generic 500 without calling the model.
   */
  lemma AsWrittenDiffersOnFalsyAmount(b: Body, model: seq<ContentPart> -> Upstream, parse: JsonParser)
    ensures (Errors(b) == [] && !Truthy(b.image) && (b.amount == Bool(false) || b.amount == Num(0.0))) ==>
      AnalyzeFoodAsWritten(b, model, parse) == Response(500, ErrorBody(AnalyzeFailedMessage))
    ensures !(Errors(b) == [] && !Truthy(b.image) && (b.amount == Bool(false) || b.amount == Num(0.0))) ==>
      AnalyzeFoodAsWritten(b, model, parse) == AnalyzeFood(b, model, parse)
  {
    if Errors(b) == [] {
      AsWrittenThrowsOnFalsyAmount(b);
    }
  }

  /** An overloaded model is reported as such to the client. */
  lemma OverloadedAtHandler(b: Body, model: seq<ContentPart> -> Upstream, parse: JsonParser, message: string)
    requires Errors(b) == [] && model(BuildPrompt(b)) == Raised(Thrown(Some(429), message))
    ensures AnalyzeFood(b, model, parse) == Response(429, ErrorBody(OverloadedMessage))
  {
    OverloadedReply(message, parse);
  }

  /** The call failing with 429 is answered 429 with the fixed message. */
  lemma OverloadedReply(message: string, parse: JsonParser)
    ensures Dispatch(Raised(Thrown(Some(429), message)), parse) == Response(429, ErrorBody(OverloadedMessage))
  {
  }

  /**
   * A good reply goes through unchanged: when the first block's JSON parses
   * to an object with a food name and nutrition and no error, the client
   * gets exactly that object with 200.
   */
  lemma GoodReplyAnswered(b: Body, model: seq<ContentPart> -> Upstream, parse: JsonParser,
                          text: string, rest: seq<Option<string>>, json: string, data: map<string, Value>)
    requires Errors(b) == [] && model(BuildPrompt(b)) == Replied([Some(text)] + rest)
    requires ExtractJson(text) == Some(json) && parse(json) == Some(data)
    requires Truthy(Get(data, "foodName")) && Truthy(Get(data, "nutrition")) && !Truthy(Get(data, "error"))
    ensures AnalyzeFood(b, model, parse) == Response(200, Obj(data))
  {
    GoodReply(text, rest, parse, json, data);
  }

  /** A reply whose first block holds a good object is answered with that object. */
  lemma GoodReply(text: string, rest: seq<Option<string>>, parse: JsonParser, json: string, data: map<string, Value>)
    requires ExtractJson(text) == Some(json) && parse(json) == Some(data)
    requires Truthy(Get(data, "foodName")) && Truthy(Get(data, "nutrition")) && !Truthy(Get(data, "error"))
    ensures Dispatch(Replied([Some(text)] + rest), parse) == Response(200, Obj(data))
  {
    assert ParseNutritionResponse(text, parse) == Success(data);
  }

  /** A reply whose JSON does not parse is answered as a parse failure. */
  lemma UnparsableReplyIs500(b: Body, model: seq<ContentPart> -> Upstream, parse: JsonParser,
                             text: string, rest: seq<Option<string>>)
    requires Errors(b) == [] && model(BuildPrompt(b)) == Replied([Some(text)] + rest)
    requires ExtractJson(text).None? || parse(ExtractJson(text).value).None?
    ensures AnalyzeFood(b, model, parse) == Response(500, ErrorBody(ParseFailedMessage))
  {
    UnparsableReply(text, rest, parse);
  }

  /** A reply whose first block holds no JSON that parses is answered 500. */
  lemma UnparsableReply(text: string, rest: seq<Option<string>>, parse: JsonParser)
    requires ExtractJson(text).None? || parse(ExtractJson(text).value).None?
    ensures Dispatch(Replied([Some(text)] + rest), parse) == Response(500, ErrorBody(ParseFailedMessage))
  {
  }

  /** `{ foodName: "rice", amount: 0 }` is answered 500 by the handler as written, whatever the model would say. */
  lemma ZeroAmountIs500(model: seq<ContentPart> -> Upstream, parse: JsonParser)
    ensures AnalyzeFoodAsWritten(Body(Undefined, Undefined, Str("rice"), Num(0.0)), model, parse)
            == Response(500, ErrorBody(AnalyzeFailedMessage))
  {
    RiceAccepted();
    AsWrittenDiffersOnFalsyAmount(Body(Undefined, Undefined, Str("rice"), Num(0.0)), model, parse);
  }
}
