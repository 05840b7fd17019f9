/**
 * Turning the model's reply into nutrition data: extract the JSON text,
 * parse it, and insist on a food name and a nutrition object.
 */
module ResponseParser {
  import opened Results
  import opened JsValues
  import opened Extraction

  /**
   * `JSON.parse` on a text that starts with `{` and ends with `}`: the
   * members of the object, or `None` when the text is not valid JSON.
   */
  type JsonParser = string -> Option<map<string, Value>>

  /**
   * Why a reply was refused; each is an `Error` thrown by the parser, whose
   * message is only logged: no JSON found, `JSON.parse` failing, no food
   * name, no nutrition data.
   */
  datatype ParseError = NoJsonFound | InvalidJson | MissingFoodName | MissingNutrition

  /**
   * `parseNutritionResponse`: the parsed object when the reply holds JSON
   * that parses and has a truthy `foodName` and a truthy `nutrition`; the
   * first failing step otherwise.
   */
  function ParseNutritionResponse(content: string, parse: JsonParser): (r: Result<map<string, Value>, ParseError>)
    ensures r.Success? ==> Truthy(Get(r.value, "foodName")) && Truthy(Get(r.value, "nutrition"))
    ensures r.Success? ==> ExtractJson(content).Some? && parse(ExtractJson(content).value) == Some(r.value)
    ensures r == Failure(NoJsonFound) <==> ExtractJson(content).None?
    ensures r == Failure(InvalidJson) <==> ExtractJson(content).Some? && parse(ExtractJson(content).value).None?
    ensures r == Failure(MissingNutrition) ==>
      var data := parse(ExtractJson(content).value).value;
      Truthy(Get(data, "foodName")) && !Truthy(Get(data, "nutrition"))
    ensures ExtractJson(content).Some? && parse(ExtractJson(content).value).Some? ==>
      var data := parse(ExtractJson(content).value).value;
      && (r == Success(data) <==> Truthy(Get(data, "foodName")) && Truthy(Get(data, "nutrition")))
      && (r == Failure(MissingFoodName) <==> !Truthy(Get(data, "foodName")))
  {
    match ExtractJson(content)
    case None => Failure(NoJsonFound)
    case Some(text) =>
      match parse(text)
      case None => Failure(InvalidJson)
      case Some(data) =>
        if !Truthy(Get(data, "foodName")) then Failure(MissingFoodName)
        else if !Truthy(Get(data, "nutrition")) then Failure(MissingNutrition)
        else Success(data)
  }

  /**
   * Whatever else it says, a reply whose object has no food name is refused
   * as missing one; in particular the "not food" reply `{"error": ...}`.
   */
  lemma NoFoodNameRefused(content: string, parse: JsonParser, text: string, data: map<string, Value>)
    requires ExtractJson(content) == Some(text) && parse(text) == Some(data)
    requires !Truthy(Get(data, "foodName"))
    ensures ParseNutritionResponse(content, parse) == Failure(MissingFoodName)
  {
  }

  /** An object with no backquote in it parses alike alone and in a `json` fenced block. */
  lemma FencedAndBareParseAlike(j: string, parse: JsonParser)
    requires |j| >= 2 && j[0] == '{' && j[|j| - 1] == '}'
    requires forall k :: 0 <= k < |j| ==> j[k] != '`'
    ensures ParseNutritionResponse(Fence + JsonTag + "\n" + j + "\n" + Fence, parse) == ParseNutritionResponse(j, parse)
  {
    FencedAndBareAgree(j);
  }
}
