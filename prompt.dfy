/**
 * The prompt builder: once a body has passed validation it becomes the
 * content of the one user message sent to the model, either an image
 * followed by a fixed instruction or a single instruction naming the food.
 */
module Prompt {
  import opened Results
  import opened JsValues
  import opened Validation

  /** One entry of the message content. */
  datatype ContentPart =
    /** `{ type: 'image', source: { type: 'base64', media_type, data } }` */
    | ImagePart(mediaType: string, data: Value)
    /** `{ type: 'text', text }` */
    | TextPart(text: string)

  /** The quantity assumed when the body gives none. */
  const DefaultAmount: string := "1 serving"

  // The template texts are kept in short pieces, which the verifier handles
  // far more cheaply than long literals.

  /** The request for a bare JSON reply, and the brace that opens the format. */
  const JsonFormatIntro: string :=
    "Please respond" + " in the" + " following JSON" + " format only," + " with no" +
    " additional" + " text:\n{\n"

  /** The line of the format that asks for a description. */
  const DescriptionField: string :=
    "  \"description\":" + " \"Brief" + " description of" + " the dish and" + " its typical" +
    " ingredients\",\n"

  /** The nutrition and confidence lines of the format, and its closing brace. */
  const NutritionFields: string :=
    "  \"nutrition\": {" + "\n    \"calories\":" + " <number>," + "\n    \"protein\":" +
    " <number in" + " grams>," + "\n    \"carbohydrates\":" + " <number in" + " grams>," +
    "\n    \"fat\":" + " <number in" + " grams>," + "\n    \"fiber\":" + " <number in" +
    " grams>\n  }," + "\n  \"confidence\":" + " \"high/medium/low\"" + "\n}\n"

  /** The instruction to keep the description to the dish itself. */
  const RegionNote: string :=
    "Important: In" + " the" + " description," + " only describe" + " the dish and" + " its" +
    " ingredients. Do" + " NOT mention or" + " comment on what" + " cuisine or" +
    " region the dish" + " is from.\n"

  /** The first sentence of the image instruction. */
  const ImageOpening: string :=
    "Analyze this" + " image of food" + " and provide" + " nutrition" + " information.\n\n"

  /** The name line of the image format. */
  const ImageNameField: string :=
    "  \"foodName\":" + " \"Name of the" + " dish\",\n"

  /** The serving line of the image format. */
  const ImageServingField: string :=
    "  \"servingSize\":" + " \"Estimated" + " serving size" + " shown\",\n"

  /** The reply asked for when the image shows no food. */
  const NotFoodFallback: string :=
    "\nIf this is not" + " food at all," + " respond with:\n{" + "\n  \"error\":" +
    " \"Please upload" + " an image of" + " food\"\n}\n\n"

  /** The last sentence of the image instruction. */
  const ImageClosing: string :=
    "\nProvide your" + " best estimates" + " for a typical" + " serving of this" + " dish."

  /** The last sentence of the text instruction. */
  const TextClosing: string :=
    "\nMake sure the" + " nutrition" + " values are" + " scaled" + " appropriately" +
    " for the" + " specified" + " quantity."

  /** The text instruction up to the quoted food name. */
  const LeadOpen: string :=
    "Provide" + " nutrition" + " information" + " for: \""

  /** Between the quoted food name and the quoted quantity. */
  const LeadMid: string :=
    "\" with quantity:" + " \""

  /** After the quoted quantity. */
  const LeadClose: string := "\".\n\n"

  /** The instruction that accompanies an image. */
  const ImageInstruction: string :=
    ImageOpening + JsonFormatIntro + ImageNameField + DescriptionField + ImageServingField
    + NutritionFields + NotFoodFallback + RegionNote + ImageClosing

  /** The opening sentence of the text instruction, which quotes the food and the quantity. */
  function TextLead(name: string, amount: string): string {
    LeadOpen + name + LeadMid + amount + LeadClose
  }

  /** What follows the opening sentence: the reply format, with the name and quantity filled in. */
  function TextFormat(name: string, amount: string): string {
    JsonFormatIntro
    + "  \"foodName\": \"" + name + "\",\n"
    + DescriptionField
    + "  \"servingSize\": \"" + amount + "\",\n"
    + NutritionFields
    + "\n"
    + RegionNote
    + TextClosing
  }

  /** The instruction for a food given by name, with the name and quantity interpolated verbatim. */
  function TextInstruction(name: string, amount: string): string {
    TextLead(name, amount) + TextFormat(name, amount)
  }

  /**
   * The quantity put in the text instruction: the trimmed amount, or one
   * serving when the amount is missing, blank or any other falsy value.
   */
  function ServingAmount(amount: Value): (a: string)
    ensures a != [] && !IsSpace(a[0]) && !IsSpace(a[|a| - 1])
    ensures (amount.Str? && exists k :: 0 <= k < |amount.s| && !IsSpace(amount.s[k])) ==> a == Trim(amount.s)
    ensures !(amount.Str? && exists k :: 0 <= k < |amount.s| && !IsSpace(amount.s[k])) ==> a == DefaultAmount
  {
    if amount.Str? && Trim(amount.s) != "" then Trim(amount.s)
    else
      assert amount.Str? ==> (TrimEmpty(amount.s); forall k :: 0 <= k < |amount.s| ==> IsSpace(amount.s[k]));
      DefaultAmount
  }

  /** What a valid body offers the builder: an allowed image type, or else a food name that is not blank. */
  lemma ValidShape(b: Body)
    requires Errors(b) == []
    ensures Truthy(b.image) ==> b.mimeType.Str? && b.mimeType.s in AllowedMimeTypes
    ensures !Truthy(b.image) ==> b.foodName.Str? && Trim(b.foodName.s) != []
  {
    NoErrorsIffAccepted(b);
    if !Truthy(b.image) {
      TrimEmpty(b.foodName.s);
    }
  }

  /**
   * The content built for a valid body. An image, when present, wins over a
   * food name: the payload is the image with its declared type followed by
   * the fixed instruction. Otherwise it is one text part naming the trimmed
   * food name and the serving amount.
   */
  function BuildPrompt(b: Body): (p: seq<ContentPart>)
    requires Errors(b) == []
    ensures |p| == (if Truthy(b.image) then 2 else 1)
    ensures p[|p| - 1].TextPart? && forall i :: 0 <= i < |p| - 1 ==> p[i].ImagePart?
    ensures Truthy(b.image) ==>
      && p[0] == ImagePart(b.mimeType.s, b.image)
      && b.mimeType.s in AllowedMimeTypes
      && p[1].text == ImageInstruction
    ensures !Truthy(b.image) ==>
      && b.foodName.Str?
      && Trim(b.foodName.s) != []
      && p[0].text == TextInstruction(Trim(b.foodName.s), ServingAmount(b.amount))
  {
    ValidShape(b);
    if Truthy(b.image) then
      [ImagePart(b.mimeType.s, b.image), TextPart(ImageInstruction)]
    else
      [TextPart(TextInstruction(Trim(b.foodName.s), ServingAmount(b.amount)))]
  }

  /** With an image present, the food name and amount play no part in the payload. */
  lemma ImageIgnoresFoodName(b: Body, foodName: Value, amount: Value)
    requires Errors(b) == [] && Truthy(b.image)
    requires Errors(b.(foodName := foodName, amount := amount)) == []
    ensures BuildPrompt(b) == BuildPrompt(b.(foodName := foodName, amount := amount))
  {
  }

  /**
   * Without an image, the payload depends only on the trimmed food name and
   * the serving amount: names that differ in surrounding spaces, or amounts
   * that are all missing or blank, give the same payload.
   */
  lemma TextDependsOnSanitizedInput(b1: Body, b2: Body)
    requires Errors(b1) == [] && Errors(b2) == []
    requires !Truthy(b1.image) && !Truthy(b2.image)
    requires Trim(b1.foodName.s) == Trim(b2.foodName.s)
    requires ServingAmount(b1.amount) == ServingAmount(b2.amount)
    ensures BuildPrompt(b1) == BuildPrompt(b2)
  {
    TextOnly(b1);
    TextOnly(b2);
  }

  /** Without an image the payload is the one text instruction. */
  lemma TextOnly(b: Body)
    requires Errors(b) == [] && !Truthy(b.image)
    ensures BuildPrompt(b) == [TextPart(TextInstruction(Trim(b.foodName.s), ServingAmount(b.amount)))]
  {
    var p := BuildPrompt(b);
    assert p == [p[0]];
  }

  /** The text instruction opens by quoting the food name and the quantity as given. */
  lemma TextInstructionQuotes(name: string, amount: string)
    ensures TextInstruction(name, amount)[..|TextLead(name, amount)|] == TextLead(name, amount)
    ensures TextLead(name, amount)[|LeadOpen|..|LeadOpen| + |name|] == name
    ensures TextLead(name, amount)[|LeadOpen| + |name| + |LeadMid|..|LeadOpen| + |name| + |LeadMid| + |amount|] == amount
  {
    var lead := TextLead(name, amount);
    var i := |LeadOpen| + |name| + |LeadMid|;
    assert lead == (LeadOpen + name + LeadMid) + amount + LeadClose;
    assert lead[i..i + |amount|] == amount;
  }

  // ----- The amount as the code reads it -----

  /**
   * `amount?.trim() || '1 serving'` as written: optional chaining skips only
   * `null` and `undefined`, so on `false` or `0`, which pass validation as
   * falsy, `.trim` is undefined and calling it throws a TypeError.
   */
  function ServingAmountAsWritten(amount: Value): (r: Result<string, Thrown>)
    ensures r.Failure? <==> !(amount.Undefined? || amount.Null? || amount.Str?)
    ensures r.Failure? ==> r.error.status.None?
  {
    match amount
    case Undefined => Success(DefaultAmount)
    case Null => Success(DefaultAmount)
    case Str(s) => Success(if Trim(s) == "" then DefaultAmount else Trim(s))
    case _ => Failure(Thrown(None, "TypeError"))
  }

  /** The payload as the handler builds it, including the TypeError of the amount. */
  function BuildPromptAsWritten(b: Body): (r: Result<seq<ContentPart>, Thrown>)
    requires Errors(b) == []
    ensures r.Failure? ==> !Truthy(b.image) && r.error.status.None?
    ensures r.Success? ==> |r.value| == (if Truthy(b.image) then 2 else 1) && r.value[|r.value| - 1].TextPart?
  {
    NoErrorsIffAccepted(b);
    if Truthy(b.image) then
      Success([ImagePart(b.mimeType.s, b.image), TextPart(ImageInstruction)])
    else
      match ServingAmountAsWritten(b.amount)
      case Failure(e) => Failure(e)
      case Success(a) => Success([TextPart(TextInstruction(Trim(b.foodName.s), a))])
  }

  /**
   * The handler as written throws for a valid body exactly when it has no
   * image and its amount is `false` or `0`; otherwise it builds the same
   * payload as the corrected builder.
   */
  lemma AsWrittenThrowsOnFalsyAmount(b: Body)
    requires Errors(b) == []
    ensures BuildPromptAsWritten(b).Failure? <==> !Truthy(b.image) && (b.amount == Bool(false) || b.amount == Num(0.0))
    ensures BuildPromptAsWritten(b).Success? ==> BuildPromptAsWritten(b).value == BuildPrompt(b)
  {
    NoErrorsIffAccepted(b);
    if !Truthy(b.image) {
      AmountAsWritten(b.amount);
      TextOnly(b);
    }
  }

  /** On an amount that passed validation, the amount as written throws exactly for `false` and `0`, and otherwise agrees. */
  lemma AmountAsWritten(amount: Value)
    requires Truthy(amount) ==> amount.Str?
    ensures ServingAmountAsWritten(amount).Failure? <==> amount == Bool(false) || amount == Num(0.0)
    ensures ServingAmountAsWritten(amount).Success? ==> ServingAmountAsWritten(amount).value == ServingAmount(amount)
  {
    if amount.Str? {
      StringAmountAsWritten(amount.s);
    }
  }

  /** On a string, the amount as written and the corrected one agree. */
  lemma StringAmountAsWritten(s: string)
    ensures ServingAmountAsWritten(Str(s)) == Success(ServingAmount(Str(s)))
  {
    if Trim(s) == [] {
      TrimEmpty(s);
    }
  }

  /** `{ foodName: "rice", amount: 0 }` passes validation, yet the handler as written throws building its prompt. */
  lemma ZeroAmountThrows()
    ensures Errors(Body(Undefined, Undefined, Str("rice"), Num(0.0))) == []
    ensures BuildPromptAsWritten(Body(Undefined, Undefined, Str("rice"), Num(0.0))).Failure?
    ensures ServingAmount(Num(0.0)) == DefaultAmount
  {
    RiceAccepted();
    AsWrittenThrowsOnFalsyAmount(Body(Undefined, Undefined, Str("rice"), Num(0.0)));
  }

  lemma RiceAccepted()
    ensures Errors(Body(Undefined, Undefined, Str("rice"), Num(0.0))) == []
  {
    var b := Body(Undefined, Undefined, Str("rice"), Num(0.0));
    assert JsLength("rice") == 4;
    assert !IsSpace("rice"[0]);
    assert Accepted(b);
    NoErrorsIffAccepted(b);
  }
}
