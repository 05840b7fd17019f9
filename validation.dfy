/**
 * The input validator of the analyze endpoint: it reads `image`, `mimeType`,
 * `foodName` and `amount` from the request body and collects every problem
 * it finds, in a fixed order, before anything is sent to the language model.
 */
module Validation {
  import opened JsValues

  /** The media types an uploaded image may declare. */
  const AllowedMimeTypes: seq<string> := ["image/jpeg", "image/png", "image/webp", "image/gif"]

  /** The longest base64 text accepted: about 10 MiB of image once decoded. */
  const MaxImageLength: nat := 13 * 1024 * 1024

  /** The longest food name accepted, in UTF-16 code units. */
  const MaxFoodNameLength: nat := 200

  /** The longest amount accepted, in UTF-16 code units. */
  const MaxAmountLength: nat := 100

  /** The four members of the request body the handler reads; an absent one is `Undefined`. */
  datatype Body = Body(image: Value, mimeType: Value, foodName: Value, amount: Value)

  /** One problem the validator reports, in the order its checks run. */
  datatype InputError =
    | NoInput
    | BadMimeType
    | BadImageData
    | ImageTooLarge
    | FoodNameNotString
    | FoodNameTooLong
    | FoodNameEmpty
    | AmountNotString
    | AmountTooLong
  {
    /** The text pushed onto the error list. */
    function Message(): string {
      match this
      case NoInput => "No image or food name provided"
      case BadMimeType => "Invalid image type. Allowed: " + Join(AllowedMimeTypes, ", ")
      case BadImageData => "Invalid image data format"
      case ImageTooLarge => "Image too large (max 10MB)"
      case FoodNameNotString => "Food name must be a string"
      case FoodNameTooLong => "Food name too long (max 200 characters)"
      case FoodNameEmpty => "Food name cannot be empty"
      case AmountNotString => "Amount must be a string"
      case AmountTooLong => "Amount too long (max 100 characters)"
    }

    /** The position of the check that reports this error among all the checks. */
    function Rank(): nat {
      match this
      case NoInput => 0
      case BadMimeType => 1
      case BadImageData => 2
      case ImageTooLarge => 3
      case FoodNameNotString => 4
      case FoodNameTooLong => 5
      case FoodNameEmpty => 6
      case AmountNotString => 7
      case AmountTooLong => 8
    }

    predicate OnImage() {
      BadMimeType? || BadImageData? || ImageTooLarge?
    }

    predicate OnFoodName() {
      FoodNameNotString? || FoodNameTooLong? || FoodNameEmpty?
    }

    predicate OnAmount() {
      AmountNotString? || AmountTooLong?
    }
  }

  /** What the validator returns: `{ valid, errors }`. */
  datatype Validation = Validation(valid: bool, errors: seq<InputError>)

  /**
   * `mimeType` is present and one of the allowed types. `includes` compares
   * with SameValueZero, so only a string can be found in the list.
   */
  predicate MimeTypeAccepted(v: Value)
  {
    Truthy(v) && v.Str? && v.s in AllowedMimeTypes
  }

  /** Exactly the four listed strings are accepted, all of them `image/` types. */
  lemma MimeTypeListed(v: Value)
    ensures MimeTypeAccepted(v) <==> exists t :: t in AllowedMimeTypes && v == Str(t)
    ensures MimeTypeAccepted(v) ==> |v.s| > 6 && v.s[..6] == "image/"
  {
  }

  /** A character of the class `[A-Za-z0-9+/=]`. */
  predicate IsBase64Char(c: char) {
    ('A' <= c <= 'Z') || ('a' <= c <= 'z') || ('0' <= c <= '9') || c == '+' || c == '/' || c == '='
  }

  /** `/^[A-Za-z0-9+/=]+$/` on a string: at least one character, all of them from the class. */
  predicate MatchesBase64(s: string) {
    |s| > 0 && forall i :: 0 <= i < |s| ==> IsBase64Char(s[i])
  }

  /**
   * The base64 test on `image`. `RegExp.prototype.test` reads its argument
   * through `String(image)`: `true` and `false` print as letters, a number
   * passes when it prints as digits only (a non-negative integer), an array
   * prints as its elements joined by commas (so only a one-element array can
   * pass, and `null` inside it prints as nothing), and an object prints as
   * `[object Object]`.
   */
  predicate PassesBase64Test(v: Value): (ok: bool)
    ensures v.Obj? ==> !ok
    ensures v.Arr? && |v.items| != 1 ==> !ok
    decreases v
  {
    match v
    case Undefined => true
    case Null => true
    case Bool(_) => true
    case Num(n) => 0.0 <= n && n.Floor as real == n
    case Str(s) => MatchesBase64(s)
    case Arr(items) =>
      |items| == 1 && !items[0].Null? && !items[0].Undefined? && PassesBase64Test(items[0])
    case Obj(_) => false
  }

  /**
   * `image.length > 13 * 1024 * 1024`. A string's length counts code units,
   * an array's its elements; an object has a length only if it has a numeric
   * `length` member, and for other values the comparison with `undefined` is false.
   */
  predicate ExceedsImageLimit(v: Value): (big: bool)
    ensures big ==> v.Str? || v.Arr? || v.Obj?
    ensures v.Str? && |v.s| > MaxImageLength ==> big
    ensures v.Str? && 2 * |v.s| <= MaxImageLength ==> !big
  {
    match v
    case Str(s) => JsLength(s) > MaxImageLength
    case Arr(items) => |items| > MaxImageLength
    case Obj(m) => Get(m, "length").Num? && Get(m, "length").n > MaxImageLength as real
    case _ => false
  }

  /**
   * The data check reads the image through `String(image)`: wherever the
   * text that prints is known, the check passes exactly when that text
   * matches `/^[A-Za-z0-9+/=]+$/`.
   */
  lemma {:induction false} Base64TestOnPrinted(v: Value)
    requires Printed(v).Some?
    ensures PassesBase64Test(v) <==> MatchesBase64(Printed(v).value)
    decreases v, 1
  {
    match v
    case Undefined => WordsPass();
    case Null => WordsPass();
    case Bool(_) => WordsPass();
    case Num(n) => NumberTestOnPrinted(n);
    case Str(_) =>
    case Obj(m) => ObjectTestOnPrinted(m);
    case Arr(items) => ArrayTestOnPrinted(items);
  }

  /** A number passes exactly when it prints without a minus sign. */
  lemma NumberTestOnPrinted(n: real)
    requires Printed(Num(n)).Some?
    ensures PassesBase64Test(Num(n)) <==> MatchesBase64(Printed(Num(n)).value)
  {
    if n < 0.0 {
      assert Printed(Num(n)).value[0] == '-';
    }
  }

  /** `[object Object]` holds brackets and a space, so no object passes. */
  lemma ObjectTestOnPrinted(m: map<string, Value>)
    requires Printed(Obj(m)).Some?
    ensures !MatchesBase64(Printed(Obj(m)).value)
  {
    assert Printed(Obj(m)).value[0] == '[';
  }

  /** An array passes exactly when it has one element that prints as base64 text. */
  lemma {:induction false} ArrayTestOnPrinted(items: seq<Value>)
    requires Printed(Arr(items)).Some?
    ensures PassesBase64Test(Arr(items)) <==> MatchesBase64(Printed(Arr(items)).value)
    decreases Arr(items), 0
  {
    var parts := PrintedItems(items).value;
    assert Printed(Arr(items)).value == Join(parts, ",");
    if |items| == 1 {
      assert Join(parts, ",") == parts[0];
      if !items[0].Null? && !items[0].Undefined? {
        Base64TestOnPrinted(items[0]);
      }
    } else if |items| > 1 {
      assert Join(parts, ",")[|parts[0]|] == ',';
    }
  }

  /** The words `String` prints for `undefined`, `null`, `true` and `false` are base64 text. */
  lemma WordsPass()
    ensures MatchesBase64("undefined") && MatchesBase64("null")
    ensures MatchesBase64("true") && MatchesBase64("false")
  {
    assert forall i :: 0 <= i < 9 ==> IsBase64Char("undefined"[i]);
    assert forall i :: 0 <= i < 4 ==> IsBase64Char("null"[i]);
    assert forall i :: 0 <= i < 4 ==> IsBase64Char("true"[i]);
    assert forall i :: 0 <= i < 5 ==> IsBase64Char("false"[i]);
  }

  /** The three image checks; each adds its error independently of the others. */
  function ImageErrors(b: Body): seq<InputError> {
    (if MimeTypeAccepted(b.mimeType) then [] else [BadMimeType])
    + (if PassesBase64Test(b.image) then [] else [BadImageData])
    + (if ExceedsImageLimit(b.image) then [ImageTooLarge] else [])
  }

  /** The food name checks, tried in turn until one fails. */
  function FoodNameErrors(v: Value): seq<InputError> {
    if !Truthy(v) then []
    else if !v.Str? then [FoodNameNotString]
    else if JsLength(v.s) > MaxFoodNameLength then [FoodNameTooLong]
    else if JsLength(Trim(v.s)) == 0 then [FoodNameEmpty]
    else []
  }

  /** The amount checks, tried in turn until one fails. */
  function AmountErrors(v: Value): seq<InputError> {
    if !Truthy(v) then []
    else if !v.Str? then [AmountNotString]
    else if JsLength(v.s) > MaxAmountLength then [AmountTooLong]
    else []
  }

  /** The errors the validator collects for a body, in the order it collects them. */
  function Errors(b: Body): (r: seq<InputError>)
    ensures |r| <= 5
    ensures !Truthy(b.image) && !Truthy(b.foodName) ==> r != []
  {
    if !Truthy(b.image) && !Truthy(b.foodName) then [NoInput]
    else
      (if Truthy(b.image) then ImageErrors(b) else [])
      + FoodNameErrors(b.foodName)
      + AmountErrors(b.amount)
  }

  /** `join` of four parts, written out. */
  lemma JoinOfFour(a: string, b: string, c: string, d: string, sep: string)
    ensures Join([a, b, c, d], sep) == a + sep + b + sep + c + sep + d
  {
    JoinOne(a, sep);
    JoinAppend([a], b, sep);
    assert [a] + [b] == [a, b];
    JoinAppend([a, b], c, sep);
    assert [a, b] + [c] == [a, b, c];
    JoinAppend([a, b, c], d, sep);
    assert [a, b, c] + [d] == [a, b, c, d];
  }

  /** The MIME error lists the allowed types in their declared order, separated by ", ". */
  lemma AllowedListJoined()
    ensures Join(AllowedMimeTypes, ", ") == "image/jpeg" + ", " + "image/png" + ", " + "image/webp" + ", " + "image/gif"
  {
    JoinOfFour("image/jpeg", "image/png", "image/webp", "image/gif", ", ");
  }

  /** The messages of a list of errors, in order. */
  function Messages(errors: seq<InputError>): (r: seq<string>)
    ensures |r| == |errors|
    ensures forall i :: 0 <= i < |errors| ==> r[i] == errors[i].Message()
  {
    if errors == [] then [] else [errors[0].Message()] + Messages(errors[1..])
  }

  /**
   * `validateInput`: pushes each error as its check fails and returns early
   * when the body has neither an image nor a food name.
   */
  method ValidateInput(body: Body) returns (result: Validation)
    ensures result.errors == Errors(body)
    ensures result.valid <==> result.errors == []
  {
    var errors: seq<InputError> := [];
    if !Truthy(body.image) && !Truthy(body.foodName) {
      errors := errors + [NoInput];
      return Validation(false, errors);
    }
    if Truthy(body.image) {
      errors := PushImageErrors(body, errors);
    }
    errors := PushFoodNameErrors(body.foodName, errors);
    errors := PushAmountErrors(body.amount, errors);
    return Validation(|errors| == 0, errors);
  }

  /** The image checks of `validateInput`: each pushes its error whatever the others found. */
  method PushImageErrors(body: Body, errors: seq<InputError>) returns (pushed: seq<InputError>)
    ensures pushed == errors + ImageErrors(body)
  {
    pushed := errors;
    if !Truthy(body.mimeType) || !MimeTypeAccepted(body.mimeType) {
      pushed := pushed + [BadMimeType];
    }
    ghost var checked := pushed;
    if !PassesBase64Test(body.image) {
      pushed := pushed + [BadImageData];
    }
    assert pushed == checked + (if PassesBase64Test(body.image) then [] else [BadImageData]);
    checked := pushed;
    if ExceedsImageLimit(body.image) {
      pushed := pushed + [ImageTooLarge];
    }
    assert pushed == checked + (if ExceedsImageLimit(body.image) then [ImageTooLarge] else []);
  }

  /** The food name checks of `validateInput`: at most one error, from the first check that fails. */
  method PushFoodNameErrors(foodName: Value, errors: seq<InputError>) returns (pushed: seq<InputError>)
    ensures pushed == errors + FoodNameErrors(foodName)
  {
    pushed := errors;
    if Truthy(foodName) {
      if !foodName.Str? {
        pushed := pushed + [FoodNameNotString];
      } else if JsLength(foodName.s) > MaxFoodNameLength {
        pushed := pushed + [FoodNameTooLong];
      } else if JsLength(Trim(foodName.s)) == 0 {
        pushed := pushed + [FoodNameEmpty];
      }
    }
  }

  /** The amount checks of `validateInput`: at most one error, from the first check that fails. */
  method PushAmountErrors(amount: Value, errors: seq<InputError>) returns (pushed: seq<InputError>)
    ensures pushed == errors + AmountErrors(amount)
  {
    pushed := errors;
    if Truthy(amount) {
      if !amount.Str? {
        pushed := pushed + [AmountNotString];
      } else if JsLength(amount.s) > MaxAmountLength {
        pushed := pushed + [AmountTooLong];
      }
    }
  }

  // ----- Properties of the validator -----

  /**
   * The "nothing provided" error is reported exactly when neither an image
   * nor a food name is present, and then it is the only error.
   */
  lemma NoInputIsAlone(b: Body)
    ensures NoInput in Errors(b) <==> !Truthy(b.image) && !Truthy(b.foodName)
    ensures NoInput in Errors(b) ==> Errors(b) == [NoInput]
  {
  }

  /** An image given as a string passes the data check exactly when it is made of base64 characters. */
  lemma StringImageData(b: Body, s: string)
    requires b.image == Str(s) && s != ""
    ensures BadImageData in Errors(b) <==> exists i :: 0 <= i < |s| && !IsBase64Char(s[i])
  {
  }

  /** Every error comes from a later check than the errors before it. */
  predicate InCheckOrder(errors: seq<InputError>) {
    forall i, j :: 0 <= i < j < |errors| ==> errors[i].Rank() < errors[j].Rank()
  }

  /** All errors of the list come from checks in positions `lo` to `hi`. */
  predicate RanksWithin(errors: seq<InputError>, lo: nat, hi: nat) {
    forall i :: 0 <= i < |errors| ==> lo <= errors[i].Rank() <= hi
  }

  /** Two lists in check order, the first from earlier checks than the second, stay in order when joined. */
  lemma InCheckOrderAppend(a: seq<InputError>, b: seq<InputError>, lo: nat, mid: nat, hi: nat)
    requires InCheckOrder(a) && InCheckOrder(b)
    requires RanksWithin(a, lo, mid) && RanksWithin(b, mid + 1, hi)
    requires lo <= mid + 1 && mid <= hi
    ensures InCheckOrder(a + b) && RanksWithin(a + b, lo, hi)
  {
    var e := a + b;
    forall i, j | 0 <= i < j < |e| ensures e[i].Rank() < e[j].Rank() {
      if j < |a| {
        assert e[i] == a[i] && e[j] == a[j];
      } else if i >= |a| {
        assert e[i] == b[i - |a|] && e[j] == b[j - |a|];
      } else {
        assert e[i] == a[i] && e[j] == b[j - |a|];
      }
    }
    forall i | 0 <= i < |e| ensures lo <= e[i].Rank() <= hi {
      if i < |a| {
        assert e[i] == a[i];
      } else {
        assert e[i] == b[i - |a|];
      }
    }
  }

  lemma ImageErrorsInOrder(b: Body)
    ensures InCheckOrder(ImageErrors(b)) && RanksWithin(ImageErrors(b), 1, 3)
  {
    var mime := if MimeTypeAccepted(b.mimeType) then [] else [BadMimeType];
    var data := if PassesBase64Test(b.image) then [] else [BadImageData];
    var size := if ExceedsImageLimit(b.image) then [ImageTooLarge] else [];
    assert ImageErrors(b) == mime + data + size;
    ImageChecksInOrder(mime, data, size);
  }

  /** The three image checks, each reporting at most its own error, report in check order. */
  lemma ImageChecksInOrder(mime: seq<InputError>, data: seq<InputError>, size: seq<InputError>)
    requires mime == [] || mime == [BadMimeType]
    requires data == [] || data == [BadImageData]
    requires size == [] || size == [ImageTooLarge]
    ensures InCheckOrder(mime + data + size) && RanksWithin(mime + data + size, 1, 3)
  {
    InCheckOrderAppend(mime, data, 1, 1, 2);
    InCheckOrderAppend(mime + data, size, 1, 2, 3);
  }

  /** The errors come out in the order the checks run, each at most once. */
  lemma ErrorsInCheckOrder(b: Body)
    ensures InCheckOrder(Errors(b))
  {
    if Truthy(b.image) || Truthy(b.foodName) {
      var img := if Truthy(b.image) then ImageErrors(b) else [];
      var fn := FoodNameErrors(b.foodName);
      var am := AmountErrors(b.amount);
      ImageErrorsInOrder(b);
      FieldErrorsInOrder(b.foodName, b.amount);
      InCheckOrderAppend(img, fn, 1, 3, 6);
      InCheckOrderAppend(img + fn, am, 1, 6, 8);
      assert Errors(b) == img + fn + am;
    }
  }

  lemma FieldErrorsInOrder(foodName: Value, amount: Value)
    ensures InCheckOrder(FoodNameErrors(foodName)) && RanksWithin(FoodNameErrors(foodName), 4, 6)
    ensures InCheckOrder(AmountErrors(amount)) && RanksWithin(AmountErrors(amount), 7, 8)
  {
    AtMostOneInOrder(FoodNameErrors(foodName), 4, 6);
    AtMostOneInOrder(AmountErrors(amount), 7, 8);
  }

  /** A list of at most one error, from a check in positions `lo` to `hi`, is in check order. */
  lemma AtMostOneInOrder(errors: seq<InputError>, lo: nat, hi: nat)
    requires |errors| <= 1
    requires |errors| == 1 ==> lo <= errors[0].Rank() <= hi
    ensures InCheckOrder(errors) && RanksWithin(errors, lo, hi)
  {
  }

  /** An image error is in the list exactly when an image is present and its check fails. */
  lemma ImageErrorsPart(b: Body, e: InputError)
    requires e.OnImage()
    ensures e in Errors(b) <==> Truthy(b.image) && e in ImageErrors(b)
  {
    if Truthy(b.image) || Truthy(b.foodName) {
      var img := if Truthy(b.image) then ImageErrors(b) else [];
      assert Errors(b) == img + FoodNameErrors(b.foodName) + AmountErrors(b.amount);
      ChecksStayOnTheirField(b);
      assert e !in FoodNameErrors(b.foodName) && e !in AmountErrors(b.amount);
    }
  }

  /** A food name error is in the list exactly when the food name checks report it. */
  lemma FoodNameErrorsPart(b: Body, e: InputError)
    requires e.OnFoodName()
    ensures e in Errors(b) <==> e in FoodNameErrors(b.foodName)
  {
    if Truthy(b.image) || Truthy(b.foodName) {
      var img := if Truthy(b.image) then ImageErrors(b) else [];
      assert Errors(b) == img + FoodNameErrors(b.foodName) + AmountErrors(b.amount);
      ChecksStayOnTheirField(b);
      assert e !in img && e !in AmountErrors(b.amount);
    }
  }

  /** An amount error is in the list exactly when the checks run at all and the amount checks report it. */
  lemma AmountErrorsPart(b: Body, e: InputError)
    requires e.OnAmount()
    ensures e in Errors(b) <==> (Truthy(b.image) || Truthy(b.foodName)) && e in AmountErrors(b.amount)
  {
    if Truthy(b.image) || Truthy(b.foodName) {
      var img := if Truthy(b.image) then ImageErrors(b) else [];
      assert Errors(b) == img + FoodNameErrors(b.foodName) + AmountErrors(b.amount);
      ChecksStayOnTheirField(b);
      assert e !in img && e !in FoodNameErrors(b.foodName);
    }
  }

  /** Each group of checks reports only errors about its own member. */
  lemma ChecksStayOnTheirField(b: Body)
    ensures forall x :: x in ImageErrors(b) ==> x.OnImage()
    ensures forall x :: x in FoodNameErrors(b.foodName) ==> x.OnFoodName()
    ensures forall x :: x in AmountErrors(b.amount) ==> x.OnAmount()
  {
  }

  /**
   * With an image present each image check reports on its own: a bad type,
   * bad characters and an oversized payload are all reported together, and
   * without an image none of them is.
   */
  lemma ImageChecksAccumulate(b: Body)
    ensures BadMimeType in Errors(b) <==> Truthy(b.image) && !(b.mimeType.Str? && b.mimeType.s in AllowedMimeTypes)
    ensures BadImageData in Errors(b) <==> Truthy(b.image) && !PassesBase64Test(b.image)
    ensures ImageTooLarge in Errors(b) <==> Truthy(b.image) && ExceedsImageLimit(b.image)
  {
    ImageErrorsPart(b, BadMimeType);
    ImageErrorsPart(b, BadImageData);
    ImageErrorsPart(b, ImageTooLarge);
  }

  /** The food name contributes at most one error. */
  lemma FoodNameAtMostOnce(b: Body)
    ensures forall i, j :: 0 <= i < |Errors(b)| && 0 <= j < |Errors(b)| && Errors(b)[i].OnFoodName() && Errors(b)[j].OnFoodName() ==> i == j
  {
    var e := Errors(b);
    ErrorsInCheckOrder(b);
    forall i, j | 0 <= i < |e| && 0 <= j < |e| && e[i].OnFoodName() && e[j].OnFoodName() ensures i == j {
      FoodNameErrorsPart(b, e[i]);
      FoodNameErrorsPart(b, e[j]);
    }
  }

  /**
   * Which food name error is reported is decided in order: not a string,
   * then too long, then blank. A blank name over the limit is reported as too
   * long, not as empty.
   */
  lemma FoodNameCheckedInTurn(b: Body)
    ensures FoodNameNotString in Errors(b) <==> Truthy(b.foodName) && !b.foodName.Str?
    ensures FoodNameTooLong in Errors(b) <==> b.foodName.Str? && JsLength(b.foodName.s) > MaxFoodNameLength
    ensures FoodNameEmpty in Errors(b) <==>
      && b.foodName.Str? && b.foodName.s != []
      && JsLength(b.foodName.s) <= MaxFoodNameLength
      && forall k :: 0 <= k < |b.foodName.s| ==> IsSpace(b.foodName.s[k])
  {
    FoodNameErrorsPart(b, FoodNameNotString);
    FoodNameErrorsPart(b, FoodNameTooLong);
    FoodNameErrorsPart(b, FoodNameEmpty);
    if b.foodName.Str? {
      TrimEmpty(b.foodName.s);
    }
  }

  /** The amount contributes at most one error. */
  lemma AmountAtMostOnce(b: Body)
    ensures forall i, j :: 0 <= i < |Errors(b)| && 0 <= j < |Errors(b)| && Errors(b)[i].OnAmount() && Errors(b)[j].OnAmount() ==> i == j
  {
    var e := Errors(b);
    ErrorsInCheckOrder(b);
    forall i, j | 0 <= i < |e| && 0 <= j < |e| && e[i].OnAmount() && e[j].OnAmount() ensures i == j {
      AmountErrorsPart(b, e[i]);
      AmountErrorsPart(b, e[j]);
    }
  }

  /**
   * Which amount error is reported is decided in order: not a string, else
   * too long. A falsy amount is checked no differently from an absent one.
   */
  lemma AmountCheckedInTurn(b: Body)
    ensures AmountNotString in Errors(b) <==>
      (Truthy(b.image) || Truthy(b.foodName)) && Truthy(b.amount) && !b.amount.Str?
    ensures AmountTooLong in Errors(b) <==>
      (Truthy(b.image) || Truthy(b.foodName)) && b.amount.Str? && JsLength(b.amount.s) > MaxAmountLength
    ensures !Truthy(b.amount) ==> Errors(b) == Errors(b.(amount := Undefined))
  {
    AmountErrorsPart(b, AmountNotString);
    AmountErrorsPart(b, AmountTooLong);
  }

  /** A name of 300 spaces is reported as too long, never as empty. */
  lemma BlankLongNameIsTooLong(b: Body)
    requires b.foodName == Str(seq(300, _ => ' '))
    ensures FoodNameTooLong in Errors(b)
    ensures FoodNameEmpty !in Errors(b)
  {
    FoodNameCheckedInTurn(b);
  }

  /**
   * A body is accepted exactly when it gives an image or a food name, the
   * image (if any) passes its three checks, the food name (if any) is a
   * string of at most 200 code units with a character that is not a space,
   * and the amount (if any) is a string of at most 100 code units.
   */
  predicate Accepted(b: Body) {
    && (Truthy(b.image) || Truthy(b.foodName))
    && (Truthy(b.image) ==>
          MimeTypeAccepted(b.mimeType) && PassesBase64Test(b.image) && !ExceedsImageLimit(b.image))
    && (Truthy(b.foodName) ==>
          && b.foodName.Str?
          && JsLength(b.foodName.s) <= MaxFoodNameLength
          && exists k :: 0 <= k < |b.foodName.s| && !IsSpace(b.foodName.s[k]))
    && (Truthy(b.amount) ==> b.amount.Str? && JsLength(b.amount.s) <= MaxAmountLength)
  }

  /** The validator reports no error exactly for the accepted bodies. */
  lemma NoErrorsIffAccepted(b: Body)
    ensures Errors(b) == [] <==> Accepted(b)
  {
    ImageErrorsEmpty(b);
    FoodNameErrorsEmpty(b.foodName);
    AmountErrorsEmpty(b.amount);
    if Truthy(b.image) || Truthy(b.foodName) {
      var img := if Truthy(b.image) then ImageErrors(b) else [];
      var e := img + FoodNameErrors(b.foodName) + AmountErrors(b.amount);
      assert |e| == |img| + |FoodNameErrors(b.foodName)| + |AmountErrors(b.amount)|;
    }
  }

  lemma ImageErrorsEmpty(b: Body)
    ensures ImageErrors(b) == [] <==>
      MimeTypeAccepted(b.mimeType) && PassesBase64Test(b.image) && !ExceedsImageLimit(b.image)
  {
  }

  lemma FoodNameErrorsEmpty(v: Value)
    ensures FoodNameErrors(v) == [] <==>
      (Truthy(v) ==> v.Str? && JsLength(v.s) <= MaxFoodNameLength
                     && exists k :: 0 <= k < |v.s| && !IsSpace(v.s[k]))
  {
    if v.Str? {
      TrimEmpty(v.s);
    }
  }

  lemma AmountErrorsEmpty(v: Value)
    ensures AmountErrors(v) == [] <==> (Truthy(v) ==> v.Str? && JsLength(v.s) <= MaxAmountLength)
  {
  }
}
