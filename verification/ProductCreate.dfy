/**
 * The create page: its form values and schema, the EAN and price handlers, and
 * `handleSubmit`, which uploads the image and posts the product.
 */
module ProductCreate {
  import opened Options
  import opened Text
  import opened JsNumber
  import opened MonetaryMask
  import opened ProductForm

  /** The form values; `image` is the chosen file, named by its path. */
  datatype CreateValues = CreateValues(
    name: string,
    ean: string,
    price: string,
    description: string,
    image: Option<string>,
    sales_location: string)

  /** The values the form opens with; the price is `R$ 0,00`, the mask of "0" (see `InitialPriceIsMaskOfZero`). */
  function InitialValues(): (v: CreateValues)
    ensures IsMasked(v.price)
    ensures v.name == "" && v.ean == "" && v.description == "" && v.image == None
    ensures v.sales_location == "event"
  {
    FormatOfZero();
    CreateValues("", "", "R$\U{00A0}0,00", "", None, "event")
  }

  /** The initial price is the mask of "0", that is, zero cents formatted. */
  lemma InitialPriceIsMaskOfZero()
    ensures InitialValues().price == Mask("0") == Format(0)
    ensures Value(KeepDigits(InitialValues().price)) == 0
  {
    assert KeepDigits("0") == "0";
    MaskIsFormat("0");
    FormatOfZero();
  }

  /** The schema: name, description, image and sales location required, a valid price and EAN. */
  predicate CreateValid(v: CreateValues) {
    && Present(v.name)
    && PriceValid(v.price)
    && EanValid(v.ean)
    && Present(v.description)
    && v.image.Some?
    && Present(v.sales_location)
  }

  /** An untouched form does not pass: its price is zero (and name, EAN, description and image are missing). */
  lemma InitialValuesInvalid()
    ensures !PriceValid(InitialValues().price)
    ensures !CreateValid(InitialValues())
  {
    InitialPriceIsMaskOfZero();
    ZeroPriceInvalid();
  }

  /** The body posted: the form values with the price unmasked and the uploaded image's path. */
  datatype CreatePayload = CreatePayload(
    name: string,
    ean: string,
    price: Num,
    description: string,
    sales_location: string,
    path_image: string)

  function PayloadOf(v: CreateValues, uploadedPath: string): CreatePayload {
    CreatePayload(v.name, v.ean, RemoveMask(v.price), v.description, v.sales_location, uploadedPath)
  }

  /**
   * A form that passes, with a masked price, posts a price of exactly the
   * cents typed, between 1 and 999999.99, and an EAN of thirteen digits.
   */
  lemma PayloadOfValid(v: CreateValues, uploadedPath: string)
    requires CreateValid(v) && IsMasked(v.price)
    ensures var p := PayloadOf(v, uploadedPath);
      && p.price.Finite? && !p.price.negative && p.price.exponent == -2
      && 100 <= p.price.mantissa < 100000000
      && Value(KeepDigits(v.price)) == p.price.mantissa
      && |p.ean| == 13 && AllDigits(p.ean)
      && p.path_image == uploadedPath
  {
    MaskFixesMasked(v.price);
    ValidPriceIsPositive(v.price);
    PriceValidOfMask(v.price);
    EanValidIff(v.ean);
  }

  /** The body posted once the image is uploaded; None when the upload threw. */
  function PayloadFor(v: CreateValues, upload: Option<string>): (r: Option<CreatePayload>)
    ensures r.Some? <==> upload.Some?
    ensures r.Some? ==> r.value == PayloadOf(v, upload.value)
  {
    match upload
    case None => None
    case Some(path) => Some(PayloadOf(v, path))
  }

  /** How the form reaches the POST: the image upload and the request itself. */
  datatype PostOutcome = Answered(ok: bool) | Threw

  class CreatePage {
    var values: CreateValues
    var isLoading: bool
    const ean: EanCheck
    /** Every product body posted, oldest first. */
    var posted: seq<CreatePayload>
    var navigatedHome: bool
    var errorToasts: nat

    /** The price field only ever holds masked amounts. */
    predicate Valid()
      reads this
    {
      IsMasked(values.price)
    }

    constructor()
      ensures Valid() && values == InitialValues()
      ensures !isLoading && fresh(ean) && ean.eanError == "" && !ean.isEanValidating
      ensures posted == [] && !navigatedHome && errorToasts == 0
    {
      values := InitialValues();
      isLoading := false;
      ean := new EanCheck();
      posted := [];
      navigatedHome := false;
      errorToasts := 0;
    }

    /** `disabled={isLoading || isEanValidating || !!eanError}` */
    predicate SubmitDisabled()
      reads this, ean
    {
      isLoading || ean.Blocks()
    }

    /** Typing in the EAN field: the value is stored and the check may start. */
    method EanChanged(value: string) returns (checkStarts: bool)
      requires Valid()
      modifies this, ean
      ensures Valid() && values == old(values).(ean := value)
      ensures checkStarts <==> |value| == 13
      ensures ean.eanError == "" && ean.isEanValidating == (checkStarts || old(ean.isEanValidating))
      ensures isLoading == old(isLoading) && posted == old(posted)
      ensures navigatedHome == old(navigatedHome) && errorToasts == old(errorToasts)
    {
      checkStarts := ean.Edited(value);
      values := values.(ean := value);
    }

    /** The uniqueness check ends. */
    method EanCheckSettled(threw: bool)
      modifies ean
      ensures ean.eanError == (if threw then EanTakenMessage else "") && !ean.isEanValidating
      ensures SubmitDisabled() <==> isLoading || threw
    {
      ean.Settled(threw);
    }

    /** Typing in the price field stores the mask of what was typed. */
    method PriceChanged(typed: string)
      modifies this
      ensures Valid() && values == old(values).(price := Mask(typed))
      ensures isLoading == old(isLoading) && posted == old(posted)
      ensures navigatedHome == old(navigatedHome) && errorToasts == old(errorToasts)
    {
      values := values.(price := Mask(typed));
    }

    /** Editing a plain field: name, description, sales location or the chosen image. */
    method FieldsChanged(name: string, description: string, salesLocation: string, image: Option<string>)
      requires Valid()
      modifies this
      ensures Valid()
      ensures values == old(values).(name := name, description := description, sales_location := salesLocation, image := image)
      ensures isLoading == old(isLoading) && posted == old(posted)
      ensures navigatedHome == old(navigatedHome) && errorToasts == old(errorToasts)
    {
      values := values.(name := name, description := description, sales_location := salesLocation, image := image);
    }

    /**
     * A click on the submit button: nothing when it is disabled or the schema
     * rejects the values; otherwise `handleSubmit` starts and loading begins.
     */
    method StartSubmit() returns (started: bool)
      modifies this
      ensures started <==> !old(SubmitDisabled()) && CreateValid(old(values))
      ensures isLoading == (started || old(isLoading))
      ensures values == old(values) && posted == old(posted)
      ensures navigatedHome == old(navigatedHome) && errorToasts == old(errorToasts)
    {
      started := !SubmitDisabled() && CreateValid(values);
      if started {
        isLoading := true;
      }
    }

    /**
     * The rest of `handleSubmit`, from the outcome of the upload (the path of
     * the uploaded image, or None when it threw) and of the request.
     */
    method FinishSubmit(upload: Option<string>, post: PostOutcome)
      modifies this
      ensures !isLoading && values == old(values)
      ensures Posted(old(posted), old(navigatedHome), old(errorToasts), PayloadFor(values, upload), post)
    {
      var v := values;
      Post(PayloadFor(v, upload), post);
    }

    /**
     * What `handleSubmit` leaves behind, from the history before it: a failed
     * upload (no payload) adds an error toast; otherwise the payload is
     * posted, and only an `ok` answer leads home, any other outcome adding an
     * error toast.
     */
    predicate Posted(posted0: seq<CreatePayload>, home0: bool, toasts0: nat, payload: Option<CreatePayload>, post: PostOutcome)
      reads this
    {
      match payload
      case None => posted == posted0 && navigatedHome == home0 && errorToasts == toasts0 + 1
      case Some(body) =>
        && posted == posted0 + [body]
        && (if post == Answered(true) then navigatedHome && errorToasts == toasts0
            else navigatedHome == home0 && errorToasts == toasts0 + 1)
    }

    /** `handleSubmit` once the payload is built, or the upload has thrown; loading ends in every case. */
    method Post(payload: Option<CreatePayload>, post: PostOutcome)
      modifies this
      ensures !isLoading && values == old(values)
      ensures Posted(old(posted), old(navigatedHome), old(errorToasts), payload, post)
    {
      match payload {
        case None =>
          errorToasts := errorToasts + 1;
        case Some(body) =>
          posted := posted + [body];
          if post == Answered(true) {
            navigatedHome := true;
          } else {
            errorToasts := errorToasts + 1;
          }
      }
      isLoading := false;
    }
  }
}
