/**
 * The edit page: the form filled in from the fetched product, the status
 * radios that change the product's `active`, and `handleSubmit`, which sends
 * the changed product with `PUT`. The EAN and price handlers are those of the
 * create page.
 */
module ProductEdit {
  import opened Options
  import opened Text
  import opened JsNumber
  import opened MonetaryMask
  import opened Products
  import opened ProductForm

  // ---------------------------------------------------------------------------
  // The initial price
  // ---------------------------------------------------------------------------

  /**
   * The initial price as the page computes it: the mask of the number's string
   * form, whose digits are read as cents whatever the position of the point.
   */
  function InitialPriceAsWritten(x: Num): (r: string)
    ensures IsMasked(r)
  {
    Mask(ToString(x))
  }

  /** `m·10^e` in cents, the third decimal rounding half up. */
  function Cents(m: nat, e: int): nat {
    if e >= -2 then m * Pow10(e + 2)
    else
      var p := Pow10(-e - 2);
      (m + p / 2) / p
  }

  /** The initial price meant: the product's price itself, formatted. */
  function InitialPrice(x: Num): (r: string)
    ensures IsMasked(r)
    ensures x.Finite? ==> Value(KeepDigits(r)) == Cents(x.mantissa, x.exponent)
    ensures !x.Finite? ==> r == Format(0)
  {
    match x
    case Finite(_, m, e) => Format(Cents(m, e))
    case _ => Format(0)
  }

  /** The significant digits of `m·10^e`, with the zeros of a whole number, read as one integer. */
  function ReadDigits(m: nat, e: int): nat
    requires m > 0
  {
    var (m', e') := Normalize(m, e);
    if e' >= 0 then m' * Pow10(e') else m'
  }

  /**
   * The page's initial price reads the significant digits of the price, with
   * the zeros of a whole number, as cents; no sign survives.
   */
  lemma AsWrittenReadsDigits(negative: bool, m: nat, e: int)
    requires m > 0 && PlainDecimal(m, e)
    ensures InitialPriceAsWritten(Finite(negative, m, e)) == Format(ReadDigits(m, e))
  {
    var t := PositiveToString(m, e);
    DigitsOfPositiveString(m, e);
    if negative {
      KeepDigitsConcat("-", t);
      KeepDigitsOfNonDigits("-");
      assert KeepDigits("-" + t) == KeepDigits(t);
    } else {
      assert "" + t == t;
    }
    MaskIsFormat(ToString(Finite(negative, m, e)));
  }

  /** Two amounts format alike iff they are the same number of cents. */
  lemma FormatInjective(a: nat, b: nat)
    ensures Format(a) == Format(b) <==> a == b
  {
  }

  /** With at most two decimals the cents are exact: the significant digits shifted by the normalized exponent. */
  lemma CentsOfNormalized(m: nat, e: int)
    requires m > 0 && e >= -2
    ensures var (m', e') := Normalize(m, e);
      e' >= -2 && Cents(m, e) == m' * Pow10(e' + 2)
  {
    var (m', e') := Normalize(m, e);
    var k := e' - e;
    assert m == m' * Pow10(k) by {
      assert SameValue(Finite(false, m, e), Finite(false, m', e'));
    }
    Pow10Add(k, e + 2);
    assert k + (e + 2) == e' + 2;
    calc {
      Cents(m, e);
      m * Pow10(e + 2);
      (m' * Pow10(k)) * Pow10(e + 2);
      { MulAssoc(m', Pow10(k), Pow10(e + 2)); }
      m' * (Pow10(k) * Pow10(e + 2));
      m' * Pow10(e' + 2);
    }
  }

  lemma MulAssoc(a: int, b: int, c: int)
    ensures (a * b) * c == a * (b * c)
  {
  }

  /**
   * For a positive price with at most two decimals, the page shows the right
   * amount iff the price has exactly two significant decimals, as 12.34 does;
   * 12.5, 150 and 7 are all misread.
   */
  lemma AsWrittenRightIff(m: nat, e: int)
    requires m > 0 && e >= -2 && PlainDecimal(m, e)
    ensures InitialPriceAsWritten(Finite(false, m, e)) == InitialPrice(Finite(false, m, e))
      <==> Normalize(m, e).1 == -2
  {
    var r, c := ReadDigits(m, e), Cents(m, e);
    AsWrittenReadsDigits(false, m, e);
    assert InitialPrice(Finite(false, m, e)) == Format(c);
    FormatInjective(r, c);
    ReadDigitsIff(m, e);
  }

  /** The digits read are the cents iff the price has exactly two significant decimals. */
  lemma ReadDigitsIff(m: nat, e: int)
    requires m > 0 && e >= -2
    ensures ReadDigits(m, e) == Cents(m, e) <==> Normalize(m, e).1 == -2
  {
    var (m', e') := Normalize(m, e);
    CentsOfNormalized(m, e);
    ReadAsCentsIff(m', e');
  }

  /** Significant digits read as cents are the amount's cents iff it has two decimals. */
  lemma ReadAsCentsIff(m: nat, e: int)
    requires m > 0 && e >= -2
    ensures (if e >= 0 then m * Pow10(e) else m) == m * Pow10(e + 2) <==> e == -2
  {
    if e >= 0 {
      Pow10Add(e, 2);
      assert Pow10(2) == 100;
      MulAssoc(m, Pow10(e), 100);
    } else if e == -1 {
      assert Pow10(e + 2) == 10;
    } else {
      assert Pow10(e + 2) == 1;
    }
  }

  /** 12.5 shows as R$ 1,25, and submitting it unchanged sends 1.25; R$ 12,50 was meant. */
  lemma AsWrittenTwelveFifty()
    ensures InitialPriceAsWritten(Finite(false, 125, -1)) == Format(125)
    ensures RemoveMask(InitialPriceAsWritten(Finite(false, 125, -1))) == Finite(false, 125, -2)
    ensures !SameValue(RemoveMask(InitialPriceAsWritten(Finite(false, 125, -1))), Finite(false, 125, -1))
    ensures InitialPrice(Finite(false, 125, -1)) == Format(1250)
  {
    assert Normalize(125, -1) == (125, -1);
    assert Decimal(125) == Decimal(12) + [DigitChar(5)];
    assert Decimal(12) == Decimal(1) + [DigitChar(2)];
    AsWrittenReadsDigits(false, 125, -1);
    RemoveMaskOfFormat(125);
  }

  /** 150 shows as R$ 1,50, and submitting it unchanged sends 1.5; R$ 150,00 was meant. */
  lemma AsWrittenOneFifty()
    ensures InitialPriceAsWritten(Finite(false, 150, 0)) == Format(150)
    ensures RemoveMask(InitialPriceAsWritten(Finite(false, 150, 0))) == Finite(false, 150, -2)
    ensures !SameValue(RemoveMask(InitialPriceAsWritten(Finite(false, 150, 0))), Finite(false, 150, 0))
    ensures InitialPrice(Finite(false, 150, 0)) == Format(15000)
  {
    assert Normalize(150, 0) == (15, 1);
    assert Decimal(15) == Decimal(1) + [DigitChar(5)];
    AsWrittenReadsDigits(false, 150, 0);
    RemoveMaskOfFormat(150);
  }

  /**
   * The corrected initial price unmasks to the product's own price, for every
   * price below R$ 1.000.000,00 with at most two decimals. The price is taken
   * in a form whose exponent is at least -2, as `Normalize` gives for any such
   * price; 1250·10^-3 is 125·10^-2 in that form.
   */
  lemma InitialPriceRoundTrip(m: nat, e: int)
    requires e >= -2 && Cents(m, e) < 100000000
    ensures RemoveMask(InitialPrice(Finite(false, m, e))) == Finite(false, Cents(m, e), -2)
    ensures SameValue(RemoveMask(InitialPrice(Finite(false, m, e))), Finite(false, m, e))
  {
    RemoveMaskOfFormat(Cents(m, e));
  }

  // ---------------------------------------------------------------------------
  // The form
  // ---------------------------------------------------------------------------

  /** The form values; `image` is the newly chosen file, if any, named by its path. */
  datatype EditValues = EditValues(
    name: string,
    ean: string,
    price: string,
    description: string,
    image: Option<string>,
    sales_location: string,
    active: bool)

  /**
   * The values the form opens with, as the page computes them: the product's,
   * no new image, and `monetaryMask` of the price's string form.
   */
  function InitialEditValues(p: Product): (v: EditValues)
    ensures IsMasked(v.price) && v.image == None
    ensures v.name == p.name && v.ean == p.ean && v.description == p.description
    ensures v.sales_location == p.sales_location && v.active == p.active
  {
    EditValues(p.name, p.ean, InitialPriceAsWritten(p.price), p.description, None, p.sales_location, p.active)
  }

  /** The values the form was meant to open with: the same, with the price's own amount formatted. */
  function InitialEditValuesCorrected(p: Product): (v: EditValues)
    ensures IsMasked(v.price) && v.image == None
    ensures p.price.Finite? ==> Value(KeepDigits(v.price)) == Cents(p.price.mantissa, p.price.exponent)
    ensures v == InitialEditValues(p).(price := v.price)
  {
    InitialEditValues(p).(price := InitialPrice(p.price))
  }

  /** The schema: that of the create page without the image. */
  predicate EditValid(v: EditValues) {
    && Present(v.name)
    && PriceValid(v.price)
    && EanValid(v.ean)
    && Present(v.description)
    && Present(v.sales_location)
  }

  /** The other fields of a sound product: name, description and sales location present, a thirteen-digit EAN. */
  predicate SoundFields(p: Product) {
    p.name != "" && p.description != "" && p.sales_location != "" && |p.ean| == 13 && AllDigits(p.ean)
  }

  /**
   * As written, the untouched form of a product with sound fields passes iff
   * the price's significant digits, read as cents, make R$ 1,00 to
   * R$ 999.999,99; whatever the sign of the price.
   */
  lemma InitialEditValuesValidIff(p: Product)
    requires SoundFields(p)
    requires p.price.Finite? && p.price.mantissa > 0 && PlainDecimal(p.price.mantissa, p.price.exponent)
    ensures EditValid(InitialEditValues(p))
      <==> 100 <= ReadDigits(p.price.mantissa, p.price.exponent) < 100000000
  {
    var x := p.price;
    AsWrittenReadsDigits(x.negative, x.mantissa, x.exponent);
    PriceValidOfFormat(ReadDigits(x.mantissa, x.exponent));
    EanValidIff(p.ean);
  }

  /** As written, a sound product priced 5 opens at R$ 0,05, and its untouched form fails the schema. */
  lemma AsWrittenFiveFailsSchema(p: Product)
    requires SoundFields(p) && p.price == Finite(false, 5, 0)
    ensures InitialEditValues(p).price == Format(5)
    ensures !EditValid(InitialEditValues(p))
  {
    assert Normalize(5, 0) == (5, 0);
    assert Decimal(5) == [DigitChar(5)];
    InitialEditValuesValidIff(p);
    AsWrittenReadsDigits(false, 5, 0);
  }

  /**
   * With the corrected price, the untouched form of a product with sound
   * fields passes when its price is 1 to 999999.99 with at most two decimals,
   * written with an exponent of at least -2.
   */
  lemma CorrectedEditValuesValid(p: Product)
    requires SoundFields(p)
    requires p.price.Finite? && !p.price.negative && p.price.exponent >= -2
    requires 100 <= Cents(p.price.mantissa, p.price.exponent) < 100000000
    ensures EditValid(InitialEditValuesCorrected(p))
  {
    PriceValidOfFormat(Cents(p.price.mantissa, p.price.exponent));
    EanValidIff(p.ean);
  }

  // ---------------------------------------------------------------------------
  // The payload
  // ---------------------------------------------------------------------------

  /** The body sent with `PUT`; `ean` is absent when the key was deleted. */
  datatype EditPayload = EditPayload(
    name: string,
    ean: Option<string>,
    price: Num,
    description: string,
    sales_location: string,
    path_image: string,
    active: bool)

  /** The image path sent: the upload's when a new image was chosen (None when it threw), the product's otherwise. */
  function ImagePath(v: EditValues, product: Product, upload: Option<string>): Option<string> {
    if v.image.Some? then upload else Some(product.path_image)
  }

  /** The payload sent, or None when the upload of the new image threw. */
  function PayloadFor(v: EditValues, product: Product, upload: Option<string>): (r: Option<EditPayload>)
    ensures r.Some? <==> v.image.None? || upload.Some?
    ensures v.image.None? ==> r == Some(EditPayloadOf(v, product, product.path_image))
    ensures v.image.Some? && upload.Some? ==> r == Some(EditPayloadOf(v, product, upload.value))
  {
    match ImagePath(v, product, upload)
    case None => None
    case Some(path) => Some(EditPayloadOf(v, product, path))
  }

  /**
   * The payload: the form values with the price unmasked; `ean` only when it
   * differs from the fetched product's; `active` always the product's, never
   * the form's.
   */
  function EditPayloadOf(v: EditValues, product: Product, path: string): (r: EditPayload)
    ensures r.ean == None <==> v.ean == product.ean
    ensures r.ean != None ==> r.ean == Some(v.ean)
    ensures r.active == product.active && r.path_image == path
    ensures r.price == RemoveMask(v.price)
  {
    EditPayload(
      v.name,
      if product.ean == v.ean then None else Some(v.ean),
      RemoveMask(v.price),
      v.description,
      v.sales_location,
      path,
      product.active)
  }

  /**
   * As written, submitting the untouched form of a positive price with at most
   * two decimals sends the product's price back iff the price has exactly two
   * significant decimals: 12.34 survives, 12.5, 150 and 7 do not.
   */
  lemma UntouchedSubmitPriceIff(p: Product, path: string)
    requires p.price.Finite? && !p.price.negative && p.price.mantissa > 0 && p.price.exponent >= -2
    requires PlainDecimal(p.price.mantissa, p.price.exponent)
    requires Cents(p.price.mantissa, p.price.exponent) < 100000000
    ensures SameValue(EditPayloadOf(InitialEditValues(p), p, path).price, p.price)
      <==> Normalize(p.price.mantissa, p.price.exponent).1 == -2
  {
    var m, e := p.price.mantissa, p.price.exponent;
    AsWrittenSubmittedPrice(m, e);
    SameValueOfCents(ReadDigits(m, e), m, e);
    ReadDigitsIff(m, e);
  }

  /** As written, the untouched price is sent back as its significant digits read as cents. */
  lemma AsWrittenSubmittedPrice(m: nat, e: int)
    requires m > 0 && e >= -2 && PlainDecimal(m, e) && Cents(m, e) < 100000000
    ensures RemoveMask(InitialPriceAsWritten(Finite(false, m, e))) == Finite(false, ReadDigits(m, e), -2)
  {
    var r := ReadDigits(m, e);
    AsWrittenReadsDigits(false, m, e);
    ReadDigitsAtMostCents(m, e);
    RemoveMaskOfFormat(r);
  }

  /** A number of cents equals a positive price with at most two decimals iff it is that price's cents. */
  lemma SameValueOfCents(r: nat, m: nat, e: int)
    requires m > 0 && e >= -2
    ensures SameValue(Finite(false, r, -2), Finite(false, m, e)) <==> r == Cents(m, e)
  {
  }

  /** With at most two decimals, the digits read never exceed the true cents. */
  lemma ReadDigitsAtMostCents(m: nat, e: int)
    requires m > 0 && e >= -2
    ensures ReadDigits(m, e) <= Cents(m, e)
  {
    var (m', e') := Normalize(m, e);
    CentsOfNormalized(m, e);
    if e' >= 0 {
      Pow10Add(e', 2);
      assert Pow10(2) == 100;
      MulAssoc(m', Pow10(e'), 100);
    } else if e' == -1 {
      assert Pow10(e' + 2) == 10;
    } else {
      assert Pow10(e' + 2) == 1;
    }
  }

  /**
   * With the corrected price, submitting the untouched form without a new
   * image sends the product back as it was: no EAN, the same price, image,
   * status and texts. The price is written with an exponent of at least -2.
   */
  lemma CorrectedSubmitKeepsProduct(p: Product)
    requires p.price.Finite? && !p.price.negative && p.price.exponent >= -2
    requires Cents(p.price.mantissa, p.price.exponent) < 100000000
    ensures var v := InitialEditValuesCorrected(p);
      var r := EditPayloadOf(v, p, ImagePath(v, p, None).value);
      && r.ean == None
      && SameValue(r.price, p.price)
      && r.path_image == p.path_image && r.active == p.active
      && r.name == p.name && r.description == p.description && r.sales_location == p.sales_location
  {
    InitialPriceRoundTrip(p.price.mantissa, p.price.exponent);
  }

  /** The form's status radios do not reach the payload; only the product's `active` does. */
  lemma PayloadIgnoresFormActive(v: EditValues, product: Product, path: string, active: bool)
    ensures EditPayloadOf(v.(active := active), product, path) == EditPayloadOf(v, product, path)
  {
  }

  /** `handleActiveChange`: `active` becomes whether the radio's value is `"true"`. */
  function WithActive(p: Product, value: string): (r: Product)
    ensures r.active <==> value == "true"
    ensures r.(active := p.active) == p
  {
    p.(active := value == "true")
  }

  /** Each status radio sets exactly its own status, and clicking it again changes nothing. */
  lemma StatusRadios(p: Product, value: string)
    ensures WithActive(p, "true").active && !WithActive(p, "false").active
    ensures WithActive(WithActive(p, value), value) == WithActive(p, value)
  {
  }

  // ---------------------------------------------------------------------------
  // The page
  // ---------------------------------------------------------------------------

  /** How the product fetch ends. */
  datatype LoadOutcome = Fetched(product: Product) | Threw

  /** How the `PUT` ends. */
  datatype PutOutcome = Answered(ok: bool) | PutThrew

  class EditPage {
    var productData: Option<Product>
    /** The Formik values, which exist once the product has been fetched. */
    var form: Option<EditValues>
    var isLoading: bool
    const ean: EanCheck
    /** Every payload sent with `PUT`, oldest first. */
    var sent: seq<EditPayload>
    var navigatedHome: bool
    var errorToasts: nat

    /**
     * Nothing sets `isLoading`, so it stays false; the form is shown once the
     * product is there, and its price field holds masked amounts only.
     */
    predicate Valid()
      reads this
    {
      && !isLoading
      && form.Some? == productData.Some?
      && (form.Some? ==> IsMasked(form.value.price))
    }

    constructor()
      ensures Valid() && productData == None && form == None
      ensures fresh(ean) && ean.eanError == "" && !ean.isEanValidating
      ensures sent == [] && !navigatedHome && errorToasts == 0
    {
      productData := None;
      form := None;
      isLoading := false;
      ean := new EanCheck();
      sent := [];
      navigatedHome := false;
      errorToasts := 0;
    }

    /** `disabled={isLoading || isEanValidating || !!eanError}`: in practice only the EAN flags. */
    function SubmitDisabled(): (r: bool)
      reads this, ean
      ensures Valid() ==> (r <==> ean.Blocks())
    {
      isLoading || ean.Blocks()
    }

    /**
     * The end of the product fetch: on success the product is kept and, the
     * first time, the form opens with its values; on failure an error toast.
     */
    method Loaded(outcome: LoadOutcome)
      requires Valid()
      modifies this
      ensures Valid()
      ensures outcome.Threw? ==> productData == old(productData) && form == old(form) && errorToasts == old(errorToasts) + 1
      ensures outcome.Fetched? ==> productData == Some(outcome.product) && errorToasts == old(errorToasts)
      ensures outcome.Fetched? ==> form == if old(form).Some? then old(form) else Some(InitialEditValues(outcome.product))
      ensures sent == old(sent) && navigatedHome == old(navigatedHome)
    {
      match outcome {
        case Fetched(product) =>
          Show(product, InitialEditValues(product));
        case Threw =>
          errorToasts := errorToasts + 1;
      }
    }

    /** The product is kept; the form, the first time only, opens with `initial`. */
    method Show(product: Product, initial: EditValues)
      requires Valid() && IsMasked(initial.price)
      modifies this
      ensures Valid() && productData == Some(product)
      ensures form == if old(form).Some? then old(form) else Some(initial)
      ensures sent == old(sent) && navigatedHome == old(navigatedHome) && errorToasts == old(errorToasts)
    {
      if form.None? {
        form := Some(initial);
      }
      productData := Some(product);
    }

    /** A click on a status radio: only the product's `active` changes, not the form. */
    method ActiveChanged(value: string)
      requires Valid() && productData.Some?
      modifies this
      ensures Valid()
      ensures productData == Some(WithActive(old(productData).value, value))
      ensures form == old(form) && sent == old(sent)
      ensures navigatedHome == old(navigatedHome) && errorToasts == old(errorToasts)
    {
      productData := Some(WithActive(productData.value, value));
    }

    /** Typing in the EAN field: the value is stored and the check may start. */
    method EanChanged(value: string) returns (checkStarts: bool)
      requires Valid() && form.Some?
      modifies this, ean
      ensures Valid() && form == Some(old(form).value.(ean := value))
      ensures checkStarts <==> |value| == 13
      ensures ean.eanError == "" && ean.isEanValidating == (checkStarts || old(ean.isEanValidating))
      ensures productData == old(productData) && sent == old(sent)
      ensures navigatedHome == old(navigatedHome) && errorToasts == old(errorToasts)
    {
      checkStarts := ean.Edited(value);
      form := Some(form.value.(ean := value));
    }

    /** The uniqueness check ends. */
    method EanCheckSettled(threw: bool)
      requires Valid()
      modifies ean
      ensures ean.eanError == (if threw then EanTakenMessage else "") && !ean.isEanValidating
      ensures SubmitDisabled() <==> threw
    {
      ean.Settled(threw);
    }

    /** Typing in the price field stores the mask of what was typed. */
    method PriceChanged(typed: string)
      requires Valid() && form.Some?
      modifies this
      ensures Valid() && form == Some(old(form).value.(price := Mask(typed)))
      ensures productData == old(productData) && sent == old(sent)
      ensures navigatedHome == old(navigatedHome) && errorToasts == old(errorToasts)
    {
      var masked := Mask(typed);
      assert IsMasked(masked);
      form := Some(form.value.(price := masked));
    }

    /** Editing a plain field: name, description, sales location or the chosen image. */
    method FieldsChanged(name: string, description: string, salesLocation: string, image: Option<string>)
      requires Valid() && form.Some?
      modifies this
      ensures Valid()
      ensures form == Some(old(form).value.(name := name, description := description, sales_location := salesLocation, image := image))
      ensures productData == old(productData) && sent == old(sent)
      ensures navigatedHome == old(navigatedHome) && errorToasts == old(errorToasts)
    {
      form := Some(form.value.(name := name, description := description, sales_location := salesLocation, image := image));
    }

    /**
     * A click on the submit button. Nothing happens when it is disabled or the
     * schema rejects the values. Otherwise the new image, if any, is uploaded
     * (a throw ends with an error toast), the payload is sent, and only an `ok`
     * answer leads home.
     */
    method Submit(upload: Option<string>, put: PutOutcome) returns (started: bool)
      requires Valid() && form.Some?
      modifies this
      ensures Valid() && form == old(form) && productData == old(productData)
      ensures started <==> !old(SubmitDisabled()) && EditValid(form.value)
      ensures !started ==> sent == old(sent) && navigatedHome == old(navigatedHome) && errorToasts == old(errorToasts)
      ensures started ==> Sent(old(sent), old(navigatedHome), old(errorToasts), PayloadFor(form.value, productData.value, upload), put)
    {
      var values, product := form.value, productData.value;
      started := !SubmitDisabled() && EditValid(values);
      if started {
        Send(PayloadFor(values, product, upload), put);
      }
    }

    /**
     * What `handleSubmit` leaves behind, from the history before it: a failed
     * upload (no payload) adds an error toast; otherwise the payload is
     * recorded, and an `ok` answer leads home while any other outcome adds an
     * error toast.
     */
    predicate Sent(sent0: seq<EditPayload>, home0: bool, toasts0: nat, payload: Option<EditPayload>, put: PutOutcome)
      reads this
    {
      match payload
      case None => sent == sent0 && navigatedHome == home0 && errorToasts == toasts0 + 1
      case Some(body) =>
        && sent == sent0 + [body]
        && (if put == Answered(true) then navigatedHome && errorToasts == toasts0
            else navigatedHome == home0 && errorToasts == toasts0 + 1)
    }

    /** `handleSubmit` once the payload is built, or the upload has thrown. */
    method Send(payload: Option<EditPayload>, put: PutOutcome)
      requires Valid()
      modifies this
      ensures Valid() && form == old(form) && productData == old(productData)
      ensures Sent(old(sent), old(navigatedHome), old(errorToasts), payload, put)
    {
      match payload {
        case None =>
          errorToasts := errorToasts + 1;
        case Some(body) =>
          sent := sent + [body];
          if put == Answered(true) {
            navigatedHome := true;
          } else {
            errorToasts := errorToasts + 1;
          }
      }
      isLoading := false;
    }
  }
}
