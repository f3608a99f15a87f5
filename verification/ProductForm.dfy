/**
 * What the create and edit forms share: the validation rules of their schemas
 * and the state kept around the EAN uniqueness check.
 */
module ProductForm {
  import opened Text
  import opened JsNumber
  import opened MonetaryMask

  /** The message shown when the uniqueness check fails. */
  const EanTakenMessage: string := "Este EAN já está cadastrado."

  // ---------------------------------------------------------------------------
  // Validation
  // ---------------------------------------------------------------------------

  /** `string().required()`: the empty string counts as missing. */
  predicate Present(s: string) {
    s != ""
  }

  /** The price test: the unmasked value is a number and at least 1. */
  predicate PriceValid(price: string) {
    var x := RemoveMask(price);
    !IsNaN(x) && AtLeastOne(x)
  }

  /** `length(13)` */
  predicate EanLength(ean: string) {
    |ean| == 13
  }

  /** `matches(/^\d+$/)`: one digit or more and nothing else. */
  predicate EanNumeric(ean: string) {
    ean != [] && AllDigits(ean)
  }

  /** The three EAN tests together; no check digit is computed. */
  predicate EanValid(ean: string) {
    EanLength(ean) && EanNumeric(ean) && Present(ean)
  }

  /** An EAN passes exactly when it is thirteen digits. */
  lemma EanValidIff(ean: string)
    ensures EanValid(ean) <==> |ean| == 13 && AllDigits(ean)
  {
  }

  /**
   * A masked price passes iff the digits typed denote R$ 1,00 up to
   * R$ 999.999,99; from R$ 1.000.000,00 on the mask cannot be removed.
   */
  lemma PriceValidOfMask(s: string)
    ensures PriceValid(Mask(s)) <==> 100 <= Value(KeepDigits(s)) < 100000000
  {
    RemoveMaskOfMask(s);
    assert Pow10(2) == 100;
  }

  /** A formatted amount passes iff it is R$ 1,00 up to R$ 999.999,99. */
  lemma PriceValidOfFormat(cents: nat)
    ensures PriceValid(Format(cents)) <==> 100 <= cents < 100000000
  {
    MaskFixesMasked(Format(cents));
    PriceValidOfMask(Format(cents));
  }

  /** The mask of zero, the initial price of the create form, does not pass. */
  lemma ZeroPriceInvalid()
    ensures !PriceValid(Mask("0"))
  {
    assert KeepDigits("0") == "0";
    PriceValidOfMask("0");
  }

  /** A price that passes decodes to a non-negative number: the mask never yields a sign. */
  lemma ValidPriceIsPositive(s: string)
    requires PriceValid(Mask(s))
    ensures RemoveMask(Mask(s)).Finite? && !RemoveMask(Mask(s)).negative
    ensures RemoveMask(Mask(s)) == Finite(false, Value(KeepDigits(s)), -2)
  {
    PriceValidOfMask(s);
    RemoveMaskOfMask(s);
  }

  // ---------------------------------------------------------------------------
  // The EAN check
  // ---------------------------------------------------------------------------

  /** `eanError` and `isEanValidating`, with the handlers that set them. */
  class EanCheck {
    var eanError: string
    var isEanValidating: bool

    constructor()
      ensures eanError == "" && !isEanValidating
    {
      eanError := "";
      isEanValidating := false;
    }

    /** The flags keep the form from being submitted. */
    predicate Blocks()
      reads this
    {
      isEanValidating || eanError != ""
    }

    /**
     * The EAN field's change handler: the error is cleared on every edit, and
     * the check starts (setting `isEanValidating`) only at exactly 13 characters.
     */
    method Edited(value: string) returns (checkStarts: bool)
      modifies this
      ensures checkStarts <==> |value| == 13
      ensures eanError == ""
      ensures isEanValidating == (checkStarts || old(isEanValidating))
    {
      eanError := "";
      checkStarts := |value| == 13;
      if checkStarts {
        isEanValidating := true;
      }
    }

    /**
     * The end of `handleEanValidation`: the error is the "already registered"
     * message iff the check threw (any failure of the request counts), and the
     * check is over.
     */
    method Settled(threw: bool)
      modifies this
      ensures eanError == (if threw then EanTakenMessage else "")
      ensures !isEanValidating
      ensures Blocks() <==> threw
    {
      isEanValidating := false;
      if threw {
        eanError := EanTakenMessage;
      } else {
        eanError := "";
      }
    }
  }
}
