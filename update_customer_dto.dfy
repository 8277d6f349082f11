/** The update request schema: every field optional, each present one within its bounds. The library's
    email rule is a parameter, since its definition is not part of this model. */
module UpdateCustomerDto {
  import opened Wrappers
  import opened JsText
  import opened Repository

  /** `z.string().min(lo).max(hi).optional()`: absent, or a string whose `length` lies in bounds. */
  predicate LengthWithin(field: Option<string>, lo: nat, hi: nat) {
    field.None? || lo <= Utf16Length(field.value) <= hi
  }

  /** `updateCustomerSchema` accepts the payload. `isEmail` is the library's `.email()` rule. */
  predicate ValidUpdatePayload(p: CustomerPatch, isEmail: string -> bool) {
    && LengthWithin(p.firstName, 1, 255)
    && LengthWithin(p.lastName, 1, 255)
    && (p.email.None? || (isEmail(p.email.value) && Utf16Length(p.email.value) <= 255))
    && LengthWithin(p.phoneNumber, 0, 20)
    && LengthWithin(p.city, 0, 100)
    && LengthWithin(p.state, 0, 100)
    && LengthWithin(p.country, 0, 100)
  }

  /** The empty payload is accepted, whatever the email rule. */
  lemma EmptyPayloadAccepted(isEmail: string -> bool)
    ensures ValidUpdatePayload(NoChanges, isEmail)
  {
  }

  /** An accepted payload never blanks a name, keeps names and the email within 255 characters, and
      leaves the address unbounded: any address at all keeps it accepted. */
  lemma AcceptedPayloadBounds(p: CustomerPatch, isEmail: string -> bool)
    requires ValidUpdatePayload(p, isEmail)
    ensures p.firstName.Some? ==> 1 <= |p.firstName.value| <= 255
    ensures p.lastName.Some? ==> 1 <= |p.lastName.value| <= 255
    ensures p.email.Some? ==> |p.email.value| <= 255
    ensures forall a :: ValidUpdatePayload(p.(address := Some(a)), isEmail)
  {
  }

  /** Schema acceptance is field by field: changing one field's value leaves the verdict on the
      others alone, so a rejected phone number is rejected whatever the other fields hold. */
  lemma PhoneNumberBound(p: CustomerPatch, isEmail: string -> bool, n: string)
    requires Utf16Length(n) > 20
    ensures !ValidUpdatePayload(p.(phoneNumber := Some(n)), isEmail)
  {
  }
}
