/** The account form: its schema accepts an `iban` field exactly when it matches the IBAN
    pattern, and submitting posts the field unchanged. */
module AccountForm {
  import opened Iban

  const InvalidIban := "Invalid IBAN format"

  /** The body the form posts to the account route. */
  datatype AccountRequest = AccountRequest(iban: string)

  /** What submitting the form does: send the request, or show the schema's message under the
      field and send nothing. */
  datatype Submission = Send(body: AccountRequest) | FieldError(message: string)

  function Submit(iban: string): (r: Submission)
    ensures r.Send? <==> IsIbanShape(iban)
    ensures r.Send? ==> r.body == AccountRequest(iban)
    ensures r.FieldError? ==> r.message == InvalidIban
  {
    PatternMeansShape(iban);
    if Matches(IbanPattern, iban) then Send(AccountRequest(iban)) else FieldError(InvalidIban)
  }

  /** "invalid-iban" is refused with "Invalid IBAN format": it starts with a lower-case letter. */
  lemma InvalidExampleRejected()
    ensures Submit("invalid-iban") == FieldError(InvalidIban)
  {
    var s := "invalid-iban";
    assert !IsUpper(s[0]);
  }

  /** "GB29NWBK60161331926819" is accepted and posted as it is. */
  lemma ValidExampleSubmitted()
    ensures Submit("GB29NWBK60161331926819") == Send(AccountRequest("GB29NWBK60161331926819"))
  {
    var s := "GB29NWBK60161331926819";
    assert IsIbanShape(s) by {
      assert forall i | 4 <= i < |s| :: IsUpper(s[i]) || IsDigit(s[i]);
    }
  }

  /** The same IBAN with check digits "00", which the mod 97-10 check of ISO/IEC 7064 never
      produces, is accepted as well. */
  lemma ZeroCheckDigitsAccepted()
    ensures Submit("GB00NWBK60161331926819").Send?
  {
    var s := "GB00NWBK60161331926819";
    assert IsIbanShape(s) by {
      assert forall i | 4 <= i < |s| :: IsUpper(s[i]) || IsDigit(s[i]);
    }
  }
}
