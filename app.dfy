/**
 * The application shell: whether the signature counts as complete enough to copy, and
 * the copy button it disables otherwise. The check is one of presence only; the field
 * validator is not consulted.
 */
module SignatureApp {
  import opened Optional
  import opened JsString
  import opened SignatureData
  import opened FormValidation

  /** `positions.some(pos => pos.trim() !== '')`; the list itself, being an array, is
      always truthy, even when empty. */
  predicate HasPosition(d: Signature) {
    exists i :: 0 <= i < |d.positions| && !IsBlank(d.positions[i])
  }

  /** `fullName && hasPosition && email`: the name and the email are tested for being
      non-empty, without a trim. */
  predicate IsFormValid(d: Signature) {
    d.fullName != "" && HasPosition(d) && d.email != ""
  }

  /** A position is present exactly when the generated signature would show one: the
      shell and the composer use the same trim-based filter. */
  lemma HasPositionIffFilled(d: Signature)
    ensures HasPosition(d) <==> FilledPositions(d.positions) != []
  {
    FilledPositionsEmpty(d.positions);
  }

  /** `disabled={!isFormValid}` on the preview's copy button: disabled exactly when the
      name or the email is empty or the generated signature would list no position. */
  function CopyButtonDisabled(d: Signature): (disabled: bool)
    ensures disabled <==> d.fullName == "" || d.email == "" || FilledPositions(d.positions) == []
  {
    HasPositionIffFilled(d);
    !IsFormValid(d)
  }

  /** The initial (and reset) record cannot be copied. */
  lemma EmptyFormDisabled()
    ensures CopyButtonDisabled(Empty)
  {
    assert IsBlank(Empty.positions[0]);
  }

  /** A name or an email made of whitespace only counts as present, while the validator
      reports both as missing. */
  lemma WhitespaceCountsAsPresent(d: Signature, name: string, email: string)
    requires name != "" && email != ""
    requires IsBlank(name) && IsBlank(email)
    requires HasPosition(d)
    ensures IsFormValid(d.(fullName := name, email := email))
    ensures FindError(FormErrors(d.(fullName := name, email := email)), "fullName") == Some(NameRequired)
    ensures FindError(FormErrors(d.(fullName := name, email := email)), "email") == Some(EmailRequired)
  {
    var e := d.(fullName := name, email := email);
    assert HasPosition(e) by {
      var i :| 0 <= i < |d.positions| && !IsBlank(d.positions[i]);
      assert e.positions[i] == d.positions[i];
    }
    FormErrorsName(e);
    FullNameRuleOrder(name);
    FormErrorsEmail(e);
    EmailRuleOrder(email);
  }

  /** A record the validator accepts in full can always be copied. */
  lemma NoErrorsEnablesCopy(d: Signature)
    requires FormErrors(d) == []
    ensures IsFormValid(d)
  {
    FormErrorsName(d);
    FormErrorsPositions(d);
    FormErrorsEmail(d);
    assert !IsBlank(d.fullName);
    assert !IsBlank(d.email);
    assert !forall i :: 0 <= i < |d.positions| ==> IsBlank(d.positions[i]);
  }

  /** The converse fails: a name holding a digit enables the button although the
      validator rejects the name. */
  lemma EnabledDespiteErrors(d: Signature, i: int)
    requires HasPosition(d) && d.email != ""
    requires 0 <= i < |d.fullName| && IsDigit(d.fullName[i])
    ensures IsFormValid(d)
    ensures FindError(FormErrors(d), "fullName").Some?
  {
    FormErrorsName(d);
    FullNameRejectsDigitsAndDots(d.fullName, i);
  }
}
