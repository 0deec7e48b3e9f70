/**
 * The legal-name form of the personal details settings: its two-phase
 * validator and the request its submit handler sends.
 *
 * The validation helpers (findInvalidSymbols and
 * doesFailCharacterLimitAfterTrim) and the form character limit are
 * parameters: nothing is assumed of them beyond how the page calls them.
 * A translated message is kept as the phrase key and phrase parameters
 * handed to translateLocal.
 */
module LegalNamePage {
  import opened Wrappers
  import opened JsString

  const LEGAL_FIRST_NAME: string := "legalFirstName"
  const LEGAL_LAST_NAME: string := "legalLastName"
  const HAS_INVALID_CHARACTER: string := "personalDetails.error.hasInvalidCharacter"
  const CHARACTER_LIMIT: string := "personalDetails.error.characterLimit"

  /** The two input IDs of the form. */
  function FieldKeys(): set<string> {
    {LEGAL_FIRST_NAME, LEGAL_LAST_NAME}
  }

  /** The position of a field in the arrays the helpers take and return. */
  function FieldIndex(key: string): nat {
    if key == LEGAL_FIRST_NAME then 0 else 1
  }

  datatype FormValues = FormValues(legalFirstName: string, legalLastName: string)

  /** The argument the helpers receive: first name, then last name. */
  function Names(values: FormValues): seq<string> {
    [values.legalFirstName, values.legalLastName]
  }

  /** A value among translateLocal's phrase parameters. */
  datatype PhraseValue = Text(text: string) | Count(count: int) | Undefined

  /** A message, as the phrase key and phrase parameters it is translated from. */
  datatype Message = TranslateLocal(phraseKey: string, phraseParameters: map<string, PhraseValue>)

  /** The validation helpers the page calls. */
  datatype ValidationUtils = ValidationUtils(
    findInvalidSymbols: seq<string> -> seq<string>,
    doesFailCharacterLimitAfterTrim: (int, seq<string>) -> seq<bool>)

  /** Array destructuring: element `i`, or undefined past the end. */
  function Element<T>(s: seq<T>, i: nat): (e: Option<T>)
    ensures e.Some? <==> i < |s|
    ensures e.Some? ==> e.value == s[i]
  {
    if i < |s| then Some(s[i]) else None
  }

  /** `_.isEmpty` of a string or of undefined. */
  predicate IsEmpty(v: Option<string>) {
    v.None? || v.value == ""
  }

  /** The message for a field holding `invalidCharacter`. */
  function InvalidCharacterMessage(invalidCharacter: Option<string>): Message {
    var shown := match invalidCharacter
      case Some(c) => Text(c)
      case None => Undefined;
    TranslateLocal(HAS_INVALID_CHARACTER, map["invalidCharacter" := shown])
  }

  /** The message for a field longer than `limit` once trimmed. */
  function CharacterLimitMessage(limit: int): Message {
    TranslateLocal(CHARACTER_LIMIT, map["limit" := Count(limit)])
  }

  /** What findInvalidSymbols reports for field `i`. */
  function InvalidCharacter(values: FormValues, utils: ValidationUtils, i: nat): Option<string> {
    Element(utils.findInvalidSymbols(Names(values)), i)
  }

  predicate HasInvalidCharacter(values: FormValues, utils: ValidationUtils, i: nat) {
    !IsEmpty(InvalidCharacter(values, utils, i))
  }

  /** doesFailCharacterLimitAfterTrim flags field `i` (undefined is falsy). */
  predicate FailsCharacterLimit(values: FormValues, utils: ValidationUtils, limit: int, i: nat) {
    Element(utils.doesFailCharacterLimitAfterTrim(limit, Names(values)), i) == Some(true)
  }

  /** assignError: record `errorCopy` under `errorKey` when `hasError`,
      leaving every other entry as it was. */
  function AssignError(errors: map<string, Message>, errorKey: string, hasError: bool, errorCopy: Message): (validateErrors: map<string, Message>)
    ensures validateErrors.Keys == if hasError then errors.Keys + {errorKey} else errors.Keys
    ensures hasError ==> validateErrors[errorKey] == errorCopy
    ensures forall k :: k in errors && (k != errorKey || !hasError) ==> validateErrors[k] == errors[k]
  {
    if hasError then errors[errorKey := errorCopy] else errors
  }

  /** The invalid-character errors: every field for which
      findInvalidSymbols reports a character, with that character's message. */
  function InvalidCharacterErrors(values: FormValues, utils: ValidationUtils): map<string, Message> {
    map k | k in FieldKeys() && HasInvalidCharacter(values, utils, FieldIndex(k))
      :: InvalidCharacterMessage(InvalidCharacter(values, utils, FieldIndex(k)))
  }

  /** The character-limit errors: every field the limit helper flags, all
      with the one limit message. */
  function CharacterLimitErrors(values: FormValues, utils: ValidationUtils, limit: int): map<string, Message> {
    map k | k in FieldKeys() && FailsCharacterLimit(values, utils, limit, FieldIndex(k))
      :: CharacterLimitMessage(limit)
  }

  /** The errors of a submission, stated per field: the invalid-character
      errors if there are any, otherwise the character-limit errors. */
  function ValidationErrors(values: FormValues, utils: ValidationUtils, limit: int): map<string, Message> {
    var invalid := InvalidCharacterErrors(values, utils);
    if invalid != map[] then invalid else CharacterLimitErrors(values, utils, limit)
  }

  /** The fields of the form and their positions. */
  lemma FieldPositions()
    ensures LEGAL_FIRST_NAME in FieldKeys() && FieldIndex(LEGAL_FIRST_NAME) == 0
    ensures LEGAL_LAST_NAME in FieldKeys() && FieldIndex(LEGAL_LAST_NAME) == 1
    ensures LEGAL_FIRST_NAME != LEGAL_LAST_NAME
  {
  }

  /** What ValidationErrors says about one field: while any field holds an
      invalid character, a field has an error exactly when it holds one;
      otherwise exactly when the limit helper flags it. The message is the
      field's own invalid-character message, or the limit message. */
  lemma ValidationErrorsPerField(values: FormValues, utils: ValidationUtils, limit: int, key: string)
    requires key in FieldKeys()
    ensures var errors := ValidationErrors(values, utils, limit);
      var i := FieldIndex(key);
      var anyInvalid := HasInvalidCharacter(values, utils, 0) || HasInvalidCharacter(values, utils, 1);
      && (anyInvalid ==> (key in errors <==> HasInvalidCharacter(values, utils, i)))
      && (!anyInvalid ==> (key in errors <==> FailsCharacterLimit(values, utils, limit, i)))
      && (key in errors ==>
            errors[key] == if HasInvalidCharacter(values, utils, i) then InvalidCharacterMessage(InvalidCharacter(values, utils, i))
                           else CharacterLimitMessage(limit))
  {
    FieldPositions();
    var invalid := InvalidCharacterErrors(values, utils);
    assert invalid != map[] <==> HasInvalidCharacter(values, utils, 0) || HasInvalidCharacter(values, utils, 1) by {
      if invalid != map[] {
        var k :| k in invalid;
      } else {
        assert LEGAL_FIRST_NAME !in invalid && LEGAL_LAST_NAME !in invalid;
      }
    }
  }

  /** A submission has no errors exactly when neither name holds an invalid
      character and neither fails the limit. */
  lemma ValidationErrorsEmpty(values: FormValues, utils: ValidationUtils, limit: int)
    ensures ValidationErrors(values, utils, limit).Keys <= FieldKeys()
    ensures ValidationErrors(values, utils, limit) == map[] <==>
      && !HasInvalidCharacter(values, utils, 0) && !HasInvalidCharacter(values, utils, 1)
      && !FailsCharacterLimit(values, utils, limit, 0) && !FailsCharacterLimit(values, utils, limit, 1)
  {
    FieldPositions();
    ValidationErrorsPerField(values, utils, limit, LEGAL_FIRST_NAME);
    ValidationErrorsPerField(values, utils, limit, LEGAL_LAST_NAME);
    var errors := ValidationErrors(values, utils, limit);
    if errors != map[] {
      var k :| k in errors;
    }
  }

  /** The first phase of validate, two assignError calls, gives the
      invalid-character errors. */
  lemma InvalidCharacterPhase(values: FormValues, utils: ValidationUtils)
    ensures
      var first := AssignError(map[], LEGAL_FIRST_NAME, HasInvalidCharacter(values, utils, 0),
        InvalidCharacterMessage(InvalidCharacter(values, utils, 0)));
      AssignError(first, LEGAL_LAST_NAME, HasInvalidCharacter(values, utils, 1),
        InvalidCharacterMessage(InvalidCharacter(values, utils, 1))) == InvalidCharacterErrors(values, utils)
  {
    FieldPositions();
  }

  /** The second phase of validate, two assignError calls on an empty map,
      gives the character-limit errors. */
  lemma CharacterLimitPhase(values: FormValues, utils: ValidationUtils, limit: int)
    ensures
      var first := AssignError(map[], LEGAL_FIRST_NAME, FailsCharacterLimit(values, utils, limit, 0),
        CharacterLimitMessage(limit));
      AssignError(first, LEGAL_LAST_NAME, FailsCharacterLimit(values, utils, limit, 1),
        CharacterLimitMessage(limit)) == CharacterLimitErrors(values, utils, limit)
  {
    FieldPositions();
  }

  /** validate: collect the invalid-character errors of both fields and
      return them if there are any; otherwise collect the character-limit
      errors. */
  method Validate(values: FormValues, utils: ValidationUtils, formCharacterLimit: int) returns (errors: map<string, Message>)
    ensures errors == ValidationErrors(values, utils, formCharacterLimit)
    ensures errors.Keys <= FieldKeys()
    ensures var anyInvalid := HasInvalidCharacter(values, utils, 0) || HasInvalidCharacter(values, utils, 1);
      && (anyInvalid ==>
            && (LEGAL_FIRST_NAME in errors <==> HasInvalidCharacter(values, utils, 0))
            && (LEGAL_LAST_NAME in errors <==> HasInvalidCharacter(values, utils, 1)))
      && (!anyInvalid ==>
            && (LEGAL_FIRST_NAME in errors <==> FailsCharacterLimit(values, utils, formCharacterLimit, 0))
            && (LEGAL_LAST_NAME in errors <==> FailsCharacterLimit(values, utils, formCharacterLimit, 1)))
    ensures LEGAL_FIRST_NAME in errors ==>
      errors[LEGAL_FIRST_NAME] == (
        if HasInvalidCharacter(values, utils, 0) then InvalidCharacterMessage(InvalidCharacter(values, utils, 0))
        else CharacterLimitMessage(formCharacterLimit))
    ensures LEGAL_LAST_NAME in errors ==>
      errors[LEGAL_LAST_NAME] == (
        if HasInvalidCharacter(values, utils, 1) then InvalidCharacterMessage(InvalidCharacter(values, utils, 1))
        else CharacterLimitMessage(formCharacterLimit))
    ensures errors == map[] <==>
      && !HasInvalidCharacter(values, utils, 0) && !HasInvalidCharacter(values, utils, 1)
      && !FailsCharacterLimit(values, utils, formCharacterLimit, 0)
      && !FailsCharacterLimit(values, utils, formCharacterLimit, 1)
  {
    FieldPositions();
    ValidationErrorsPerField(values, utils, formCharacterLimit, LEGAL_FIRST_NAME);
    ValidationErrorsPerField(values, utils, formCharacterLimit, LEGAL_LAST_NAME);
    ValidationErrorsEmpty(values, utils, formCharacterLimit);
    InvalidCharacterPhase(values, utils);
    CharacterLimitPhase(values, utils, formCharacterLimit);
    errors := map[];

    var invalidCharacters := utils.findInvalidSymbols([values.legalFirstName, values.legalLastName]);
    var legalFirstNameInvalidCharacter := Element(invalidCharacters, 0);
    var legalLastNameInvalidCharacter := Element(invalidCharacters, 1);
    assert invalidCharacters == utils.findInvalidSymbols(Names(values));
    errors := AssignError(errors, LEGAL_FIRST_NAME, !IsEmpty(legalFirstNameInvalidCharacter),
      InvalidCharacterMessage(legalFirstNameInvalidCharacter));
    errors := AssignError(errors, LEGAL_LAST_NAME, !IsEmpty(legalLastNameInvalidCharacter),
      InvalidCharacterMessage(legalLastNameInvalidCharacter));
    if errors != map[] {
      return;
    }

    var characterLimitError := CharacterLimitMessage(formCharacterLimit);
    var limitFlags := utils.doesFailCharacterLimitAfterTrim(formCharacterLimit, [values.legalFirstName, values.legalLastName]);
    errors := AssignError(errors, LEGAL_FIRST_NAME, Element(limitFlags, 0) == Some(true), characterLimitError);
    assert limitFlags == utils.doesFailCharacterLimitAfterTrim(formCharacterLimit, Names(values));
    errors := AssignError(errors, LEGAL_LAST_NAME, Element(limitFlags, 1) == Some(true), characterLimitError);
  }

  /** Once a field has an invalid character, the character-limit helper and
      the limit play no part: any two of them give the same errors. */
  lemma InvalidCharacterShortCircuits(values: FormValues, utils: ValidationUtils, other: ValidationUtils, limit: int, otherLimit: int)
    requires utils.findInvalidSymbols(Names(values)) == other.findInvalidSymbols(Names(values))
    requires HasInvalidCharacter(values, utils, 0) || HasInvalidCharacter(values, utils, 1)
    ensures ValidationErrors(values, utils, limit) == ValidationErrors(values, other, otherLimit)
  {
    FieldPositions();
    var invalid := InvalidCharacterErrors(values, utils);
    assert invalid == InvalidCharacterErrors(values, other);
    assert LEGAL_FIRST_NAME in invalid || LEGAL_LAST_NAME in invalid;
  }

  /** While the first name holds an invalid character, a last name free of
      invalid characters gets no error, even one that fails the limit. */
  lemma LimitErrorSuppressedByOtherField(values: FormValues, utils: ValidationUtils, limit: int)
    requires HasInvalidCharacter(values, utils, 0) && !HasInvalidCharacter(values, utils, 1)
    ensures ValidationErrors(values, utils, limit) ==
      map[LEGAL_FIRST_NAME := InvalidCharacterMessage(InvalidCharacter(values, utils, 0))]
  {
    FieldPositions();
    var invalid := InvalidCharacterErrors(values, utils);
    assert LEGAL_FIRST_NAME in invalid && LEGAL_LAST_NAME !in invalid;
    assert invalid.Keys == {LEGAL_FIRST_NAME};
  }

  /** "John$" and "Doe", when findInvalidSymbols reports "$" for the first
      name only: one error, on the first name, naming "$". */
  lemma InvalidFirstNameExample(utils: ValidationUtils, limit: int)
    requires utils.findInvalidSymbols(["John$", "Doe"]) == ["$", ""]
    ensures ValidationErrors(FormValues("John$", "Doe"), utils, limit) ==
      map[LEGAL_FIRST_NAME := TranslateLocal(HAS_INVALID_CHARACTER, map["invalidCharacter" := Text("$")])]
  {
    var values := FormValues("John$", "Doe");
    assert Names(values) == ["John$", "Doe"];
    assert InvalidCharacter(values, utils, 0) == Some("$");
    assert InvalidCharacter(values, utils, 1) == Some("");
    LimitErrorSuppressedByOtherField(values, utils, limit);
  }

  /** Two names free of invalid characters that both fail the limit carry
      the same limit message. */
  lemma BothNamesTooLong(values: FormValues, utils: ValidationUtils, limit: int)
    requires !HasInvalidCharacter(values, utils, 0) && !HasInvalidCharacter(values, utils, 1)
    requires FailsCharacterLimit(values, utils, limit, 0) && FailsCharacterLimit(values, utils, limit, 1)
    ensures ValidationErrors(values, utils, limit) ==
      map[LEGAL_FIRST_NAME := CharacterLimitMessage(limit), LEGAL_LAST_NAME := CharacterLimitMessage(limit)]
  {
    FieldPositions();
    assert InvalidCharacterErrors(values, utils).Keys == {};
    assert CharacterLimitErrors(values, utils, limit).Keys == {LEGAL_FIRST_NAME, LEGAL_LAST_NAME};
  }

  /** The request updateLegalName sends: first name, then last name. */
  datatype LegalNameRequest = LegalNameRequest(legalFirstName: string, legalLastName: string)

  /** updateLegalName: submit both names trimmed, first name first; neither
      submitted name starts or ends with white space. */
  function UpdateLegalName(values: FormValues): (request: LegalNameRequest)
    ensures request.legalFirstName == Trim(values.legalFirstName)
    ensures request.legalLastName == Trim(values.legalLastName)
    ensures Unpadded(request.legalFirstName) && Unpadded(request.legalLastName)
  {
    LegalNameRequest(Trim(values.legalFirstName), Trim(values.legalLastName))
  }

  /** Submitting what was submitted sends the same request again. */
  lemma UpdateLegalNameIdempotent(values: FormValues)
    ensures var r := UpdateLegalName(values);
      UpdateLegalName(FormValues(r.legalFirstName, r.legalLastName)) == r
  {
    TrimIdempotent(values.legalFirstName);
    TrimIdempotent(values.legalLastName);
  }
}
