/**
 * Field validation of the signature form: the rules table, the per-field
 * validator, the whole-form pass that builds an ordered error list, and the
 * error-list state with its lookup, clear and "has errors" operations.
 *
 * Each regular expression of the rules table is stated as the character-class
 * and length predicate it denotes. The patterns carry no `u` flag, so they read
 * UTF-16 code units; a code point above U+FFFF is two surrogate units, which no
 * positive class below admits and the url's negated class admits, and the
 * per-character predicates below give the same verdicts on it.
 */
module FormValidation {
  import opened Optional
  import opened JsString
  import opened SignatureData

  // ---------------------------------------------------------------------------
  // The rules table
  // ---------------------------------------------------------------------------

  const NameMaxLength: nat := 60
  const PositionMaxLength: nat := 80
  const InstitutionalDomain: string := "ucn.cl"

  const AccentedLetters: string := "áéíóúÁÉÍÓÚñÑüÜ"

  const NameRequired: string := "El nombre completo es obligatorio"
  const NameMessage: string := "Solo letras, espacios, guiones y apostrofes. Máximo 60 caracteres."
  const PositionRequired: string := "El cargo es obligatorio"
  const PositionMessage: string := "Solo letras, espacios y signos de puntuación básicos. Máximo 80 caracteres."
  const EmailRequired: string := "El email es obligatorio"
  const EmailFormatMessage: string := "Formato de email inválido"
  const EmailDomainMessage: string := "Se recomienda usar email institucional @ucn.cl"
  const PhoneMessage: string := "Formato: +56 9 1234 5678 o similar (7-20 caracteres)"
  const UrlMessage: string := "Debe ser una URL válida que comience con http:// o https://"
  const PositionsRequired: string := "Al menos un cargo es obligatorio"

  /** The template `Máximo ${maxLength} caracteres`. */
  function MaxLengthMessage(n: nat): string {
    "Máximo " + NatToString(n) + " caracteres"
  }

  /** The field names the validator skips when their value is empty. */
  const OptionalFieldNames: seq<string> := ["phone", "googleScholar", "linkedin", "orcid", "website"]

  /** The field kinds `validateField` has a case for. */
  const KnownKinds: seq<string> := ["fullName", "position", "email", "phone", "url"]

  // ---------------------------------------------------------------------------
  // Character classes and patterns
  // ---------------------------------------------------------------------------

  /** `[a-zA-ZáéíóúÁÉÍÓÚñÑüÜ\s'-]` */
  predicate IsNameChar(c: char) {
    IsAsciiLetter(c) || c in AccentedLetters || IsJsSpace(c) || c == '\'' || c == '-'
  }

  /** `[a-zA-ZáéíóúÁÉÍÓÚñÑüÜ\s'.,()-/]`: the trailing `)-/` is the range U+0029..U+002F,
      that is `)*+,-./`; digits lie outside every part of the class. */
  predicate IsPositionChar(c: char) {
    IsAsciiLetter(c) || c in AccentedLetters || IsJsSpace(c) ||
    c == '\'' || c == '.' || c == ',' || c == '(' || (')' <= c <= '/')
  }

  /** `[a-zA-Z0-9._%+-]`, the local part of an address. */
  predicate IsEmailLocalChar(c: char) {
    IsAsciiLetter(c) || IsDigit(c) || c == '.' || c == '_' || c == '%' || c == '+' || c == '-'
  }

  /** `[a-zA-Z0-9.-]`, the domain part of an address. */
  predicate IsDomainChar(c: char) {
    IsAsciiLetter(c) || IsDigit(c) || c == '.' || c == '-'
  }

  /** `[0-9\s\-\(\)]`, the body of a phone number. */
  predicate IsPhoneChar(c: char) {
    IsDigit(c) || IsJsSpace(c) || c == '-' || c == '(' || c == ')'
  }

  /** `[^\s<>"{}|\\^`\[\]]`, a character allowed after the url scheme. */
  predicate IsUrlChar(c: char) {
    !IsJsSpace(c) && !(c in "<>\"{}|\\^`[]")
  }

  /** `/^[a-zA-ZáéíóúÁÉÍÓÚñÑüÜ\s'-]+$/` */
  predicate MatchesNamePattern(v: string) {
    |v| > 0 && forall i {:trigger IsNameChar(v[i])} :: 0 <= i < |v| ==> IsNameChar(v[i])
  }

  /** `/^[a-zA-ZáéíóúÁÉÍÓÚñÑüÜ\s'.,()-/]+$/` */
  predicate MatchesPositionPattern(v: string) {
    |v| > 0 && forall i {:trigger IsPositionChar(v[i])} :: 0 <= i < |v| ==> IsPositionChar(v[i])
  }

  /** `[a-zA-Z0-9.-]+\.[a-zA-Z]{2,}` anchored at both ends: some dot after at least one
      domain character is followed by two or more letters up to the end. */
  predicate MatchesDomainWithTld(r: string) {
    exists dot :: 0 < dot && dot + 2 < |r| && r[dot] == '.' &&
      (forall i {:trigger IsDomainChar(r[i])} :: 0 <= i < dot ==> IsDomainChar(r[i])) &&
      (forall i {:trigger IsAsciiLetter(r[i])} :: dot < i < |r| ==> IsAsciiLetter(r[i]))
  }

  /** `/^[a-zA-Z0-9._%+-]+@[a-zA-Z0-9.-]+\.[a-zA-Z]{2,}$/` */
  predicate MatchesEmailPattern(v: string) {
    exists at :: 0 < at < |v| && v[at] == '@' &&
      (forall i {:trigger IsEmailLocalChar(v[i])} :: 0 <= i < at ==> IsEmailLocalChar(v[i])) &&
      MatchesDomainWithTld(v[at + 1..])
  }

  /** `/^[\+]?[0-9\s\-\(\)]{7,20}$/`; `+` is not in the body class, so an initial `+`
      is always the optional sign. */
  predicate MatchesPhonePattern(v: string) {
    var body := if v != "" && v[0] == '+' then v[1..] else v;
    7 <= |body| <= 20 && forall i {:trigger IsPhoneChar(body[i])} :: 0 <= i < |body| ==> IsPhoneChar(body[i])
  }

  predicate IsUrlTail(t: string) {
    |t| > 0 && forall i {:trigger IsUrlChar(t[i])} :: 0 <= i < |t| ==> IsUrlChar(t[i])
  }

  /** `/^https?:\/\/[^\s<>"{}|\\^`\[\]]+$/` */
  predicate MatchesUrlPattern(v: string) {
    ("http://" <= v && IsUrlTail(v[7..])) || ("https://" <= v && IsUrlTail(v[8..]))
  }

  // ---------------------------------------------------------------------------
  // validateField
  // ---------------------------------------------------------------------------

  /** The `fullName` case: blank, then too long, then outside the class. */
  function NameVerdict(value: string): Option<string> {
    if IsBlank(value) then Some(NameRequired)
    else if Utf16Length(value) > NameMaxLength then Some(MaxLengthMessage(NameMaxLength))
    else if !MatchesNamePattern(value) then Some(NameMessage)
    else None
  }

  /** The `position` case: blank, then too long, then outside the class. */
  function PositionVerdict(value: string): Option<string> {
    if IsBlank(value) then Some(PositionRequired)
    else if Utf16Length(value) > PositionMaxLength then Some(MaxLengthMessage(PositionMaxLength))
    else if !MatchesPositionPattern(value) then Some(PositionMessage)
    else None
  }

  /** The `email` case: blank, then not address-shaped, then without the institutional domain. */
  function EmailVerdict(value: string): Option<string> {
    if IsBlank(value) then Some(EmailRequired)
    else if !MatchesEmailPattern(value) then Some(EmailFormatMessage)
    else if !Contains(value, InstitutionalDomain) then Some(EmailDomainMessage)
    else None
  }

  /** The `phone` case: only a non-empty value is checked. */
  function PhoneVerdict(value: string): Option<string> {
    if value != "" && !MatchesPhonePattern(value) then Some(PhoneMessage) else None
  }

  /** The `url` case: only a non-empty value is checked. */
  function UrlVerdict(value: string): Option<string> {
    if value != "" && !MatchesUrlPattern(value) then Some(UrlMessage) else None
  }

  /** `validateField(field, value)`: the message of the first rule `value` breaks for
      the field kind `field`, or none. Total over every kind and every string. */
  function ValidateField(field: string, value: string): (r: Option<string>)
    ensures r.Some? ==> field in KnownKinds
    ensures r.Some? ==> value != "" || field in ["fullName", "position", "email"]
  {
    if value == "" && field != "phone" && field in OptionalFieldNames then None
    else if field == "fullName" then NameVerdict(value)
    else if field == "position" then PositionVerdict(value)
    else if field == "email" then EmailVerdict(value)
    else if field == "phone" then PhoneVerdict(value)
    else if field == "url" then UrlVerdict(value)
    else None
  }

  /** The early return for empty optional fields never changes a verdict: each kind is
      decided by its own case. */
  lemma ValidateFieldCases(value: string)
    ensures ValidateField("fullName", value) == NameVerdict(value)
    ensures ValidateField("position", value) == PositionVerdict(value)
    ensures ValidateField("email", value) == EmailVerdict(value)
    ensures ValidateField("phone", value) == PhoneVerdict(value)
    ensures ValidateField("url", value) == UrlVerdict(value)
  {
    assert "fullName" !in OptionalFieldNames;
    assert "position" !in OptionalFieldNames;
    assert "email" !in OptionalFieldNames;
    assert "url" !in OptionalFieldNames;
  }

  /** Any field name without a case of its own is valid whatever its value. */
  lemma UnknownKindIsValid(field: string, value: string)
    requires field !in KnownKinds
    ensures ValidateField(field, value) == None
  {
  }

  /** fullName: blank first, then length (in UTF-16 units) before the character class. */
  lemma FullNameRuleOrder(v: string)
    ensures IsBlank(v) ==> NameVerdict(v) == Some(NameRequired)
    ensures !IsBlank(v) && Utf16Length(v) > NameMaxLength ==>
              NameVerdict(v) == Some(MaxLengthMessage(60))
    ensures !IsBlank(v) && Utf16Length(v) <= NameMaxLength &&
            (exists i {:trigger IsNameChar(v[i])} :: 0 <= i < |v| && !IsNameChar(v[i])) ==>
              NameVerdict(v) == Some(NameMessage)
    ensures NameVerdict(v) == None <==>
              !IsBlank(v) && Utf16Length(v) <= NameMaxLength &&
              forall i {:trigger IsNameChar(v[i])} :: 0 <= i < |v| ==> IsNameChar(v[i])
  {
    assert NameVerdict(v) == None <==> !IsBlank(v) && Utf16Length(v) <= NameMaxLength && MatchesNamePattern(v);
  }

  /** A name holding a digit or a full stop is rejected. */
  lemma FullNameRejectsDigitsAndDots(v: string, i: int)
    requires 0 <= i < |v| && (IsDigit(v[i]) || v[i] == '.')
    ensures NameVerdict(v).Some?
  {
    assert !IsNameChar(v[i]);
  }

  /** position: blank first, then length (max 80 units) before the character class. */
  lemma PositionRuleOrder(v: string)
    ensures IsBlank(v) ==> PositionVerdict(v) == Some(PositionRequired)
    ensures !IsBlank(v) && Utf16Length(v) > PositionMaxLength ==>
              PositionVerdict(v) == Some(MaxLengthMessage(80))
    ensures !IsBlank(v) && Utf16Length(v) <= PositionMaxLength &&
            (exists i {:trigger IsPositionChar(v[i])} :: 0 <= i < |v| && !IsPositionChar(v[i])) ==>
              PositionVerdict(v) == Some(PositionMessage)
    ensures PositionVerdict(v) == None <==>
              !IsBlank(v) && Utf16Length(v) <= PositionMaxLength &&
              forall i {:trigger IsPositionChar(v[i])} :: 0 <= i < |v| ==> IsPositionChar(v[i])
  {
    assert PositionVerdict(v) == None <==> !IsBlank(v) && Utf16Length(v) <= PositionMaxLength && MatchesPositionPattern(v);
  }

  /** The position class rejects every digit and admits `*` and `+` through the `)-/` range. */
  lemma PositionCharset(c: char)
    ensures IsDigit(c) ==> !IsPositionChar(c)
    ensures IsPositionChar('*') && IsPositionChar('+') && IsPositionChar('/')
  {
  }

  /** A position holding a digit is rejected. */
  lemma PositionRejectsDigits(v: string, i: int)
    requires 0 <= i < |v| && IsDigit(v[i])
    ensures PositionVerdict(v).Some?
  {
    assert !IsPositionChar(v[i]);
  }

  /** email: blank first, then the address shape, then the institutional domain, which
      is reported as a message even for a well-formed address. */
  lemma EmailRuleOrder(v: string)
    ensures IsBlank(v) ==> EmailVerdict(v) == Some(EmailRequired)
    ensures !IsBlank(v) && !MatchesEmailPattern(v) ==> EmailVerdict(v) == Some(EmailFormatMessage)
    ensures MatchesEmailPattern(v) && !Contains(v, InstitutionalDomain) ==>
              EmailVerdict(v) == Some(EmailDomainMessage)
    ensures EmailVerdict(v) == None <==> MatchesEmailPattern(v) && Contains(v, InstitutionalDomain)
  {
    if MatchesEmailPattern(v) {
      var at :| 0 < at < |v| && v[at] == '@' && forall i :: 0 <= i < at ==> IsEmailLocalChar(v[i]);
      assert IsEmailLocalChar(v[0]) && !IsJsSpace(v[0]);
    }
  }

  /** A domain part that matches ends in two letters and has at least four characters. */
  lemma DomainEndsInTld(r: string)
    requires MatchesDomainWithTld(r)
    ensures |r| >= 4 && IsAsciiLetter(r[|r| - 1]) && IsAsciiLetter(r[|r| - 2])
  {
    var dot :| 0 < dot && dot + 2 < |r| && r[dot] == '.' && forall i :: dot < i < |r| ==> IsAsciiLetter(r[i]);
    assert dot < |r| - 2;
  }

  /** A matching address ends in a top-level domain of at least two letters. */
  lemma EmailEndsInTld(v: string)
    requires MatchesEmailPattern(v)
    ensures |v| >= 6 && IsAsciiLetter(v[|v| - 1]) && IsAsciiLetter(v[|v| - 2])
  {
    var at :| 0 < at < |v| && v[at] == '@' && MatchesDomainWithTld(v[at + 1..]);
    var r := v[at + 1..];
    DomainEndsInTld(r);
    assert r[|r| - 1] == v[|v| - 1] && r[|r| - 2] == v[|v| - 2];
  }

  /** phone: empty is valid; otherwise an optional `+` and 7 to 20 body characters. */
  lemma PhoneRule(v: string)
    ensures PhoneVerdict("") == None
    ensures v != "" ==> (PhoneVerdict(v) == None <==> MatchesPhonePattern(v))
    ensures v != "" && !MatchesPhonePattern(v) ==> PhoneVerdict(v) == Some(PhoneMessage)
  {
  }

  /** url: empty is valid; otherwise an http or https scheme and at least one allowed character. */
  lemma UrlRule(v: string)
    ensures UrlVerdict("") == None
    ensures v != "" ==> (UrlVerdict(v) == None <==> MatchesUrlPattern(v))
  {
  }

  /** A sample address of the institution passes. */
  lemma InstitutionalAddressAccepted()
    ensures EmailVerdict(SampleAddress) == None
  {
    SampleAddressFacts();
  }

  const SampleAddress: string := "ana@ucn.cl"

  lemma SampleAddressFacts()
    ensures MatchesEmailPattern(SampleAddress)
    ensures Contains(SampleAddress, InstitutionalDomain)
    ensures !IsBlank(SampleAddress)
  {
    SampleAddressShape();
    SampleAddressDomain();
    SampleAddressNotBlank();
  }

  lemma SampleAddressShape()
    ensures MatchesEmailPattern(SampleAddress)
  {
    var v := SampleAddress;
    var r := v[4..];
    assert r == "ucn.cl";
    assert forall i :: 0 <= i < 3 ==> IsDomainChar(r[i]);
    assert forall i :: 3 < i < |r| ==> IsAsciiLetter(r[i]);
    assert r[3] == '.';
    assert MatchesDomainWithTld(r);
    assert forall i :: 0 <= i < 3 ==> IsEmailLocalChar(v[i]);
    assert v[3] == '@';
  }

  lemma SampleAddressDomain()
    ensures Contains(SampleAddress, InstitutionalDomain)
  {
    assert InstitutionalDomain <= SampleAddress[4..];
  }

  lemma SampleAddressNotBlank()
    ensures !IsBlank(SampleAddress)
  {
    assert !IsJsSpace(SampleAddress[0]);
  }

  // ---------------------------------------------------------------------------
  // validateForm as a specification
  // ---------------------------------------------------------------------------

  datatype ValidationError = ValidationError(field: string, message: string)

  /** The error entry a verdict contributes under the name `field`. */
  function Report(field: string, verdict: Option<string>): seq<ValidationError> {
    if verdict.Some? then [ValidationError(field, verdict.value)] else []
  }

  /** The key `position-${k}` of the k-th filled position. */
  function PositionKey(k: nat): string {
    "position-" + NatToString(k)
  }

  /** The verdicts of the filled positions, in order. */
  function PositionVerdicts(filled: seq<string>): seq<Option<string>> {
    seq(|filled|, i requires 0 <= i < |filled| => PositionVerdict(filled[i]))
  }

  /** The errors of the first `n` verdicts, each keyed by its index among the filled
      positions. */
  function KeyedErrors(verdicts: seq<Option<string>>, n: nat): seq<ValidationError>
    requires n <= |verdicts|
  {
    if n == 0 then []
    else KeyedErrors(verdicts, n - 1) + Report(PositionKey(n - 1), verdicts[n - 1])
  }

  /** The position part of the error list: one `positions` entry when nothing is filled,
      otherwise the entries of the filled positions. */
  function PositionErrors(ps: seq<string>): seq<ValidationError> {
    var filled := FilledPositions(ps);
    if |filled| == 0 then [ValidationError("positions", PositionsRequired)]
    else KeyedErrors(PositionVerdicts(filled), |filled|)
  }

  /** The optional url fields, in the order the form checks them. */
  function UrlFields(d: Signature): seq<(string, Option<string>)> {
    [("googleScholar", SocialUrl(d.social, "googleScholar")),
     ("linkedin", SocialUrl(d.social, "linkedin")),
     ("orcid", d.orcid),
     ("website", d.website)]
  }

  /** The errors of the first `n` url fields; an absent or empty url is not checked. */
  function UrlErrorsUpTo(fields: seq<(string, Option<string>)>, n: nat): seq<ValidationError>
    requires n <= |fields|
  {
    if n == 0 then []
    else
      UrlErrorsUpTo(fields, n - 1) +
      (if TruthyOpt(fields[n - 1].1) then Report(fields[n - 1].0, UrlVerdict(fields[n - 1].1.value)) else [])
  }

  /** The optional phone field's part: checked only when not empty. */
  function PhoneErrors(d: Signature): seq<ValidationError> {
    if d.phone != "" then Report("phone", PhoneVerdict(d.phone)) else []
  }

  /** The whole error list of `validateForm`, in its order: fullName, positions, email,
      phone, then the url fields. Each verdict is the one `validateField` gives for that
      kind (ValidateFieldCases). */
  function FormErrors(d: Signature): seq<ValidationError> {
    Report("fullName", NameVerdict(d.fullName)) +
    PositionErrors(d.positions) +
    Report("email", EmailVerdict(d.email)) +
    PhoneErrors(d) +
    UrlErrorsUpTo(UrlFields(d), 4)
  }

  // ---------------------------------------------------------------------------
  // Looking errors up
  // ---------------------------------------------------------------------------

  /** `errors.find(err => err.field === name)?.message ?? null`: the message of the
      first entry for `name`. */
  function FindError(errs: seq<ValidationError>, name: string): Option<string> {
    if errs == [] then None
    else if errs[0].field == name then Some(errs[0].message)
    else FindError(errs[1..], name)
  }

  /** The lookup finds nothing exactly when no entry has the name, and otherwise the
      message of the first entry that has it. */
  lemma {:induction false} FindErrorMeaning(errs: seq<ValidationError>, name: string)
    ensures FindError(errs, name).None? <==> forall i :: 0 <= i < |errs| ==> errs[i].field != name
    ensures FindError(errs, name).Some? ==>
              exists i :: 0 <= i < |errs| && errs[i] == ValidationError(name, FindError(errs, name).value) &&
                          forall j :: 0 <= j < i ==> errs[j].field != name
  {
    if errs != [] && errs[0].field != name {
      var rest := errs[1..];
      FindErrorMeaning(rest, name);
      if FindError(rest, name).Some? {
        var i :| 0 <= i < |rest| && rest[i] == ValidationError(name, FindError(rest, name).value) &&
                 forall j :: 0 <= j < i ==> rest[j].field != name;
        assert errs[i + 1] == rest[i];
        assert forall j :: 1 <= j < i + 1 ==> errs[j] == rest[j - 1];
      } else {
        assert forall i :: 1 <= i < |errs| ==> errs[i] == rest[i - 1];
      }
    }
  }

  /** Looking up in a concatenation consults the left part first. */
  lemma {:induction false} FindErrorConcat(a: seq<ValidationError>, b: seq<ValidationError>, name: string)
    ensures FindError(a + b, name) == if FindError(a, name).Some? then FindError(a, name) else FindError(b, name)
  {
    if a == [] {
      assert a + b == b;
    } else {
      assert (a + b)[0] == a[0];
      assert (a + b)[1..] == a[1..] + b;
      FindErrorConcat(a[1..], b, name);
    }
  }

  /** The lookup of a single reported verdict. */
  lemma FindInReport(field: string, verdict: Option<string>, name: string)
    ensures FindError(Report(field, verdict), name) == if name == field then verdict else None
  {
  }

  /** A position key is none of the form's other field names. */
  lemma PositionKeyNotField(k: nat)
    ensures PositionKey(k) !in ["fullName", "positions", "email", "phone", "googleScholar", "linkedin", "orcid", "website"]
  {
    var key := PositionKey(k);
    assert key[0] == 'p' && key[1] == 'o' && key[8] == '-';
  }

  /** Every position key is longer than nine characters, with a dash at index 8. */
  lemma PositionKeyShape(k: nat)
    ensures |PositionKey(k)| > 9 && PositionKey(k)[8] == '-'
  {
  }

  /** Distinct indices have distinct keys, so a key names one filled position only. */
  lemma PositionKeyInjective(j: nat, k: nat)
    requires j != k
    ensures PositionKey(j) != PositionKey(k)
  {
    if PositionKey(j) == PositionKey(k) {
      assert NatToString(j) == PositionKey(j)[9..] && NatToString(k) == PositionKey(k)[9..];
      NatToStringInjective(j, k);
    }
  }

  /** Looking up after one more reported verdict: the earlier entries come first. */
  lemma FindAfterReport(prefix: seq<ValidationError>, field: string, verdict: Option<string>, name: string)
    ensures FindError(prefix + Report(field, verdict), name) ==
            if FindError(prefix, name).Some? then FindError(prefix, name)
            else if name == field then verdict else None
  {
    FindErrorConcat(prefix, Report(field, verdict), name);
    FindInReport(field, verdict, name);
  }

  /** The k-th verdict is found under `position-k`. */
  lemma {:induction false} FindPositionKey(verdicts: seq<Option<string>>, n: nat, k: nat)
    requires k < n <= |verdicts|
    ensures FindError(KeyedErrors(verdicts, n), PositionKey(k)) == verdicts[k]
  {
    var key := PositionKey(k);
    FindAfterReport(KeyedErrors(verdicts, n - 1), PositionKey(n - 1), verdicts[n - 1], key);
    if k < n - 1 {
      FindPositionKey(verdicts, n - 1, k);
      PositionKeyInjective(k, n - 1);
    } else {
      FindLaterKey(verdicts, n - 1, k);
    }
  }

  /** The key of a later index has no entry among the first `n`. */
  lemma {:induction false} FindLaterKey(verdicts: seq<Option<string>>, n: nat, k: nat)
    requires n <= |verdicts| && n <= k
    ensures FindError(KeyedErrors(verdicts, n), PositionKey(k)) == None
  {
    if n > 0 {
      FindLaterKey(verdicts, n - 1, k);
      PositionKeyInjective(n - 1, k);
      FindAfterReport(KeyedErrors(verdicts, n - 1), PositionKey(n - 1), verdicts[n - 1], PositionKey(k));
    }
  }

  /** A name not shaped like a position key has no entry among the keyed errors. */
  lemma {:induction false} FindUnkeyed(verdicts: seq<Option<string>>, n: nat, name: string)
    requires n <= |verdicts|
    requires |name| <= 9 || name[8] != '-'
    ensures FindError(KeyedErrors(verdicts, n), name) == None
  {
    if n > 0 {
      FindUnkeyed(verdicts, n - 1, name);
      PositionKeyShape(n - 1);
      FindAfterReport(KeyedErrors(verdicts, n - 1), PositionKey(n - 1), verdicts[n - 1], name);
    }
  }

  /** The url part: each url field's entry is that url's verdict when it is truthy. */
  lemma FindUrlError(d: Signature, name: string)
    ensures FindError(UrlErrorsUpTo(UrlFields(d), 4), name) ==
      if name == "googleScholar" then UrlVerdict(SocialUrl(d.social, "googleScholar").GetOr(""))
      else if name == "linkedin" then UrlVerdict(SocialUrl(d.social, "linkedin").GetOr(""))
      else if name == "orcid" then UrlVerdict(d.orcid.GetOr(""))
      else if name == "website" then UrlVerdict(d.website.GetOr(""))
      else None
  {
    var fs := UrlFields(d);
    forall n | 1 <= n <= 4
      ensures FindError(UrlErrorsUpTo(fs, n), name) ==
        if FindError(UrlErrorsUpTo(fs, n - 1), name).Some? then FindError(UrlErrorsUpTo(fs, n - 1), name)
        else if name == fs[n - 1].0 then UrlVerdict(fs[n - 1].1.GetOr(""))
        else None
    {
      var part := if TruthyOpt(fs[n - 1].1) then Report(fs[n - 1].0, UrlVerdict(fs[n - 1].1.value)) else [];
      FindErrorConcat(UrlErrorsUpTo(fs, n - 1), part, name);
      FindInReport(fs[n - 1].0, UrlVerdict(fs[n - 1].1.GetOr("")), name);
    }
  }

  /** The first present one of two lookups. */
  function FirstOf(a: Option<string>, b: Option<string>): Option<string> {
    if a.Some? then a else b
  }

  /** A lookup in the whole list consults the five parts in their order. */
  lemma FormErrorsSplit(d: Signature, name: string)
    ensures FindError(FormErrors(d), name) ==
      FirstOf(FindError(Report("fullName", NameVerdict(d.fullName)), name),
      FirstOf(FindError(PositionErrors(d.positions), name),
      FirstOf(FindError(Report("email", EmailVerdict(d.email)), name),
      FirstOf(FindError(PhoneErrors(d), name),
              FindError(UrlErrorsUpTo(UrlFields(d), 4), name)))))
  {
    var nameErrs := Report("fullName", NameVerdict(d.fullName));
    var posErrs := PositionErrors(d.positions);
    var emailErrs := Report("email", EmailVerdict(d.email));
    var phoneErrs := PhoneErrors(d);
    var urlErrs := UrlErrorsUpTo(UrlFields(d), 4);
    FindErrorConcat(nameErrs + posErrs + emailErrs + phoneErrs, urlErrs, name);
    FindErrorConcat(nameErrs + posErrs + emailErrs, phoneErrs, name);
    FindErrorConcat(nameErrs + posErrs, emailErrs, name);
    FindErrorConcat(nameErrs, posErrs, name);
  }

  /** The position part holds nothing under the form's other field names. */
  lemma PositionPartOther(ps: seq<string>, name: string)
    requires name in ["fullName", "email", "phone", "googleScholar", "linkedin", "orcid", "website"]
    ensures FindError(PositionErrors(ps), name) == None
  {
    var filled := FilledPositions(ps);
    if |filled| > 0 {
      FindUnkeyed(PositionVerdicts(filled), |filled|, name);
    }
  }

  /** The position part under the key of the k-th filled position. */
  lemma PositionPartKey(ps: seq<string>, k: nat)
    ensures FindError(PositionErrors(ps), PositionKey(k)) ==
      if k < |FilledPositions(ps)| then PositionVerdict(FilledPositions(ps)[k]) else None
  {
    var filled := FilledPositions(ps);
    if k < |filled| {
      FindPositionKey(PositionVerdicts(filled), |filled|, k);
    } else if |filled| > 0 {
      FindLaterKey(PositionVerdicts(filled), |filled|, k);
    }
  }

  /** `validateForm` stores the name's own verdict under `fullName`. */
  lemma FormErrorsName(d: Signature)
    ensures FindError(FormErrors(d), "fullName") == NameVerdict(d.fullName)
  {
    FormErrorsSplit(d, "fullName");
    FindInReport("fullName", NameVerdict(d.fullName), "fullName");
    PositionPartOther(d.positions, "fullName");
    FindInReport("email", EmailVerdict(d.email), "fullName");
    assert FindError(PhoneErrors(d), "fullName") == None;
    FindUrlError(d, "fullName");
  }

  /** A single `positions` entry exactly when no position is filled. */
  lemma FormErrorsPositions(d: Signature)
    ensures FindError(FormErrors(d), "positions") ==
      if forall i :: 0 <= i < |d.positions| ==> IsBlank(d.positions[i]) then Some(PositionsRequired) else None
  {
    FormErrorsSplit(d, "positions");
    FindInReport("fullName", NameVerdict(d.fullName), "positions");
    FindInReport("email", EmailVerdict(d.email), "positions");
    assert FindError(PhoneErrors(d), "positions") == None;
    FilledPositionsEmpty(d.positions);
    var filled := FilledPositions(d.positions);
    if |filled| > 0 {
      FindUnkeyed(PositionVerdicts(filled), |filled|, "positions");
    }
    FindUrlError(d, "positions");
  }

  /** The k-th filled position's verdict is stored under `position-k`; indices past the
      filled positions have nothing. */
  lemma FormErrorsPositionKey(d: Signature, k: nat)
    ensures FindError(FormErrors(d), PositionKey(k)) ==
      if k < |FilledPositions(d.positions)| then PositionVerdict(FilledPositions(d.positions)[k]) else None
  {
    var key := PositionKey(k);
    FormErrorsSplit(d, key);
    PositionKeyNotField(k);
    FindInReport("fullName", NameVerdict(d.fullName), key);
    PositionPartKey(d.positions, k);
    FindInReport("email", EmailVerdict(d.email), key);
    assert FindError(PhoneErrors(d), key) == None;
    FindUrlError(d, key);
  }

  /** The email's own verdict, the domain message included, is stored under `email`. */
  lemma FormErrorsEmail(d: Signature)
    ensures FindError(FormErrors(d), "email") == EmailVerdict(d.email)
  {
    FormErrorsSplit(d, "email");
    FindInReport("fullName", NameVerdict(d.fullName), "email");
    PositionPartOther(d.positions, "email");
    FindInReport("email", EmailVerdict(d.email), "email");
    assert FindError(PhoneErrors(d), "email") == None;
    FindUrlError(d, "email");
  }

  /** The phone is reported only when non-empty and malformed. */
  lemma FormErrorsPhone(d: Signature)
    ensures FindError(FormErrors(d), "phone") == PhoneVerdict(d.phone)
    ensures FindError(FormErrors(d), "phone").Some? <==> d.phone != "" && !MatchesPhonePattern(d.phone)
  {
    FormErrorsSplit(d, "phone");
    FindInReport("fullName", NameVerdict(d.fullName), "phone");
    PositionPartOther(d.positions, "phone");
    FindInReport("email", EmailVerdict(d.email), "phone");
    FindInReport("phone", PhoneVerdict(d.phone), "phone");
    FindUrlError(d, "phone");
  }

  /** Each url field's entry is the url validator's verdict on its value, an absent
      value counting as empty. */
  lemma FormErrorsUrlVerdict(d: Signature, name: string, url: Option<string>)
    requires (name == "googleScholar" && url == SocialUrl(d.social, "googleScholar")) ||
             (name == "linkedin" && url == SocialUrl(d.social, "linkedin")) ||
             (name == "orcid" && url == d.orcid) ||
             (name == "website" && url == d.website)
    ensures FindError(FormErrors(d), name) == UrlVerdict(url.GetOr(""))
  {
    FormErrorsSplit(d, name);
    UrlFieldNotEarlier(d, name);
    FindUrlError(d, name);
  }

  /** None of the parts before the url fields has an entry for a url field. */
  lemma UrlFieldNotEarlier(d: Signature, name: string)
    requires name in ["googleScholar", "linkedin", "orcid", "website"]
    ensures FindError(Report("fullName", NameVerdict(d.fullName)), name) == None
    ensures FindError(PositionErrors(d.positions), name) == None
    ensures FindError(Report("email", EmailVerdict(d.email)), name) == None
    ensures FindError(PhoneErrors(d), name) == None
  {
    FindInReport("fullName", NameVerdict(d.fullName), name);
    PositionPartOther(d.positions, name);
    FindInReport("email", EmailVerdict(d.email), name);
    assert FindError(PhoneErrors(d), name) == None;
  }

  /** Each url field is reported only when present, non-empty and malformed. */
  lemma FormErrorsUrl(d: Signature, name: string, url: Option<string>)
    requires (name == "googleScholar" && url == SocialUrl(d.social, "googleScholar")) ||
             (name == "linkedin" && url == SocialUrl(d.social, "linkedin")) ||
             (name == "orcid" && url == d.orcid) ||
             (name == "website" && url == d.website)
    ensures FindError(FormErrors(d), name).Some? <==> TruthyOpt(url) && !MatchesUrlPattern(url.value)
    ensures FindError(FormErrors(d), name).Some? ==> FindError(FormErrors(d), name) == Some(UrlMessage)
  {
    FormErrorsUrlVerdict(d, name, url);
  }

  // ---------------------------------------------------------------------------
  // Order of the error list
  // ---------------------------------------------------------------------------

  /** The place of a field name in the order `validateForm` checks the fields. */
  function FieldRank(f: string): nat {
    if f == "fullName" then 0
    else if f == "positions" || (|f| > 9 && f[..9] == "position-") then 1
    else if f == "email" then 2
    else if f == "phone" then 3
    else if f == "googleScholar" then 4
    else if f == "linkedin" then 5
    else if f == "orcid" then 6
    else 7
  }

  lemma UrlFieldRanks()
    ensures FieldRank("googleScholar") == 4 && FieldRank("linkedin") == 5
    ensures FieldRank("orcid") == 6 && FieldRank("website") == 7
  {
    assert "googleScholar"[..9][0] == 'g' && "linkedin"[0] == 'l';
    assert "position-"[0] == 'p';
  }

  predicate RankSorted(errs: seq<ValidationError>) {
    forall i, j :: 0 <= i < j < |errs| ==> FieldRank(errs[i].field) <= FieldRank(errs[j].field)
  }

  predicate RanksWithin(errs: seq<ValidationError>, lo: nat, hi: nat) {
    forall i :: 0 <= i < |errs| ==> lo <= FieldRank(errs[i].field) <= hi
  }

  lemma SortedConcat(a: seq<ValidationError>, b: seq<ValidationError>, lo: nat, mid: nat, hi: nat)
    requires lo <= mid <= hi
    requires RankSorted(a) && RankSorted(b) && RanksWithin(a, lo, mid) && RanksWithin(b, mid, hi)
    ensures RankSorted(a + b) && RanksWithin(a + b, lo, hi)
  {
    forall i | 0 <= i < |a + b| ensures lo <= FieldRank((a + b)[i].field) <= hi {
      if i < |a| {
        assert (a + b)[i] == a[i];
      } else {
        assert (a + b)[i] == b[i - |a|];
      }
    }
    forall i, j | 0 <= i < j < |a + b|
      ensures FieldRank((a + b)[i].field) <= FieldRank((a + b)[j].field)
    {
      if j < |a| {
        assert (a + b)[i] == a[i] && (a + b)[j] == a[j];
      } else if i >= |a| {
        assert (a + b)[i] == b[i - |a|] && (a + b)[j] == b[j - |a|];
      } else {
        assert (a + b)[i] == a[i] && (a + b)[j] == b[j - |a|];
      }
    }
  }

  lemma {:induction false} KeyedErrorsRank(verdicts: seq<Option<string>>, n: nat)
    requires n <= |verdicts|
    ensures RankSorted(KeyedErrors(verdicts, n)) && RanksWithin(KeyedErrors(verdicts, n), 1, 1)
  {
    if n > 0 {
      KeyedErrorsRank(verdicts, n - 1);
      var key := PositionKey(n - 1);
      assert key[..9] == "position-";
      assert FieldRank(key) == 1;
      SortedConcat(KeyedErrors(verdicts, n - 1), Report(key, verdicts[n - 1]), 1, 1, 1);
    }
  }

  lemma {:induction false} UrlErrorsUpToRank(d: Signature, n: nat)
    requires n <= 4
    ensures RankSorted(UrlErrorsUpTo(UrlFields(d), n)) && RanksWithin(UrlErrorsUpTo(UrlFields(d), n), 4, 7)
    ensures RanksWithin(UrlErrorsUpTo(UrlFields(d), n), 4, 3 + n)
  {
    if n > 0 {
      var fs := UrlFields(d);
      UrlErrorsUpToRank(d, n - 1);
      assert FieldRank(fs[n - 1].0) == 3 + n by { UrlFieldRanks(); }
      var part := if TruthyOpt(fs[n - 1].1) then Report(fs[n - 1].0, UrlVerdict(fs[n - 1].1.value)) else [];
      SortedConcat(UrlErrorsUpTo(fs, n - 1), part, 4, 3 + n, 3 + n);
    }
  }

  lemma PositionErrorsRank(ps: seq<string>)
    ensures RankSorted(PositionErrors(ps)) && RanksWithin(PositionErrors(ps), 1, 1)
  {
    var filled := FilledPositions(ps);
    if |filled| > 0 {
      KeyedErrorsRank(PositionVerdicts(filled), |filled|);
    } else {
      assert FieldRank("positions") == 1;
    }
  }

  /** A single report lies at the rank of its field. */
  lemma ReportRank(field: string, verdict: Option<string>)
    ensures RankSorted(Report(field, verdict))
    ensures RanksWithin(Report(field, verdict), FieldRank(field), FieldRank(field))
  {
  }

  /** `validateForm` lists its errors in the order fullName, positions, email, phone,
      googleScholar, linkedin, orcid, website. */
  lemma FormErrorsOrdered(d: Signature)
    ensures RankSorted(FormErrors(d))
  {
    var nameErrs := Report("fullName", NameVerdict(d.fullName));
    var posErrs := PositionErrors(d.positions);
    var emailErrs := Report("email", EmailVerdict(d.email));
    var phoneErrs := PhoneErrors(d);
    var urlErrs := UrlErrorsUpTo(UrlFields(d), 4);
    assert FormErrors(d) == nameErrs + posErrs + emailErrs + phoneErrs + urlErrs;
    ReportRank("fullName", NameVerdict(d.fullName));
    PositionErrorsRank(d.positions);
    ReportRank("email", EmailVerdict(d.email));
    ReportRank("phone", PhoneVerdict(d.phone));
    assert RankSorted(phoneErrs) && RanksWithin(phoneErrs, 3, 3);
    UrlErrorsUpToRank(d, 4);
    SortedParts(nameErrs, posErrs, emailErrs, phoneErrs, urlErrs);
  }

  /** Five sorted parts at the ranks of fullName, positions, email, phone and the url
      fields join into a sorted list. */
  lemma SortedParts(a: seq<ValidationError>, b: seq<ValidationError>, c: seq<ValidationError>,
                    p: seq<ValidationError>, u: seq<ValidationError>)
    requires RankSorted(a) && RankSorted(b) && RankSorted(c) && RankSorted(p) && RankSorted(u)
    requires RanksWithin(a, 0, 0) && RanksWithin(b, 1, 1) && RanksWithin(c, 2, 2)
    requires RanksWithin(p, 3, 3) && RanksWithin(u, 4, 7)
    ensures RankSorted(a + b + c + p + u)
  {
    SortedConcat(a, b, 0, 1, 1);
    SortedConcat(a + b, c, 0, 2, 2);
    SortedConcat(a + b + c, p, 0, 3, 3);
    SortedConcat(a + b + c + p, u, 0, 4, 7);
  }

  /** No two entries of the list name the same field. */
  predicate FieldsDistinct(errs: seq<ValidationError>) {
    forall i, j :: 0 <= i < j < |errs| ==> errs[i].field != errs[j].field
  }

  /** Joining two lists whose ranks lie in disjoint ranges keeps the fields distinct. */
  lemma DistinctConcat(a: seq<ValidationError>, b: seq<ValidationError>, lo: nat, mid: nat, hi: nat)
    requires lo <= mid + 1 && mid < hi
    requires FieldsDistinct(a) && FieldsDistinct(b) && RanksWithin(a, lo, mid) && RanksWithin(b, mid + 1, hi)
    ensures FieldsDistinct(a + b) && RanksWithin(a + b, lo, hi)
  {
    forall i | 0 <= i < |a + b| ensures lo <= FieldRank((a + b)[i].field) <= hi {
      if i < |a| {
        assert (a + b)[i] == a[i];
      } else {
        assert (a + b)[i] == b[i - |a|];
      }
    }
    forall i, j | 0 <= i < j < |a + b| ensures (a + b)[i].field != (a + b)[j].field {
      if j < |a| {
        assert (a + b)[i] == a[i] && (a + b)[j] == a[j];
      } else if i >= |a| {
        assert (a + b)[i] == b[i - |a|] && (a + b)[j] == b[j - |a|];
      } else {
        assert (a + b)[i] == a[i] && (a + b)[j] == b[j - |a|];
      }
    }
  }

  /** The keyed position entries have distinct keys, none of them a key of a later
      index. */
  lemma {:induction false} KeyedErrorsDistinct(verdicts: seq<Option<string>>, n: nat)
    requires n <= |verdicts|
    ensures FieldsDistinct(KeyedErrors(verdicts, n))
    ensures forall i, k :: 0 <= i < |KeyedErrors(verdicts, n)| && n <= k ==>
              KeyedErrors(verdicts, n)[i].field != PositionKey(k)
  {
    if n > 0 {
      KeyedErrorsDistinct(verdicts, n - 1);
      var pre := KeyedErrors(verdicts, n - 1);
      var key := PositionKey(n - 1);
      var e := pre + Report(key, verdicts[n - 1]);
      assert e == KeyedErrors(verdicts, n);
      forall i, k | 0 <= i < |e| && n <= k ensures e[i].field != PositionKey(k) {
        if i < |pre| {
          assert e[i] == pre[i];
        } else {
          PositionKeyInjective(n - 1, k);
        }
      }
      forall i, j | 0 <= i < j < |e| ensures e[i].field != e[j].field {
        assert e[i] == pre[i];
        if j < |pre| {
          assert e[j] == pre[j];
        } else {
          assert e[j].field == key;
        }
      }
    }
  }

  /** The position part names each key once. */
  lemma PositionErrorsDistinct(ps: seq<string>)
    ensures FieldsDistinct(PositionErrors(ps))
  {
    var filled := FilledPositions(ps);
    if |filled| > 0 {
      KeyedErrorsDistinct(PositionVerdicts(filled), |filled|);
    }
  }

  /** The url entries have distinct fields, each at its own rank. */
  lemma {:induction false} UrlErrorsDistinct(d: Signature, n: nat)
    requires n <= 4
    ensures FieldsDistinct(UrlErrorsUpTo(UrlFields(d), n))
  {
    if n > 0 {
      var fs := UrlFields(d);
      UrlErrorsDistinct(d, n - 1);
      UrlErrorsUpToRank(d, n - 1);
      assert FieldRank(fs[n - 1].0) == 3 + n by { UrlFieldRanks(); }
      var part := if TruthyOpt(fs[n - 1].1) then Report(fs[n - 1].0, UrlVerdict(fs[n - 1].1.value)) else [];
      DistinctConcat(UrlErrorsUpTo(fs, n - 1), part, 4, 2 + n, 3 + n);
    }
  }

  /** `validateForm` reports each field at most once: one `positions` entry or one
      entry per `position-k`, and at most one entry for every other field. */
  lemma FormErrorsFieldsDistinct(d: Signature)
    ensures FieldsDistinct(FormErrors(d))
  {
    var nameErrs := Report("fullName", NameVerdict(d.fullName));
    var posErrs := PositionErrors(d.positions);
    var emailErrs := Report("email", EmailVerdict(d.email));
    var phoneErrs := PhoneErrors(d);
    var urlErrs := UrlErrorsUpTo(UrlFields(d), 4);
    assert FormErrors(d) == nameErrs + posErrs + emailErrs + phoneErrs + urlErrs;
    ReportRank("fullName", NameVerdict(d.fullName));
    PositionErrorsRank(d.positions);
    PositionErrorsDistinct(d.positions);
    ReportRank("email", EmailVerdict(d.email));
    ReportRank("phone", PhoneVerdict(d.phone));
    assert RanksWithin(phoneErrs, 3, 3);
    UrlErrorsUpToRank(d, 4);
    UrlErrorsDistinct(d, 4);
    DistinctParts(nameErrs, posErrs, emailErrs, phoneErrs, urlErrs);
  }

  /** Five parts at the ranks of fullName, positions, email, phone and the url fields,
      each without repeats, join without repeats. */
  lemma DistinctParts(a: seq<ValidationError>, b: seq<ValidationError>, c: seq<ValidationError>,
                      p: seq<ValidationError>, u: seq<ValidationError>)
    requires FieldsDistinct(a) && FieldsDistinct(b) && FieldsDistinct(c) && FieldsDistinct(p) && FieldsDistinct(u)
    requires RanksWithin(a, 0, 0) && RanksWithin(b, 1, 1) && RanksWithin(c, 2, 2)
    requires RanksWithin(p, 3, 3) && RanksWithin(u, 4, 7)
    ensures FieldsDistinct(a + b + c + p + u)
  {
    DistinctConcat(a, b, 0, 0, 1);
    DistinctConcat(a + b, c, 0, 1, 2);
    DistinctConcat(a + b + c, p, 0, 2, 3);
    DistinctConcat(a + b + c + p, u, 0, 3, 7);
  }

  /** In a list without repeated fields, a field that is found has exactly one entry. */
  lemma FoundOnce(errs: seq<ValidationError>, name: string)
    requires FieldsDistinct(errs) && FindError(errs, name).Some?
    ensures exists i :: 0 <= i < |errs| && errs[i] == ValidationError(name, FindError(errs, name).value) &&
                        forall j :: 0 <= j < |errs| && errs[j].field == name ==> j == i
  {
    FindErrorMeaning(errs, name);
  }

  /** When no position is filled the list holds exactly one `positions` entry, with the
      required-positions message; otherwise it holds none. */
  lemma FormErrorsOnePositionsEntry(d: Signature)
    ensures (forall i :: 0 <= i < |d.positions| ==> IsBlank(d.positions[i])) ==>
              exists i :: 0 <= i < |FormErrors(d)| && FormErrors(d)[i] == ValidationError("positions", PositionsRequired) &&
                          forall j :: 0 <= j < |FormErrors(d)| && FormErrors(d)[j].field == "positions" ==> j == i
    ensures (exists i :: 0 <= i < |d.positions| && !IsBlank(d.positions[i])) ==>
              forall j :: 0 <= j < |FormErrors(d)| ==> FormErrors(d)[j].field != "positions"
  {
    FormErrorsPositions(d);
    FormErrorsFieldsDistinct(d);
    FindErrorMeaning(FormErrors(d), "positions");
    if FindError(FormErrors(d), "positions").Some? {
      FoundOnce(FormErrors(d), "positions");
    }
  }

  // ---------------------------------------------------------------------------
  // validateForm, clearFieldError and the stored error list
  // ---------------------------------------------------------------------------

  /** The loops of `validateForm`: push one entry per failing check, in order. */
  method CollectFormErrors(d: Signature) returns (errs: seq<ValidationError>)
    ensures errs == FormErrors(d)
  {
    errs := [];
    var nameError := ValidateField("fullName", d.fullName);
    assert nameError == NameVerdict(d.fullName) by { ValidateFieldCases(d.fullName); }
    if nameError.Some? {
      errs := errs + [ValidationError("fullName", nameError.value)];
    }
    assert errs == Report("fullName", NameVerdict(d.fullName));

    ghost var before := errs;
    var filled := FilledPositions(d.positions);
    if |filled| == 0 {
      errs := errs + [ValidationError("positions", PositionsRequired)];
    } else {
      var posErrors := CollectPositionErrors(filled);
      errs := errs + posErrors;
    }
    assert errs == before + PositionErrors(d.positions);

    before := errs;
    var emailError := ValidateField("email", d.email);
    assert emailError == EmailVerdict(d.email) by { ValidateFieldCases(d.email); }
    if emailError.Some? {
      errs := errs + [ValidationError("email", emailError.value)];
    }
    assert errs == before + Report("email", EmailVerdict(d.email));

    before := errs;
    if d.phone != "" {
      var phoneError := ValidateField("phone", d.phone);
      assert phoneError == PhoneVerdict(d.phone) by { ValidateFieldCases(d.phone); }
      if phoneError.Some? {
        errs := errs + [ValidationError("phone", phoneError.value)];
      }
    }
    assert errs == before + PhoneErrors(d);

    var urlErrors := CollectUrlErrors(UrlFields(d));
    errs := errs + urlErrors;
  }

  /** The `forEach` over the filled positions: the k-th one's message goes under `position-k`. */
  method CollectPositionErrors(filled: seq<string>) returns (errs: seq<ValidationError>)
    ensures errs == KeyedErrors(PositionVerdicts(filled), |filled|)
  {
    errs := [];
    var index := 0;
    while index < |filled|
      invariant 0 <= index <= |filled|
      invariant errs == KeyedErrors(PositionVerdicts(filled), index)
    {
      var posError := ValidateField("position", filled[index]);
      assert posError == PositionVerdicts(filled)[index] by { ValidateFieldCases(filled[index]); }
      if posError.Some? {
        errs := errs + [ValidationError(PositionKey(index), posError.value)];
      }
      index := index + 1;
    }
  }

  /** The `forEach` over the url fields: only a truthy value is validated. */
  method CollectUrlErrors(fields: seq<(string, Option<string>)>) returns (errs: seq<ValidationError>)
    ensures errs == UrlErrorsUpTo(fields, |fields|)
  {
    errs := [];
    var j := 0;
    while j < |fields|
      invariant 0 <= j <= |fields|
      invariant errs == UrlErrorsUpTo(fields, j)
    {
      var (field, value) := fields[j];
      ghost var step := if TruthyOpt(value) then Report(field, UrlVerdict(value.value)) else [];
      assert UrlErrorsUpTo(fields, j + 1) == errs + step;
      if value.Some? && value.value != "" {
        var urlError := ValidateField("url", value.value);
        assert urlError == UrlVerdict(value.value) by { ValidateFieldCases(value.value); }
        assert step == Report(field, urlError);
        if urlError.Some? {
          errs := errs + [ValidationError(field, urlError.value)];
        }
      }
      j := j + 1;
    }
  }

  /** `prev.filter(err => err.field !== name)`. */
  function WithoutField(errs: seq<ValidationError>, name: string): (r: seq<ValidationError>)
    ensures |r| <= |errs|
    ensures forall e :: e in r <==> e in errs && e.field != name
  {
    if errs == [] then []
    else (if errs[0].field == name then [] else [errs[0]]) + WithoutField(errs[1..], name)
  }

  /** Clearing keeps the order of the surviving entries: it distributes over concatenation. */
  lemma {:induction false} WithoutFieldConcat(a: seq<ValidationError>, b: seq<ValidationError>, name: string)
    ensures WithoutField(a + b, name) == WithoutField(a, name) + WithoutField(b, name)
  {
    if a == [] {
      assert a + b == b;
    } else {
      assert (a + b)[1..] == a[1..] + b;
      WithoutFieldConcat(a[1..], b, name);
    }
  }

  /** After clearing `name` nothing is found under it, and every other field's message
      is the one it had. */
  lemma {:induction false} FindAfterClear(errs: seq<ValidationError>, name: string, other: string)
    ensures FindError(WithoutField(errs, name), name) == None
    ensures other != name ==> FindError(WithoutField(errs, name), other) == FindError(errs, other)
  {
    if errs != [] {
      FindAfterClear(errs[1..], name, other);
      var head := if errs[0].field == name then [] else [errs[0]];
      FindErrorConcat(head, WithoutField(errs[1..], name), name);
      FindErrorConcat(head, WithoutField(errs[1..], name), other);
    }
  }

  /** The error list the form holds between validations (`errors`/`setErrors`). */
  class ErrorState {
    var errors: seq<ValidationError>

    constructor ()
      ensures errors == []
    {
      errors := [];
    }

    /** `validateForm(data)`: stores and returns the form's error list. */
    method ValidateForm(d: Signature) returns (r: seq<ValidationError>)
      modifies this
      ensures r == FormErrors(d) && errors == r
    {
      r := CollectFormErrors(d);
      errors := r;
    }

    /** `getFieldError(name)`. */
    function GetFieldError(name: string): Option<string>
      reads this
    {
      FindError(errors, name)
    }

    /** `clearFieldError(name)`: drops every entry for `name`, keeping the rest in order. */
    method ClearFieldError(name: string)
      modifies this
      ensures errors == WithoutField(old(errors), name)
      ensures GetFieldError(name) == None
      ensures forall other :: other != name ==> GetFieldError(other) == old(GetFieldError(other))
    {
      forall other | other != name
        ensures FindError(WithoutField(errors, name), other) == FindError(errors, other)
      {
        FindAfterClear(errors, name, other);
      }
      FindAfterClear(errors, name, name);
      errors := WithoutField(errors, name);
    }

    /** `setErrors(list)`. */
    method SetErrors(list: seq<ValidationError>)
      modifies this
      ensures errors == list
    {
      errors := list;
    }

    /** `hasErrors`: some field has a stored message. */
    function HasErrors(): (b: bool)
      reads this
      ensures b <==> errors != []
      ensures b <==> exists name :: GetFieldError(name).Some?
    {
      if errors == [] then false
      else
        assert GetFieldError(errors[0].field).Some?;
        true
    }
  }
}
