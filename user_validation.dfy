/**
 * User-data validation (refactor-patterns/javascript/user_validation.js).
 *
 * Every validator returns the ordered list of error messages it pushes. The
 * single-field validators are functions; `validateAddress` and
 * `validateUserData`, which loop over field lists, are methods proved equal to
 * the specification functions `AddressErrors` and `UserDataErrors`.
 *
 * A submitted value is either a string or an object (an address); a missing
 * key stands for `undefined`.
 */
module UserValidation {
  import opened Common

  datatype Value = Text(text: string) | Record(fields: map<string, string>)

  type UserData = map<string, Value>

  /** The `checkExisting` callbacks, as the sets of names and addresses already in use. */
  datatype Registry = Registry(usernames: set<string>, emails: set<string>)

  /** An entry of `options.customValidations`; an absent or empty message falls back to a default. */
  datatype CustomValidation = CustomValidation(field: string, validator: (Value, UserData) -> bool, message: Option<string>)

  // ---------------------------------------------------------------------------
  // Character classes
  // ---------------------------------------------------------------------------

  /** ECMAScript white space and line terminators: what `trim` removes and `\s` matches. */
  predicate IsSpace(c: char) {
    c == ' ' || c == '\t' || c == '\n' || c == '\r' || c == '\U{B}' || c == '\U{C}'
    || c == '\U{A0}' || c == '\U{1680}' || ('\U{2000}' <= c <= '\U{200A}')
    || c == '\U{2028}' || c == '\U{2029}' || c == '\U{202F}' || c == '\U{205F}'
    || c == '\U{3000}' || c == '\U{FEFF}'
  }

  predicate IsDigit(c: char) { '0' <= c <= '9' }
  predicate IsUpper(c: char) { 'A' <= c <= 'Z' }
  predicate IsLower(c: char) { 'a' <= c <= 'z' }
  predicate IsLetter(c: char) { IsUpper(c) || IsLower(c) }
  predicate IsAlphanumeric(c: char) { IsLetter(c) || IsDigit(c) }
  predicate IsWordChar(c: char) { IsAlphanumeric(c) || c == '_' }

  /** `s.trim() === ''`: the string is empty or white space only. */
  predicate Blank(s: string) { forall i :: 0 <= i < |s| ==> IsSpace(s[i]) }

  predicate AllDigits(s: string) { forall i :: 0 <= i < |s| ==> IsDigit(s[i]) }

  // ---------------------------------------------------------------------------
  // Username
  // ---------------------------------------------------------------------------

  const UsernameRequired := "username is required for registration"
  const UsernameTooShort := "Username must be at least 3 characters long"
  const UsernameTooLong := "Username must be at most 20 characters long"
  const UsernameBadChars := "Username can only contain letters, numbers, and underscores"
  const UsernameTaken := "Username is already taken"

  /** `/^[a-zA-Z0-9_]+$/`, given a non-empty string. */
  predicate AllWordChars(s: string) { forall i :: 0 <= i < |s| ==> IsWordChar(s[i]) }

  predicate UsernameInUse(checkExisting: Option<Registry>, name: string) {
    checkExisting.Some? && name in checkExisting.value.usernames
  }

  /** `validators.validateUsername`: at most one error, the first failing check. */
  function ValidateUsername(username: Option<string>, checkExisting: Option<Registry>): (errors: seq<string>)
    ensures |errors| <= 1
    ensures errors == [] <==>
      username.Some? && 3 <= |username.value| <= 20 && AllWordChars(username.value)
      && !UsernameInUse(checkExisting, username.value)
    ensures username.None? || Blank(username.value) ==> errors == [UsernameRequired]
    // the checks run in order: a later message means every earlier check passed
    ensures errors == [UsernameBadChars] ==> 3 <= |username.value| <= 20
    ensures errors == [UsernameTaken] ==> 3 <= |username.value| <= 20 && AllWordChars(username.value)
    // and the first failing check names the message
    ensures username.Some? && !Blank(username.value) ==>
      var u := username.value;
      && (|u| < 3 ==> errors == [UsernameTooShort])
      && (|u| > 20 ==> errors == [UsernameTooLong])
      && (3 <= |u| <= 20 && !AllWordChars(u) ==> errors == [UsernameBadChars])
      && (3 <= |u| <= 20 && AllWordChars(u) && UsernameInUse(checkExisting, u) ==> errors == [UsernameTaken])
  {
    if username.None? || Blank(username.value) then
      assert username.Some? && |username.value| > 0 ==> !IsWordChar(username.value[0]);
      [UsernameRequired]
    else if |username.value| < 3 then [UsernameTooShort]
    else if |username.value| > 20 then [UsernameTooLong]
    else if !AllWordChars(username.value) then [UsernameBadChars]
    else if UsernameInUse(checkExisting, username.value) then [UsernameTaken]
    else []
  }

  // ---------------------------------------------------------------------------
  // Password
  // ---------------------------------------------------------------------------

  const PasswordRequired := "password is required for registration"
  const PasswordTooShort := "Password must be at least 8 characters long"
  const PasswordNoUpper := "Password must contain at least one uppercase letter"
  const PasswordNoLower := "Password must contain at least one lowercase letter"
  const PasswordNoDigit := "Password must contain at least one number"
  const PasswordNoSpecial := "Password must contain at least one special character"
  const PasswordMismatch := "Password and confirmation do not match"

  predicate HasUpper(s: string) { exists i :: 0 <= i < |s| && IsUpper(s[i]) }
  predicate HasLower(s: string) { exists i :: 0 <= i < |s| && IsLower(s[i]) }
  predicate HasDigit(s: string) { exists i :: 0 <= i < |s| && IsDigit(s[i]) }
  predicate HasSpecial(s: string) { exists i :: 0 <= i < |s| && !IsAlphanumeric(s[i]) }

  /** The five complexity rules, each a regular-expression test in the source. */
  predicate StrongPassword(p: string) {
    |p| >= 8 && HasUpper(p) && HasLower(p) && HasDigit(p) && HasSpecial(p)
  }

  /**
   * `validators.validatePassword`: at most one complexity error, then the
   * confirmation check, which runs whenever a password was given.
   */
  function ValidatePassword(password: Option<string>, confirmPassword: Option<Value>): (errors: seq<string>)
    ensures |errors| <= 2
    ensures errors == [] <==>
      password.Some? && StrongPassword(password.value) && confirmPassword == Some(Text(password.value))
    ensures PasswordMismatch in errors <==>
      password.Some? && !Blank(password.value) && confirmPassword != Some(Text(password.value))
    ensures |errors| == 2 ==> errors[0] != PasswordMismatch && errors[1] == PasswordMismatch
    ensures password.None? || Blank(password.value) ==> errors == [PasswordRequired]
    // the complexity message, if any, is the first failing rule's, in this order
    ensures password.Some? && !Blank(password.value) ==>
      var p := password.value;
      && (|p| < 8 ==> errors[0] == PasswordTooShort)
      && (|p| >= 8 && !HasUpper(p) ==> errors[0] == PasswordNoUpper)
      && (|p| >= 8 && HasUpper(p) && !HasLower(p) ==> errors[0] == PasswordNoLower)
      && (|p| >= 8 && HasUpper(p) && HasLower(p) && !HasDigit(p) ==> errors[0] == PasswordNoDigit)
      && (|p| >= 8 && HasUpper(p) && HasLower(p) && HasDigit(p) && !HasSpecial(p) ==> errors[0] == PasswordNoSpecial)
      && (StrongPassword(p) ==> errors == if confirmPassword != Some(Text(p)) then [PasswordMismatch] else [])
  {
    if password.None? || Blank(password.value) then [PasswordRequired]
    else
      var p := password.value;
      assert HasUpper(p) ==> !Blank(p);
      var complexity :=
        if |p| < 8 then [PasswordTooShort]
        else if !HasUpper(p) then [PasswordNoUpper]
        else if !HasLower(p) then [PasswordNoLower]
        else if !HasDigit(p) then [PasswordNoDigit]
        else if !HasSpecial(p) then [PasswordNoSpecial]
        else [];
      complexity + (if confirmPassword != Some(Text(p)) then [PasswordMismatch] else [])
  }

  // ---------------------------------------------------------------------------
  // Email
  // ---------------------------------------------------------------------------

  const EmailRequired := "Email is required"
  const EmailInvalid := "Email format is invalid"
  const EmailTaken := "Email is already registered"

  /** `[^\s@]` holds at every index of `s` in `[lo, hi)`. */
  predicate NoSpaceOrAt(s: string, lo: nat, hi: nat)
    requires lo <= hi <= |s|
  {
    forall j :: lo <= j < hi ==> !IsSpace(s[j]) && s[j] != '@'
  }

  /**
   * `/^[^\s@]+@[^\s@]+\.[^\s@]+$/` read literally: three non-empty runs free of
   * white space and `@`, the first two separated by `@`, the last two by a dot.
   */
  ghost predicate EmailPattern(s: string) {
    exists i, k :: 0 < i && i + 1 < k < |s| - 1 && s[i] == '@' && s[k] == '.'
      && NoSpaceOrAt(s, 0, i) && NoSpaceOrAt(s, i + 1, k) && NoSpaceOrAt(s, k + 1, |s|)
  }

  /** The index of the first `c` in `s`, or `|s|`. */
  function IndexOf(s: string, c: char): (i: nat)
    ensures i <= |s|
    ensures i < |s| ==> s[i] == c
    ensures forall j :: 0 <= j < i ==> s[j] != c
  {
    if s == [] then 0 else if s[0] == c then 0 else 1 + IndexOf(s[1..], c)
  }

  /** A direct check of the email pattern: the first `@` splits the address. */
  predicate EmailFormat(s: string) {
    var i := IndexOf(s, '@');
    0 < i < |s| && (forall j :: 0 <= j < i ==> !IsSpace(s[j])) && NoSpaceOrAt(s, i + 1, |s|)
    && exists k :: i + 1 < k < |s| - 1 && s[k] == '.'
  }

  lemma EmailFormatIsPattern(s: string)
    ensures EmailFormat(s) <==> EmailPattern(s)
  {
    if EmailFormat(s) {
      EmailFormatMatches(s);
    }
    if EmailPattern(s) {
      EmailPatternPassesFormat(s);
    }
  }

  lemma EmailFormatMatches(s: string)
    requires EmailFormat(s)
    ensures EmailPattern(s)
  {
    var i := IndexOf(s, '@');
    var k :| i + 1 < k < |s| - 1 && s[k] == '.';
    assert NoSpaceOrAt(s, 0, i) && NoSpaceOrAt(s, i + 1, k) && NoSpaceOrAt(s, k + 1, |s|);
  }

  lemma EmailPatternPassesFormat(s: string)
    requires EmailPattern(s)
    ensures EmailFormat(s)
  {
    var a, k :| 0 < a && a + 1 < k < |s| - 1 && s[a] == '@' && s[k] == '.'
      && NoSpaceOrAt(s, 0, a) && NoSpaceOrAt(s, a + 1, k) && NoSpaceOrAt(s, k + 1, |s|);
    FirstAt(s, a);
    NoSpaceOrAtJoin(s, a + 1, k, |s|);
    assert a + 1 < k < |s| - 1 && s[k] == '.';
  }

  /** Two runs free of white space and `@` joined by a dot form one such run. */
  lemma NoSpaceOrAtJoin(s: string, lo: nat, k: nat, hi: nat)
    requires lo <= k < hi <= |s| && s[k] == '.'
    requires NoSpaceOrAt(s, lo, k) && NoSpaceOrAt(s, k + 1, hi)
    ensures NoSpaceOrAt(s, lo, hi)
  {
    forall j | lo <= j < hi ensures !IsSpace(s[j]) && s[j] != '@' {
      if j < k {
        assert NoSpaceOrAt(s, lo, k);
      } else if j > k {
        assert NoSpaceOrAt(s, k + 1, hi);
      }
    }
  }

  /** An `@` with none before it is the first one. */
  lemma FirstAt(s: string, a: nat)
    requires a < |s| && s[a] == '@'
    requires forall j :: 0 <= j < a ==> s[j] != '@'
    ensures IndexOf(s, '@') == a
  {
    var i := IndexOf(s, '@');
    assert i <= a;
    assert i < |s| ==> s[i] == '@';
  }

  predicate EmailInUse(checkExisting: Option<Registry>, email: string) {
    checkExisting.Some? && email in checkExisting.value.emails
  }

  /**
   * `validators.validateEmail`: a missing or blank address is an error only on
   * registration; otherwise the format, then the registry, is checked.
   */
  function ValidateEmail(email: Option<string>, isRegistration: bool, checkExisting: Option<Registry>): (errors: seq<string>)
    ensures |errors| <= 1
    ensures email.None? || Blank(email.value) ==> errors == (if isRegistration then [EmailRequired] else [])
    ensures email.Some? && !Blank(email.value) ==>
      (errors == [] <==> EmailPattern(email.value) && !EmailInUse(checkExisting, email.value))
      && (errors == [EmailInvalid] <==> !EmailPattern(email.value))
      && (errors == [EmailTaken] <==> EmailPattern(email.value) && EmailInUse(checkExisting, email.value))
  {
    if email.None? then (if isRegistration then [EmailRequired] else [])
    else if Blank(email.value) then (if isRegistration then [EmailRequired] else [])
    else
      EmailFormatIsPattern(email.value);
      if !EmailFormat(email.value) then [EmailInvalid]
      else if EmailInUse(checkExisting, email.value) then [EmailTaken]
      else []
  }

  // ---------------------------------------------------------------------------
  // Phone
  // ---------------------------------------------------------------------------

  const PhoneInvalid := "Phone number format is invalid"

  /** `[\d\s\-()]` */
  predicate IsPhoneChar(c: char) { IsDigit(c) || IsSpace(c) || c == '-' || c == '(' || c == ')' }

  /** `[\d\s\-()]{10,15}` matched against a whole string. */
  predicate PhoneBody(t: string) { 10 <= |t| <= 15 && forall i :: 0 <= i < |t| ==> IsPhoneChar(t[i]) }

  /** `/^\+?[\d\s\-()]{10,15}$/` read literally: an optional `+`, then a body. */
  ghost predicate PhonePattern(s: string) {
    exists j :: 0 <= j <= 1 && j <= |s| && (j == 1 ==> s[0] == '+') && PhoneBody(s[j..])
  }

  /** A direct check: a leading `+` is always the optional one, as `+` is not a body character. */
  predicate PhoneFormat(s: string) {
    if |s| > 0 && s[0] == '+' then PhoneBody(s[1..]) else PhoneBody(s)
  }

  lemma PhoneFormatIsPattern(s: string)
    ensures PhoneFormat(s) <==> PhonePattern(s)
  {
    assert s[0..] == s;
    if |s| > 0 && s[0] == '+' {
      assert !PhoneBody(s) by { assert !IsPhoneChar(s[0]); }
    }
  }

  /**
   * `validators.validatePhone`: the field is optional; an object is tested
   * through its string form, which never matches.
   */
  function ValidatePhone(phone: Option<Value>): (errors: seq<string>)
    ensures errors == [] <==> phone.None? || phone == Some(Text("")) || (phone.value.Text? && PhonePattern(phone.value.text))
    ensures errors == [] || errors == [PhoneInvalid]
  {
    match phone
    case None => []
    case Some(Text(s)) =>
      PhoneFormatIsPattern(s);
      if s == "" then [] else if PhoneFormat(s) then [] else [PhoneInvalid]
    case Some(Record(_)) => [PhoneInvalid]
  }

  // ---------------------------------------------------------------------------
  // Postal codes
  // ---------------------------------------------------------------------------

  /** US: `/^\d{5}(-\d{4})?$/` */
  predicate UsPostcode(z: string) {
    (|z| == 5 && AllDigits(z)) || (|z| == 10 && AllDigits(z[..5]) && z[5] == '-' && AllDigits(z[6..]))
  }

  /** CA: `/^[A-Za-z]\d[A-Za-z] \d[A-Za-z]\d$/` */
  predicate CaPostcode(z: string) {
    |z| == 7 && IsLetter(z[0]) && IsDigit(z[1]) && IsLetter(z[2]) && z[3] == ' '
    && IsDigit(z[4]) && IsLetter(z[5]) && IsDigit(z[6])
  }

  /** UK outward code: `[A-Z]{1,2}\d[A-Z\d]?` */
  predicate UkOutward(t: string) {
    (2 <= |t| <= 3 && IsUpper(t[0]) && IsDigit(t[1]) && (|t| == 3 ==> IsUpper(t[2]) || IsDigit(t[2])))
    || (3 <= |t| <= 4 && IsUpper(t[0]) && IsUpper(t[1]) && IsDigit(t[2]) && (|t| == 4 ==> IsUpper(t[3]) || IsDigit(t[3])))
  }

  /** UK inward code: `\d[A-Z]{2}` */
  predicate UkInward(t: string) { |t| == 3 && IsDigit(t[0]) && IsUpper(t[1]) && IsUpper(t[2]) }

  /** UK: `/^[A-Z]{1,2}\d[A-Z\d]? \d[A-Z]{2}$/` read literally: some space splits outward and inward codes. */
  ghost predicate UkPattern(z: string) {
    exists k :: 0 <= k < |z| && z[k] == ' ' && UkOutward(z[..k]) && UkInward(z[k + 1..])
  }

  /** A direct check: the inward code is always the last three characters. */
  predicate UkPostcode(z: string) {
    |z| >= 4 && z[|z| - 4] == ' ' && UkOutward(z[..|z| - 4]) && UkInward(z[|z| - 3..])
  }

  lemma UkPostcodeIsPattern(z: string)
    ensures UkPostcode(z) <==> UkPattern(z)
  {
    if UkPattern(z) {
      var k :| 0 <= k < |z| && z[k] == ' ' && UkOutward(z[..k]) && UkInward(z[k + 1..]);
      assert k == |z| - 4;
    }
  }

  /** The countries that `countryZipFormats` knows. */
  predicate KnownCountry(country: string) { country == "US" || country == "CA" || country == "UK" }

  predicate PostcodeMatches(country: string, zip: string)
    requires KnownCountry(country)
  {
    if country == "US" then UsPostcode(zip)
    else if country == "CA" then CaPostcode(zip)
    else UkPostcode(zip)
  }

  lemma PostcodeExamples()
    ensures UsPostcode("90210") && UsPostcode("90210-1234") && !UsPostcode("9021")
    ensures CaPostcode("K1A 0B1") && !CaPostcode("K1A0B1")
    ensures UkPostcode("SW1A 1AA") && UkPostcode("M1 1AE") && !UkPostcode("sw1a 1aa")
  {
    assert !UkOutward("sw1a") by { assert !IsUpper('s'); }
  }

  // ---------------------------------------------------------------------------
  // Address
  // ---------------------------------------------------------------------------

  const AddressFields := ["street", "city", "zip", "country"]
  const AddressNotObject := "Address must be an object with required fields"

  function FieldRequired(field: string): string { "Address " + field + " is required" }
  function PostcodeInvalid(country: string): string { "Invalid " + country + " postal code format" }

  /** `!address[field] || address[field].trim() === ''` */
  predicate FieldMissing(fields: map<string, string>, name: string) {
    name !in fields || Blank(fields[name])
  }

  /** One `Address <field> is required` per missing field, in the order of `names`. */
  function MissingFieldErrors(names: seq<string>, fields: map<string, string>): (errors: seq<string>)
    ensures |errors| <= |names|
    ensures errors == [] <==> forall i :: 0 <= i < |names| ==> !FieldMissing(fields, names[i])
  {
    if names == [] then []
    else
      var last := names[|names| - 1];
      MissingFieldErrors(names[..|names| - 1], fields) + (if FieldMissing(fields, last) then [FieldRequired(last)] else [])
  }

  /** `address.zip && address.country` are both non-empty and the country has a format the zip fails. */
  predicate PostcodeRejected(fields: map<string, string>) {
    "zip" in fields && fields["zip"] != "" && "country" in fields && fields["country"] != ""
    && KnownCountry(fields["country"]) && !PostcodeMatches(fields["country"], fields["zip"])
  }

  function PostcodeErrors(fields: map<string, string>): (errors: seq<string>)
    ensures errors == [] <==> !PostcodeRejected(fields)
  {
    if PostcodeRejected(fields) then [PostcodeInvalid(fields["country"])] else []
  }

  /** What `validators.validateAddress` returns. */
  function AddressErrors(address: Option<Value>): (errors: seq<string>)
    ensures |errors| <= 5
    // `undefined` or `''`: the address is optional
    ensures address.None? || address == Some(Text("")) ==> errors == []
    // any other non-object value: the single type message
    ensures address.Some? && address.value.Text? && address.value.text != "" ==> errors == [AddressNotObject]
  {
    match address
    case None => []
    case Some(Text(s)) => if s == "" then [] else [AddressNotObject]
    case Some(Record(fields)) => MissingFieldErrors(AddressFields, fields) + PostcodeErrors(fields)
  }

  /** `validators.validateAddress` */
  method ValidateAddress(address: Option<Value>) returns (errors: seq<string>)
    ensures errors == AddressErrors(address)
  {
    errors := [];
    if address.None? || address == Some(Text("")) {
      return;
    }
    if address.value.Text? {
      errors := errors + [AddressNotObject];
      return;
    }
    var fields := address.value.fields;
    var requiredFields := AddressFields;
    for i := 0 to |requiredFields|
      invariant errors == MissingFieldErrors(requiredFields[..i], fields)
    {
      var field := requiredFields[i];
      assert requiredFields[..i + 1][..i] == requiredFields[..i];
      if field !in fields || Blank(fields[field]) {
        errors := errors + [FieldRequired(field)];
      }
    }
    assert requiredFields[..|requiredFields|] == requiredFields;
    if "zip" in fields && fields["zip"] != "" && "country" in fields && fields["country"] != "" {
      var country := fields["country"];
      if KnownCountry(country) && !PostcodeMatches(country, fields["zip"]) {
        errors := errors + [PostcodeInvalid(country)];
      }
    }
  }

  lemma FieldRequiredInjective(a: string, b: string)
    requires FieldRequired(a) == FieldRequired(b)
    ensures a == b
  {
    var m := FieldRequired(a);
    assert a == m[8..|m| - 12];
    assert b == m[8..|m| - 12];
  }

  lemma {:induction false} MissingFieldReported(names: seq<string>, fields: map<string, string>, name: string)
    ensures FieldRequired(name) in MissingFieldErrors(names, fields) <==> name in names && FieldMissing(fields, name)
  {
    if names != [] {
      var init, last := names[..|names| - 1], names[|names| - 1];
      assert names == init + [last];
      MissingFieldReported(init, fields, name);
      if FieldRequired(name) == FieldRequired(last) {
        FieldRequiredInjective(name, last);
      }
    }
  }

  /** A field's message occurs once per listing of the field when it is missing, and never otherwise. */
  lemma {:induction false} MissingFieldCount(names: seq<string>, fields: map<string, string>, name: string)
    ensures Count(MissingFieldErrors(names, fields), FieldRequired(name))
            == if FieldMissing(fields, name) then Count(names, name) else 0
  {
    if names != [] {
      var init, last := names[..|names| - 1], names[|names| - 1];
      assert names == init + [last];
      MissingFieldCount(init, fields, name);
      CountAppend(init, [last], name);
      var tail := if FieldMissing(fields, last) then [FieldRequired(last)] else [];
      CountAppend(MissingFieldErrors(init, fields), tail, FieldRequired(name));
      if FieldRequired(name) == FieldRequired(last) {
        FieldRequiredInjective(name, last);
      }
    }
  }

  /** The messages follow the order of `names`: an earlier missing field is reported before a later one. */
  lemma {:induction false} MissingFieldOrder(names: seq<string>, fields: map<string, string>, i: nat, j: nat)
    requires i < j < |names| && FieldMissing(fields, names[i]) && FieldMissing(fields, names[j])
    ensures exists p, q ::
              && 0 <= p < q < |MissingFieldErrors(names, fields)|
              && MissingFieldErrors(names, fields)[p] == FieldRequired(names[i])
              && MissingFieldErrors(names, fields)[q] == FieldRequired(names[j])
  {
    var init, last := names[..|names| - 1], names[|names| - 1];
    var before, errors := MissingFieldErrors(init, fields), MissingFieldErrors(names, fields);
    assert errors[..|before|] == before;
    if j == |names| - 1 {
      assert init[i] == names[i];
      MissingFieldReported(init, fields, names[i]);
      var p :| 0 <= p < |before| && before[p] == FieldRequired(names[i]);
      assert errors[p] == FieldRequired(names[i]);
      assert errors[|before|] == FieldRequired(names[j]);
    } else {
      assert init[i] == names[i] && init[j] == names[j];
      MissingFieldOrder(init, fields, i, j);
      var p, q :| 0 <= p < q < |before| && before[p] == FieldRequired(names[i]) && before[q] == FieldRequired(names[j]);
      assert errors[p] == before[p] && errors[q] == before[q];
      assert exists p', q' :: 0 <= p' < q' < |errors| && errors[p'] == FieldRequired(names[i]) && errors[q'] == FieldRequired(names[j]);
    }
  }

  /** Each of street, city, zip and country is reported once when it is absent or blank, and never otherwise. */
  lemma AddressFieldCount(fields: map<string, string>, name: string)
    requires name in AddressFields
    ensures Count(AddressErrors(Some(Record(fields))), FieldRequired(name)) == if FieldMissing(fields, name) then 1 else 0
  {
    MissingFieldCount(AddressFields, fields, name);
    assert Count(AddressFields, name) == 1 by {
      var a := AddressFields;
      assert a[1..][1..][1..][1..] == [];
    }
    CountAppend(MissingFieldErrors(AddressFields, fields), PostcodeErrors(fields), FieldRequired(name));
    if PostcodeRejected(fields) {
      assert FieldRequired(name)[0] != PostcodeInvalid(fields["country"])[0];
      assert [PostcodeInvalid(fields["country"])][1..] == [];
    }
  }

  /** The missing-field messages come in the order street, city, zip, country. */
  lemma AddressFieldOrder(fields: map<string, string>, i: nat, j: nat)
    requires i < j < |AddressFields| && FieldMissing(fields, AddressFields[i]) && FieldMissing(fields, AddressFields[j])
    ensures var errors := AddressErrors(Some(Record(fields)));
      exists p, q :: 0 <= p < q < |errors|
        && errors[p] == FieldRequired(AddressFields[i]) && errors[q] == FieldRequired(AddressFields[j])
  {
    var missing, errors := MissingFieldErrors(AddressFields, fields), AddressErrors(Some(Record(fields)));
    MissingFieldOrder(AddressFields, fields, i, j);
    var p, q :| 0 <= p < q < |missing|
      && missing[p] == FieldRequired(AddressFields[i]) && missing[q] == FieldRequired(AddressFields[j]);
    assert errors[p] == missing[p] && errors[q] == missing[q];
  }

  /** A rejected postcode gives exactly one message, and it comes after every missing-field message. */
  lemma PostcodeMessageLast(fields: map<string, string>)
    requires PostcodeRejected(fields)
    ensures var errors := AddressErrors(Some(Record(fields)));
      && errors != [] && errors[|errors| - 1] == PostcodeInvalid(fields["country"])
      && Count(errors, PostcodeInvalid(fields["country"])) == 1
  {
    var e := PostcodeInvalid(fields["country"]);
    PostcodeMessageNotMissing(AddressFields, fields, fields["country"]);
    CountAppend(MissingFieldErrors(AddressFields, fields), [e], e);
    assert [e][1..] == [];
  }

  /**
   * Each of street, city, zip and country is reported as required exactly when
   * it is absent or blank.
   */
  lemma AddressFieldReported(fields: map<string, string>, name: string)
    requires name in AddressFields
    ensures FieldRequired(name) in AddressErrors(Some(Record(fields))) <==> FieldMissing(fields, name)
  {
    MissingFieldReported(AddressFields, fields, name);
    if PostcodeRejected(fields) {
      assert FieldRequired(name)[0] != PostcodeInvalid(fields["country"])[0];
    }
  }

  lemma PostcodeInvalidInjective(a: string, b: string)
    requires PostcodeInvalid(a) == PostcodeInvalid(b)
    ensures a == b
  {
    var m := PostcodeInvalid(a);
    assert a == m[8..|m| - 19];
    assert b == m[8..|m| - 19];
  }

  /**
   * The postcode is checked only for US, CA and UK addresses, and only when
   * zip and country are both non-empty; the message names the country.
   */
  lemma PostcodeReported(fields: map<string, string>, country: string)
    ensures PostcodeInvalid(country) in AddressErrors(Some(Record(fields)))
            <==> PostcodeRejected(fields) && country == fields["country"]
  {
    var e := PostcodeInvalid(country);
    PostcodeMessageNotMissing(AddressFields, fields, country);
    if PostcodeRejected(fields) && e == PostcodeInvalid(fields["country"]) {
      PostcodeInvalidInjective(country, fields["country"]);
    }
  }

  lemma {:induction false} PostcodeMessageNotMissing(names: seq<string>, fields: map<string, string>, country: string)
    ensures PostcodeInvalid(country) !in MissingFieldErrors(names, fields)
  {
    if names != [] {
      var last := names[|names| - 1];
      PostcodeMessageNotMissing(names[..|names| - 1], fields, country);
      assert PostcodeInvalid(country)[0] != FieldRequired(last)[0];
    }
  }

  /** An address with all four fields filled in and an acceptable postcode has no errors. */
  lemma CompleteAddressAccepted(fields: map<string, string>)
    requires forall name :: name in AddressFields ==> !FieldMissing(fields, name)
    requires "zip" in fields && "country" in fields
    requires KnownCountry(fields["country"]) ==> PostcodeMatches(fields["country"], fields["zip"])
    ensures AddressErrors(Some(Record(fields))) == []
  {
    assert forall i :: 0 <= i < |AddressFields| ==> AddressFields[i] in AddressFields;
  }

  // ---------------------------------------------------------------------------
  // validateUserData
  // ---------------------------------------------------------------------------

  const RegistrationFields := ["username", "email", "password", "confirmPassword"]
  const ProfileFields := ["firstName", "lastName", "dateOfBirth", "address"]
  const TypeError := "TypeError: trim is not a function"

  function RequiredMessage(field: string, isRegistration: bool): string {
    field + " is required" + (if isRegistration then " for registration" else "")
  }

  function EmptyMessage(field: string): string { field + " cannot be empty if provided" }

  /** `!userData[field] || userData[field].toString().trim() === ''`; an object is never blank. */
  predicate Missing(data: UserData, field: string) {
    field !in data || (data[field].Text? && Blank(data[field].text))
  }

  /** `userData[field] !== undefined && userData[field].toString().trim() === ''` */
  predicate PresentButBlank(data: UserData, field: string) {
    field in data && data[field].Text? && Blank(data[field].text)
  }

  /** The required-field loop: one message per missing field, in order. */
  function RequiredErrors(fields: seq<string>, data: UserData, isRegistration: bool): (errors: seq<string>)
    ensures |errors| <= |fields|
    ensures errors == [] <==> forall i :: 0 <= i < |fields| ==> !Missing(data, fields[i])
  {
    if fields == [] then []
    else
      var last := fields[|fields| - 1];
      RequiredErrors(fields[..|fields| - 1], data, isRegistration)
      + (if Missing(data, last) then [RequiredMessage(last, isRegistration)] else [])
  }

  /** The profile loop: one message per present but blank field, in order. */
  function EmptyErrors(fields: seq<string>, data: UserData): (errors: seq<string>)
    ensures |errors| <= |fields|
    ensures errors == [] <==> forall i :: 0 <= i < |fields| ==> !PresentButBlank(data, fields[i])
  {
    if fields == [] then []
    else
      var last := fields[|fields| - 1];
      EmptyErrors(fields[..|fields| - 1], data) + (if PresentButBlank(data, last) then [EmptyMessage(last)] else [])
  }

  function CustomMessage(v: CustomValidation): string {
    if v.message.Some? && v.message.value != "" then v.message.value else "Invalid value for " + v.field
  }

  /** The custom-validation loop: a validation runs only when its field is present. */
  function CustomErrors(validations: seq<CustomValidation>, data: UserData): (errors: seq<string>)
    ensures |errors| <= |validations|
    ensures errors == [] <==> forall i :: 0 <= i < |validations| && validations[i].field in data ==>
      validations[i].validator(data[validations[i].field], data)
  {
    if validations == [] then []
    else
      var v := validations[|validations| - 1];
      CustomErrors(validations[..|validations| - 1], data)
      + (if v.field in data && !v.validator(data[v.field], data) then [CustomMessage(v)] else [])
  }

  /** The value of a string field, `undefined` when absent. */
  function TextField(data: UserData, field: string): Option<string> {
    if field in data && data[field].Text? then Some(data[field].text) else None
  }

  function Field(data: UserData, field: string): Option<Value> {
    if field in data then Some(data[field]) else None
  }

  predicate IsObject(data: UserData, field: string) { field in data && data[field].Record? }

  /** The validators call `trim` on these fields; on an object that throws. */
  predicate ThrowsTypeError(data: UserData, isRegistration: bool) {
    IsObject(data, "email") || (isRegistration && (IsObject(data, "username") || IsObject(data, "password")))
  }

  function RequiredFields(isRegistration: bool): seq<string> {
    if isRegistration then RegistrationFields else ProfileFields
  }

  /** The username and password checks of a registration, or the empty-value checks of a profile update. */
  function ModeErrors(data: UserData, isRegistration: bool, checkExisting: Option<Registry>): seq<string> {
    if isRegistration then
      ValidateUsername(TextField(data, "username"), checkExisting)
      + ValidatePassword(TextField(data, "password"), Field(data, "confirmPassword"))
    else EmptyErrors(ProfileFields, data)
  }

  /** The checks both modes run, from the email onwards. */
  function SharedErrors(data: UserData, isRegistration: bool, checkExisting: Option<Registry>,
                        dobErrors: seq<string>, customValidations: seq<CustomValidation>): seq<string> {
    ValidateEmail(TextField(data, "email"), isRegistration, checkExisting)
    + dobErrors
    + AddressErrors(Field(data, "address"))
    + ValidatePhone(Field(data, "phone"))
    + CustomErrors(customValidations, data)
  }

  /**
   * What `validateUserData` returns. `dobErrors` stands for the result of
   * `validateDateOfBirth`, which reads the clock.
   */
  function UserDataErrors(data: UserData, isRegistration: bool, checkExisting: Option<Registry>,
                          dobErrors: seq<string>, customValidations: seq<CustomValidation>): Result<seq<string>>
  {
    if ThrowsTypeError(data, isRegistration) then Err(TypeError)
    else
      Ok(RequiredErrors(RequiredFields(isRegistration), data, isRegistration)
         + ModeErrors(data, isRegistration, checkExisting)
         + SharedErrors(data, isRegistration, checkExisting, dobErrors, customValidations))
  }

  /** The loop over the required fields of `validateUserData`. */
  method CheckRequired(requiredFields: seq<string>, userData: UserData, isRegistration: bool) returns (errors: seq<string>)
    ensures errors == RequiredErrors(requiredFields, userData, isRegistration)
  {
    errors := [];
    for i := 0 to |requiredFields|
      invariant errors == RequiredErrors(requiredFields[..i], userData, isRegistration)
    {
      var field := requiredFields[i];
      assert requiredFields[..i + 1][..i] == requiredFields[..i];
      if field !in userData || (userData[field].Text? && Blank(userData[field].text)) {
        errors := errors + [RequiredMessage(field, isRegistration)];
      }
    }
    assert requiredFields[..|requiredFields|] == requiredFields;
  }

  /** The loop of a profile update that rejects provided but blank values. */
  method CheckProvidedNotEmpty(profileFields: seq<string>, userData: UserData) returns (errors: seq<string>)
    ensures errors == EmptyErrors(profileFields, userData)
  {
    errors := [];
    for i := 0 to |profileFields|
      invariant errors == EmptyErrors(profileFields[..i], userData)
    {
      var field := profileFields[i];
      assert profileFields[..i + 1][..i] == profileFields[..i];
      if field in userData && userData[field].Text? && Blank(userData[field].text) {
        errors := errors + [EmptyMessage(field)];
      }
    }
    assert profileFields[..|profileFields|] == profileFields;
  }

  /** The loop over `options.customValidations`. */
  method RunCustomValidations(customValidations: seq<CustomValidation>, userData: UserData) returns (errors: seq<string>)
    ensures errors == CustomErrors(customValidations, userData)
  {
    errors := [];
    for i := 0 to |customValidations|
      invariant errors == CustomErrors(customValidations[..i], userData)
    {
      var validation := customValidations[i];
      assert customValidations[..i + 1][..i] == customValidations[..i];
      if validation.field in userData {
        var valid := validation.validator(userData[validation.field], userData);
        if !valid {
          errors := errors + [CustomMessage(validation)];
        }
      }
    }
    assert customValidations[..|customValidations|] == customValidations;
  }

  /**
   * `validateUserData`. The source throws from inside a validator, discarding
   * the errors gathered so far; the method checks that condition first.
   */
  method ValidateUserData(userData: UserData, isRegistration: bool, checkExisting: Option<Registry>,
                          dobErrors: seq<string>, customValidations: seq<CustomValidation>)
    returns (r: Result<seq<string>>)
    ensures r == UserDataErrors(userData, isRegistration, checkExisting, dobErrors, customValidations)
  {
    if ThrowsTypeError(userData, isRegistration) {
      return Err(TypeError);
    }
    var errors := CheckRequired(RequiredFields(isRegistration), userData, isRegistration);
    // the errors of each stage are gathered separately and appended in order
    var modeErrors;
    if isRegistration {
      modeErrors := ValidateUsername(TextField(userData, "username"), checkExisting);
      modeErrors := modeErrors + ValidatePassword(TextField(userData, "password"), Field(userData, "confirmPassword"));
    } else {
      modeErrors := CheckProvidedNotEmpty(ProfileFields, userData);
    }
    errors := errors + modeErrors;
    var shared := ValidateEmail(TextField(userData, "email"), isRegistration, checkExisting);
    shared := shared + dobErrors;
    var addressErrors := ValidateAddress(Field(userData, "address"));
    shared := shared + addressErrors;
    shared := shared + ValidatePhone(Field(userData, "phone"));
    var customErrors := RunCustomValidations(customValidations, userData);
    shared := shared + customErrors;
    errors := errors + shared;
    return Ok(errors);
  }

  lemma {:induction false} RequiredReported(fields: seq<string>, data: UserData, isRegistration: bool, field: string)
    requires field in fields && Missing(data, field)
    ensures RequiredMessage(field, isRegistration) in RequiredErrors(fields, data, isRegistration)
  {
    var init, last := fields[..|fields| - 1], fields[|fields| - 1];
    if field != last {
      assert field in init by { assert fields == init + [last]; }
      RequiredReported(init, data, isRegistration, field);
    }
  }

  lemma {:induction false} EmptyReported(fields: seq<string>, data: UserData, field: string)
    requires field in fields && PresentButBlank(data, field)
    ensures EmptyMessage(field) in EmptyErrors(fields, data)
  {
    var init, last := fields[..|fields| - 1], fields[|fields| - 1];
    if field != last {
      assert field in init by { assert fields == init + [last]; }
      EmptyReported(init, data, field);
    }
  }
  lemma RequiredMessageInjective(a: string, b: string, isRegistration: bool)
    requires RequiredMessage(a, isRegistration) == RequiredMessage(b, isRegistration)
    ensures a == b
  {
    var m, k := RequiredMessage(a, isRegistration), if isRegistration then 29 else 12;
    assert a == m[..|m| - k];
    assert b == m[..|m| - k];
  }

  lemma EmptyMessageInjective(a: string, b: string)
    requires EmptyMessage(a) == EmptyMessage(b)
    ensures a == b
  {
    var m := EmptyMessage(a);
    assert a == m[..|m| - 28];
    assert b == m[..|m| - 28];
  }

  /** A field's required message occurs once per listing of the field when it is missing, and never otherwise. */
  lemma {:induction false} RequiredCount(fields: seq<string>, data: UserData, isRegistration: bool, field: string)
    ensures Count(RequiredErrors(fields, data, isRegistration), RequiredMessage(field, isRegistration))
            == if Missing(data, field) then Count(fields, field) else 0
  {
    if fields != [] {
      var init, last := fields[..|fields| - 1], fields[|fields| - 1];
      assert fields == init + [last];
      RequiredCount(init, data, isRegistration, field);
      CountAppend(init, [last], field);
      var tail := if Missing(data, last) then [RequiredMessage(last, isRegistration)] else [];
      CountAppend(RequiredErrors(init, data, isRegistration), tail, RequiredMessage(field, isRegistration));
      if RequiredMessage(field, isRegistration) == RequiredMessage(last, isRegistration) {
        RequiredMessageInjective(field, last, isRegistration);
      }
    }
  }

  /** A field's empty message occurs once per listing of the field when it is present but blank, and never otherwise. */
  lemma {:induction false} EmptyCount(fields: seq<string>, data: UserData, field: string)
    ensures Count(EmptyErrors(fields, data), EmptyMessage(field))
            == if PresentButBlank(data, field) then Count(fields, field) else 0
  {
    if fields != [] {
      var init, last := fields[..|fields| - 1], fields[|fields| - 1];
      assert fields == init + [last];
      EmptyCount(init, data, field);
      CountAppend(init, [last], field);
      var tail := if PresentButBlank(data, last) then [EmptyMessage(last)] else [];
      CountAppend(EmptyErrors(init, data), tail, EmptyMessage(field));
      if EmptyMessage(field) == EmptyMessage(last) {
        EmptyMessageInjective(field, last);
      }
    }
  }


  /**
   * A registration without a username reports "username is required for
   * registration" twice: from the required-field loop and from the username
   * validator.
   */
  lemma MissingUsernameReportedTwice(data: UserData, checkExisting: Option<Registry>,
                                     dobErrors: seq<string>, customValidations: seq<CustomValidation>)
    requires Missing(data, "username") && !ThrowsTypeError(data, true)
    ensures var r := UserDataErrors(data, true, checkExisting, dobErrors, customValidations);
      r.Ok? && Count(r.value, UsernameRequired) >= 2
  {
    var required := RequiredErrors(RequiredFields(true), data, true);
    var mode := ModeErrors(data, true, checkExisting);
    var shared := SharedErrors(data, true, checkExisting, dobErrors, customValidations);
    MissingUsernameIsRequired(data);
    MissingUsernameFailsValidator(data, checkExisting);
    CountAppend(required, mode, UsernameRequired);
    CountAppend(required + mode, shared, UsernameRequired);
  }

  lemma MissingUsernameIsRequired(data: UserData)
    requires Missing(data, "username")
    ensures UsernameRequired in RequiredErrors(RequiredFields(true), data, true)
  {
    var fields := RequiredFields(true);
    assert fields[0] == "username";
    RequiredReported(fields, data, true, "username");
    RequiredMessageForUsername();
  }

  /** The loop's message for a missing username is the username validator's own message. */
  lemma RequiredMessageForUsername()
    ensures RequiredMessage("username", true) == UsernameRequired
  {
  }

  lemma MissingUsernameFailsValidator(data: UserData, checkExisting: Option<Registry>)
    requires Missing(data, "username")
    ensures ModeErrors(data, true, checkExisting)[0] == UsernameRequired
  {
    var username := ValidateUsername(TextField(data, "username"), checkExisting);
    assert username == [UsernameRequired];
  }

  /**
   * On a profile update, a field of the profile list that is present but blank
   * is reported both as required and as empty.
   */
  lemma BlankProfileFieldReportedTwice(data: UserData, checkExisting: Option<Registry>,
                                       dobErrors: seq<string>, customValidations: seq<CustomValidation>, field: string)
    requires field in ProfileFields && PresentButBlank(data, field) && !ThrowsTypeError(data, false)
    ensures var r := UserDataErrors(data, false, checkExisting, dobErrors, customValidations);
      r.Ok? && RequiredMessage(field, false) in r.value && EmptyMessage(field) in r.value
  {
    RequiredReported(ProfileFields, data, false, field);
    EmptyReported(ProfileFields, data, field);
  }

  /**
   * A registration whose username, password, confirmation and email pass
   * their validators, without address or phone, and whose custom validations
   * all hold.
   */
  ghost predicate AcceptableRegistration(data: UserData, checkExisting: Option<Registry>,
                                         customValidations: seq<CustomValidation>, username: string, password: string, email: string)
  {
    && TextField(data, "username") == Some(username) && TextField(data, "password") == Some(password)
    && Field(data, "confirmPassword") == Some(Text(password)) && TextField(data, "email") == Some(email)
    && "address" !in data && "phone" !in data
    && 3 <= |username| <= 20 && AllWordChars(username) && !UsernameInUse(checkExisting, username)
    && StrongPassword(password)
    && EmailPattern(email) && !EmailInUse(checkExisting, email)
    && forall i :: 0 <= i < |customValidations| && customValidations[i].field in data ==>
         customValidations[i].validator(data[customValidations[i].field], data)
  }

  /** Such a registration is accepted with no errors. */
  lemma ValidRegistrationAccepted(data: UserData, checkExisting: Option<Registry>,
                                  customValidations: seq<CustomValidation>, username: string, password: string, email: string)
    requires AcceptableRegistration(data, checkExisting, customValidations, username, password, email)
    ensures UserDataErrors(data, true, checkExisting, [], customValidations) == Ok([])
  {
    RegistrationFieldsPresent(data, checkExisting, customValidations, username, password, email);
    CredentialsPass(data, checkExisting, customValidations, username, password, email);
    SharedChecksPass(data, checkExisting, customValidations, username, password, email);
    NoObjectNoTypeError(data, username, password, email);
    NoErrorsAnywhere(data, checkExisting, customValidations);
  }

  lemma NoObjectNoTypeError(data: UserData, username: string, password: string, email: string)
    requires TextField(data, "username") == Some(username) && TextField(data, "password") == Some(password)
    requires TextField(data, "email") == Some(email)
    ensures !ThrowsTypeError(data, true)
  {
  }

  /** A registration passing every group of checks, with no type error, gets the empty list. */
  lemma NoErrorsAnywhere(data: UserData, checkExisting: Option<Registry>, customValidations: seq<CustomValidation>)
    requires !ThrowsTypeError(data, true)
    requires RequiredErrors(RequiredFields(true), data, true) == []
    requires ModeErrors(data, true, checkExisting) == []
    requires SharedErrors(data, true, checkExisting, [], customValidations) == []
    ensures UserDataErrors(data, true, checkExisting, [], customValidations) == Ok([])
  {
  }

  lemma CredentialsPass(data: UserData, checkExisting: Option<Registry>,
                        customValidations: seq<CustomValidation>, username: string, password: string, email: string)
    requires AcceptableRegistration(data, checkExisting, customValidations, username, password, email)
    ensures ModeErrors(data, true, checkExisting) == []
  {
    assert ValidateUsername(Some(username), checkExisting) == [];
    assert ValidatePassword(Some(password), Some(Text(password))) == [];
  }

  lemma SharedChecksPass(data: UserData, checkExisting: Option<Registry>,
                         customValidations: seq<CustomValidation>, username: string, password: string, email: string)
    requires AcceptableRegistration(data, checkExisting, customValidations, username, password, email)
    ensures SharedErrors(data, true, checkExisting, [], customValidations) == []
  {
    EmailNotBlank(email);
    assert ValidateEmail(Some(email), true, checkExisting) == [];
    assert AddressErrors(None) == [] && ValidatePhone(None) == [];
  }

  lemma EmailNotBlank(email: string)
    requires EmailPattern(email)
    ensures !Blank(email)
  {
    var i, k :| 0 < i && i + 1 < k < |email| - 1 && email[i] == '@' && email[k] == '.'
      && NoSpaceOrAt(email, 0, i) && NoSpaceOrAt(email, i + 1, k) && NoSpaceOrAt(email, k + 1, |email|);
    assert !IsSpace(email[0]);
  }

  lemma RegistrationFieldsPresent(data: UserData, checkExisting: Option<Registry>,
                                  customValidations: seq<CustomValidation>, username: string, password: string, email: string)
    requires AcceptableRegistration(data, checkExisting, customValidations, username, password, email)
    ensures RequiredErrors(RequiredFields(true), data, true) == []
  {
    assert IsWordChar(username[0]);
    var p :| 0 <= p < |password| && IsUpper(password[p]);
    EmailNotBlank(email);
    var fields := RequiredFields(true);
    assert fields[0] == "username" && fields[1] == "email" && fields[2] == "password" && fields[3] == "confirmPassword";
    assert forall i :: 0 <= i < |fields| ==> !Missing(data, fields[i]);
  }
}
