/**
 The employee profile schema (`EmployeeProfileSchema` in schemas.py) and what
 marshmallow's `Schema.load` does with it: five required fields, each
 deserialised by its field type, then the `@validates` hooks of the fields
 that deserialised, with every failure collected as messages under the
 field's name. Keys the schema does not declare are refused (marshmallow 3's
 default `unknown = RAISE`).
 */
module Schema {
  import opened Optional
  import Decimal
  import Calendar

  /** A parsed JSON value. Floats, arrays and objects are lumped together as `Other`. */
  datatype Value = Str(s: string) | Int(i: int) | Bool(b: bool) | Null | Other

  /** A JSON object: a request body, or an item of the record store. */
  type Item = map<string, Value>

  /** Field name to the messages recorded against it. */
  type Errors = map<string, seq<string>>

  /** What a successful load yields: the deserialised profile. */
  datatype Profile = Profile(
    employeeId: int,
    firstName: string,
    lastName: string,
    startDate: Calendar.Date,
    country: string)

  datatype LoadResult = Loaded(profile: Profile) | Rejected(errors: Errors)

  const EmployeeIdField := "EmployeeID"
  const FirstNameField := "FirstName"
  const LastNameField := "LastName"
  const StartDateField := "StartDate"
  const CountryField := "Country"
  const PhotoUrlField := "PhotoURL"

  const DeclaredFields: set<string> :=
    {EmployeeIdField, FirstNameField, LastNameField, StartDateField, CountryField}

  const MissingMessage := "Missing data for required field."
  const NullMessage := "Field may not be null."
  const NotIntegerMessage := "Not a valid integer."
  const NotStringMessage := "Not a valid string."
  const NotDateMessage := "Not a valid date."
  const UnknownMessage := "Unknown field."
  const EmployeeIdMessage := "EmployeeID must be exactly 7 digits."
  const CountryMessage := "Country must be a 2-letter ISO-3166 code."

  /**
   Which `EmployeeID` range check the schema runs: the condition as written
   (`10000000 < value < 1000000`), or the seven-digit rule it was meant to be.
   */
  datatype IdRule = AsWritten | SevenDigits

  /** Whether `validate_employee_id` raises for `v` under `rule`. */
  predicate IdRejected(rule: IdRule, v: int) {
    match rule
    case AsWritten => 10000000 < v && v < 1000000
    case SevenDigits => !(1000000 <= v <= 9999999)
  }

  predicate IsUpper(c: char) {
    'A' <= c <= 'Z'
  }

  /** Python's `$`: at the end of the text, or just before a final newline. */
  predicate EndAnchorAt(s: string, i: nat) {
    i == |s| || (i + 1 == |s| && s[i] == '\n')
  }

  /** `re.match(r'^[A-Z]{2}$', s)` succeeds. */
  predicate CountryPattern(s: string) {
    |s| >= 2 && IsUpper(s[0]) && IsUpper(s[1]) && EndAnchorAt(s, 2)
  }

  /** The message a present value of declared field `name` earns, if any. */
  function FieldProblem(rule: IdRule, name: string, v: Value): Option<string>
    requires name in DeclaredFields
  {
    if v.Null? then Some(NullMessage)
    else if name == EmployeeIdField then
      if !v.Int? then Some(NotIntegerMessage)
      else if IdRejected(rule, v.i) then Some(EmployeeIdMessage)
      else None
    else if name == StartDateField then
      if !v.Str? || Calendar.ParseDate(v.s).None? then Some(NotDateMessage) else None
    else if !v.Str? then Some(NotStringMessage)
    else if name == CountryField && !CountryPattern(v.s) then Some(CountryMessage)
    else None
  }

  /** The message key `name` of body `d` earns, if any. */
  function Problem(rule: IdRule, d: Item, name: string): Option<string> {
    if name in DeclaredFields then
      if name !in d then Some(MissingMessage) else FieldProblem(rule, name, d[name])
    else if name in d then Some(UnknownMessage)
    else None
  }

  function CollectErrors(rule: IdRule, d: Item): (e: Errors)
    ensures forall f :: f in e <==> Problem(rule, d, f).Some?
    ensures forall f :: f in e ==> e[f] == [Problem(rule, d, f).value]
  {
    map f | f in DeclaredFields + d.Keys && Problem(rule, d, f).Some? :: [Problem(rule, d, f).value]
  }

  /**
   The reference statement of a body the schema accepts: exactly the five
   declared keys, an integer ID the rule lets through, two strings, a date
   `strptime` parses, and a country code the pattern matches.
   */
  predicate Conforms(rule: IdRule, d: Item) {
    && d.Keys == DeclaredFields
    && d[EmployeeIdField].Int? && !IdRejected(rule, d[EmployeeIdField].i)
    && d[FirstNameField].Str?
    && d[LastNameField].Str?
    && d[StartDateField].Str? && Calendar.ParseDate(d[StartDateField].s).Some?
    && d[CountryField].Str? && CountryPattern(d[CountryField].s)
  }

  /** `EmployeeProfileSchema().load(d)`: the profile, or the `ValidationError` messages. */
  function Load(rule: IdRule, d: Item): (r: LoadResult)
    ensures r.Loaded? <==> Conforms(rule, d)
    ensures r.Loaded? ==>
      && r.profile.employeeId == d[EmployeeIdField].i
      && r.profile.firstName == d[FirstNameField].s
      && r.profile.lastName == d[LastNameField].s
      && Calendar.ParseDate(d[StartDateField].s) == Some(r.profile.startDate)
      && r.profile.country == d[CountryField].s
    ensures r.Rejected? ==> |r.errors| > 0 && r.errors.Keys <= DeclaredFields + d.Keys
    ensures r.Rejected? ==> forall f :: f in DeclaredFields && f !in d ==> f in r.errors && r.errors[f] == [MissingMessage]
    ensures r.Rejected? ==> forall k :: k in d && k !in DeclaredFields ==> k in r.errors && r.errors[k] == [UnknownMessage]
  {
    var e := CollectErrors(rule, d);
    if e == map[] then
      assert Problem(rule, d, EmployeeIdField).None?;
      assert Problem(rule, d, FirstNameField).None?;
      assert Problem(rule, d, LastNameField).None?;
      assert Problem(rule, d, StartDateField).None?;
      assert Problem(rule, d, CountryField).None?;
      assert forall k :: k in d ==> Problem(rule, d, k).None?;
      Loaded(Profile(
        d[EmployeeIdField].i,
        d[FirstNameField].s,
        d[LastNameField].s,
        Calendar.ParseDate(d[StartDateField].s).value,
        d[CountryField].s))
    else
      Rejected(e)
  }

  /** A missing required field rejects the body, with the message under that field's name. */
  lemma MissingFieldRejected(rule: IdRule, d: Item, f: string)
    requires f in DeclaredFields && f !in d
    ensures Load(rule, d).Rejected?
    ensures f in Load(rule, d).errors && Load(rule, d).errors[f] == [MissingMessage]
  {
  }

  /**
   What `re.match(r'^[A-Z]{2}$', s)` accepts: two upper-case ASCII letters,
   optionally followed by one newline, which Python's `$` lets through.
   */
  lemma CountryPatternShape(s: string)
    ensures CountryPattern(s) <==>
      || (|s| == 2 && IsUpper(s[0]) && IsUpper(s[1]))
      || (|s| == 3 && IsUpper(s[0]) && IsUpper(s[1]) && s[2] == '\n')
  {
  }

  lemma CountryExamples()
    ensures CountryPattern("US")
    ensures CountryPattern("US\n")
    ensures !CountryPattern("usa")
    ensures !CountryPattern("us")
    ensures !CountryPattern("USA")
  {
  }

  /** A string `Country` the pattern refuses rejects the body, with the ISO-3166 message. */
  lemma BadCountryRejected(rule: IdRule, d: Item)
    requires CountryField in d && d[CountryField].Str? && !CountryPattern(d[CountryField].s)
    ensures Load(rule, d).Rejected?
    ensures CountryField in Load(rule, d).errors
    ensures Load(rule, d).errors[CountryField] == [CountryMessage]
  {
  }

  /** A `StartDate` `strptime` refuses rejects the body, with the date message. */
  lemma BadStartDateRejected(rule: IdRule, d: Item)
    requires StartDateField in d && d[StartDateField].Str? && Calendar.ParseDate(d[StartDateField].s).None?
    ensures Load(rule, d).Rejected?
    ensures StartDateField in Load(rule, d).errors
    ensures Load(rule, d).errors[StartDateField] == [NotDateMessage]
  {
  }

  /** The slashed text `13/13/2024` is one such `StartDate`. */
  lemma SlashedStartDateRejected(rule: IdRule, d: Item)
    requires StartDateField in d && d[StartDateField] == Str("13/13/2024")
    ensures Load(rule, d).Rejected?
    ensures Load(rule, d).errors[StartDateField] == [NotDateMessage]
  {
    Calendar.RejectsMalformed();
    BadStartDateRejected(rule, d);
  }

  /** Names are only required to be strings: the empty name is accepted. */
  lemma EmptyNamesAccepted(rule: IdRule, d: Item)
    requires Conforms(rule, d)
    ensures Load(rule, d[FirstNameField := Str("")][LastNameField := Str("")]).Loaded?
  {
    var d' := d[FirstNameField := Str("")][LastNameField := Str("")];
    assert d'.Keys == d.Keys;
  }

  /**
   As written, the `EmployeeID` check never fires: no integer is rejected,
   so the seven-digit message is never produced.
   */
  lemma AsWrittenIdCheckNeverFires(d: Item)
    ensures forall v: int :: !IdRejected(AsWritten, v)
    ensures Load(AsWritten, d).Rejected? && EmployeeIdField in Load(AsWritten, d).errors ==>
      Load(AsWritten, d).errors[EmployeeIdField] != [EmployeeIdMessage]
  {
  }

  /**
   The corrected rule accepts exactly the integers whose decimal text
   (`str(v)`, as the commented-out `^\d{7}$` check would see it) has seven digits.
   */
  lemma SevenDigitsMeansSevenDecimalDigits(v: int)
    ensures !IdRejected(SevenDigits, v) <==> v >= 0 && |Decimal.Show(v)| == 7
  {
    assert Decimal.Pow10(6) == 1000000 by {
      assert Decimal.Pow10(1) == 10;
      assert Decimal.Pow10(2) == 100;
      assert Decimal.Pow10(3) == 1000;
      assert Decimal.Pow10(4) == 10000;
      assert Decimal.Pow10(5) == 100000;
    }
    assert Decimal.Pow10(7) == 10000000;
    if v >= 0 {
      Decimal.ShowHasDigits(v, 7);
    }
  }

  /** A body the schema accepts, with the given ID. */
  function SampleBody(id: int): (d: Item)
    ensures d.Keys == DeclaredFields
  {
    map[EmployeeIdField := Int(id), FirstNameField := Str("Ada"), LastNameField := Str("Lovelace"),
        StartDateField := Str("2024-01-05"), CountryField := Str("US")]
  }

  /** The discrepancy, as written: a body with the two-digit ID 42 passes validation. */
  lemma ShortIdSlipsThrough()
    ensures Load(AsWritten, SampleBody(42)).Loaded?
  {
    Calendar.AcceptsUnpaddedForms();
    assert Conforms(AsWritten, SampleBody(42));
  }

  /** The corrected rule refuses that body, with the seven-digit message under `EmployeeID`. */
  lemma SevenDigitsRefusesShortId()
    ensures Load(SevenDigits, SampleBody(42)).Rejected?
    ensures Load(SevenDigits, SampleBody(42)).errors[EmployeeIdField] == [EmployeeIdMessage]
  {
    assert Problem(SevenDigits, SampleBody(42), EmployeeIdField) == Some(EmployeeIdMessage);
  }

  /** Under the corrected rule a body loads only if its ID has seven decimal digits. */
  lemma SevenDigitsLoadedIdHasSevenDigits(d: Item)
    requires Load(SevenDigits, d).Loaded?
    ensures d[EmployeeIdField].i >= 0 && |Decimal.Show(d[EmployeeIdField].i)| == 7
  {
    SevenDigitsMeansSevenDecimalDigits(d[EmployeeIdField].i);
  }

}
