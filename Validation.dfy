/** The form validators of the identity demo: the birthdate and the country
    code, as entered as text. */
module Validation {
  import opened Common
  import opened Dates

  /** The characters `String.prototype.trim` removes: the ECMAScript white
      space and line terminators. */
  predicate IsSpace(c: char)
  {
    ('\U{0009}' <= c <= '\U{000D}')                        // tab, line feed, vertical tab, form feed, carriage return
    || c == ' ' || c == '\U{00A0}' || c == '\U{1680}'        // space, no-break space, ogham space mark
    || ('\U{2000}' <= c <= '\U{200A}')                      // en quad .. hair space
    || c == '\U{2028}' || c == '\U{2029}'                   // line and paragraph separators
    || c == '\U{202F}' || c == '\U{205F}' || c == '\U{3000}' // narrow no-break, medium mathematical, ideographic
    || c == '\U{FEFF}'                                      // byte order mark
  }

  /** `s` has no white space at either end. */
  predicate Unpadded(s: string)
  {
    s == [] || (!IsSpace(s[0]) && !IsSpace(s[|s| - 1]))
  }

  /** The number of white-space characters `s` starts with. */
  function LeadingSpace(s: string): (n: nat)
    ensures n <= |s|
    ensures forall k :: 0 <= k < n ==> IsSpace(s[k])
    ensures n == |s| || !IsSpace(s[n])
  {
    if s != [] && IsSpace(s[0]) then 1 + LeadingSpace(s[1..]) else 0
  }

  /** `s` without its trailing white space. */
  function TrimEnd(s: string): (r: string)
    ensures |r| <= |s| && r == s[..|r|]
    ensures forall k :: |r| <= k < |s| ==> IsSpace(s[k])
    ensures r == [] || !IsSpace(r[|r| - 1])
  {
    if s != [] && IsSpace(s[|s| - 1]) then TrimEnd(s[..|s| - 1]) else s
  }

  /** `s.trim()`: the part of `s` after its leading white space and before
      its trailing white space; nothing else is removed. */
  function Trim(s: string): (r: string)
    ensures Unpadded(r)
    ensures var i := LeadingSpace(s);
            && i + |r| <= |s|
            && r == s[i..i + |r|]
            && (forall k :: i + |r| <= k < |s| ==> IsSpace(s[k]))
  {
    var i := LeadingSpace(s);
    var r := TrimEnd(s[i..]);
    assert r != [] ==> r[0] == s[i];
    r
  }

  /** Text already without white space at its ends is its own trimming. */
  lemma TrimUnpadded(s: string)
    requires Unpadded(s)
    ensures Trim(s) == s
  {
    assert LeadingSpace(s) == 0;
  }

  /** Trimming twice is trimming once. */
  lemma TrimIdempotent(s: string)
    ensures Trim(Trim(s)) == Trim(s)
  {
    TrimUnpadded(Trim(s));
  }

  predicate IsAsciiUpper(c: char)
  {
    'A' <= c <= 'Z'
  }

  /** The upper case of one character. ASCII letters are mapped exactly, and
      so is every other character whose upper case is made of ASCII letters
      only (the sharp s, the dotless i, the long s and the Latin ligatures); other
      characters are kept as they are. */
  function UpperChar(c: char): (r: string)
    ensures 1 <= |r| <= 3
    ensures 'a' <= c <= 'z' ==> r == [(c as int - 32) as char]
    ensures (!(c == '\U{00DF}' || c == '\U{0131}' || c == '\U{017F}' || '\U{FB00}' <= c <= '\U{FB06}')
             && !('a' <= c <= 'z')) ==> r == [c]
  {
    if 'a' <= c <= 'z' then [(c as int - 32) as char]
    else if c == '\U{00DF}' then "SS"
    else if c == '\U{0131}' then "I"
    else if c == '\U{017F}' then "S"
    else if c == '\U{FB00}' then "FF"
    else if c == '\U{FB01}' then "FI"
    else if c == '\U{FB02}' then "FL"
    else if c == '\U{FB03}' then "FFI"
    else if c == '\U{FB04}' then "FFL"
    else if c == '\U{FB05}' || c == '\U{FB06}' then "ST"
    else [c]
  }

  /** `s.toUpperCase()`, one character at a time. */
  function Upper(s: string): (r: string)
    ensures |r| >= |s|
    ensures s != [] ==> r != []
  {
    if s == [] then [] else UpperChar(s[0]) + Upper(s[1..])
  }

  /** Text of upper-case ASCII letters is its own upper case. */
  lemma {:induction false} UpperOfUpper(s: string)
    requires forall k :: 0 <= k < |s| ==> IsAsciiUpper(s[k])
    ensures Upper(s) == s
  {
    if s != [] {
      UpperOfUpper(s[1..]);
      assert UpperChar(s[0]) == [s[0]];
    }
  }

  // Birthdate

  predicate IsDigit(c: char)
  {
    '0' <= c <= '9'
  }

  /** `/^\d{4}-\d{2}-\d{2}$/`: four digits, a hyphen, two digits, a hyphen,
      two digits, and nothing else. */
  predicate MatchesDatePattern(s: string)
  {
    |s| == 10 && s[4] == '-' && s[7] == '-'
    && forall k :: 0 <= k < 10 && k != 4 && k != 7 ==> IsDigit(s[k])
  }

  /** The value of one decimal digit. */
  function DigitValue(c: char): (r: nat)
    requires IsDigit(c)
    ensures r <= 9
  {
    c as int - '0' as int
  }

  /** The year, month and day of text matching the pattern: the three
      hyphen-separated pieces read as decimal numbers (`Number("0042")` is 42). */
  function DateFields(s: string): (r: (nat, nat, nat))
    requires MatchesDatePattern(s)
    ensures r.0 <= 9999 && r.1 <= 99 && r.2 <= 99
  {
    (1000 * DigitValue(s[0]) + 100 * DigitValue(s[1]) + 10 * DigitValue(s[2]) + DigitValue(s[3]),
     10 * DigitValue(s[5]) + DigitValue(s[6]),
     10 * DigitValue(s[8]) + DigitValue(s[9]))
  }

  /** The rejections of `validateBirthdateInput`, in the order it checks for them. */
  datatype BirthdateError =
    | BirthdateRequired
    | BirthdateFormat
    | BirthdateNotCalendar
    | BirthdateInFuture
    | BirthdateTooOld

  /** The text each birthdate rejection shows. */
  function BirthdateMessage(e: BirthdateError): string
  {
    match e
    case BirthdateRequired => "Birthdate is required."
    case BirthdateFormat => "Birthdate must match YYYY-MM-DD."
    case BirthdateNotCalendar => "Birthdate must be a valid calendar date."
    case BirthdateInFuture => "Birthdate cannot be in the future."
    case BirthdateTooOld => "Birthdate must represent age under 150."
  }

  /** The oldest age the birthdate check accepts. */
  const MaxAge: int := 150

  /** The date a pattern-matching birthdate builds with `Date.UTC`. */
  function ParsedDate(s: string): Utc
    requires MatchesDatePattern(s)
  {
    var (y, m, d) := DateFields(s);
    DateUtc(y, m - 1, d)
  }

  /** `validateBirthdateInput(raw)` on the day `today` (the UTC date of the
      clock, a parameter here). The returned value is the trimmed text. */
  function ValidateBirthdate(raw: string, today: Utc): (r: Result<string, BirthdateError>)
    ensures r == Err(BirthdateRequired) <==> Trim(raw) == []
    ensures r == Err(BirthdateFormat) <==> Trim(raw) != [] && !MatchesDatePattern(Trim(raw))
    ensures r == Err(BirthdateNotCalendar) <==>
              MatchesDatePattern(Trim(raw))
              && var (y, m, d) := DateFields(Trim(raw)); !IsCalendarDate(y, m, d)
    ensures r.Ok? ==>
              && r.value == Trim(raw)
              && MatchesDatePattern(r.value)
              && (var (y, m, d) := DateFields(r.value);
                  && 100 <= y
                  && IsCalendarDate(y, m, d)
                  && ParsedDate(r.value) == Utc(y, m - 1, d))
              && NotAfter(ParsedDate(r.value), today)
              && 0 <= CalculateAge(ParsedDate(r.value), today) <= MaxAge
    ensures MatchesDatePattern(Trim(raw)) ==>
              var (y, m, d) := DateFields(Trim(raw));
              var date := Utc(y, m - 1, d);
              && (r == Err(BirthdateInFuture) <==> IsCalendarDate(y, m, d) && Before(today, date))
              && (r == Err(BirthdateTooOld) <==>
                    IsCalendarDate(y, m, d) && !Before(today, date) && CalculateAge(date, today) > MaxAge)
              && (r.Ok? <==>
                    IsCalendarDate(y, m, d) && NotAfter(date, today) && CalculateAge(date, today) <= MaxAge)
  {
    var trimmed := Trim(raw);
    if trimmed == [] then Err(BirthdateRequired)
    else if !MatchesDatePattern(trimmed) then Err(BirthdateFormat)
    else
      var (y, m, d) := DateFields(trimmed);
      var parsed := DateUtc(y, m - 1, d);
      RoundTripsIff(y, m, d);
      if parsed.year != y || parsed.month0 + 1 != m || parsed.day != d then Err(BirthdateNotCalendar)
      else if Before(today, parsed) then Err(BirthdateInFuture)
      else
        AgeNotNegative(parsed, today);
        if CalculateAge(parsed, today) > MaxAge then Err(BirthdateTooOld)
        else Ok(trimmed)
  }

  /** A birthdate the validator accepted is accepted again, unchanged: the
      form writes the accepted text back into the input. */
  lemma BirthdateIdempotent(raw: string, today: Utc)
    requires ValidateBirthdate(raw, today).Ok?
    ensures ValidateBirthdate(ValidateBirthdate(raw, today).value, today) == ValidateBirthdate(raw, today)
  {
    TrimIdempotent(raw);
  }

  /** Surrounding white space never changes the verdict. */
  lemma BirthdateIgnoresPadding(raw: string, today: Utc)
    ensures ValidateBirthdate(Trim(raw), today) == ValidateBirthdate(raw, today)
  {
    TrimIdempotent(raw);
  }

  /** Whoever turns 150 on the day is accepted, although the message says
      "under 150" ... */
  lemma AgeOneHundredFiftyAccepted()
    ensures ValidateBirthdate("1874-03-01", Utc(2024, 2, 1)) == Ok("1874-03-01")
  {
    TrimUnpadded("1874-03-01");
    assert MatchesDatePattern("1874-03-01");
    assert DateFields("1874-03-01") == (1874, 3, 1);
  }

  /** ... whoever turned 151 is too old ... */
  lemma AgeOneHundredFiftyOneRejected()
    ensures ValidateBirthdate("1873-03-01", Utc(2024, 2, 1)) == Err(BirthdateTooOld)
  {
    TrimUnpadded("1873-03-01");
    assert MatchesDatePattern("1873-03-01");
    assert DateFields("1873-03-01") == (1873, 3, 1);
  }

  /** ... tomorrow is in the future ... */
  lemma TomorrowRejected()
    ensures ValidateBirthdate("2024-03-02", Utc(2024, 2, 1)) == Err(BirthdateInFuture)
  {
    TrimUnpadded("2024-03-02");
    assert MatchesDatePattern("2024-03-02");
    assert DateFields("2024-03-02") == (2024, 3, 2);
  }

  /** ... and 29 February of a common year is no date at all. */
  lemma CommonYearLeapDayRejected()
    ensures ValidateBirthdate("1999-02-29", Utc(2024, 2, 1)) == Err(BirthdateNotCalendar)
  {
    TrimUnpadded("1999-02-29");
    assert MatchesDatePattern("1999-02-29");
    assert DateFields("1999-02-29") == (1999, 2, 29);
  }

  // Country

  /** The rejections of `validateCountryInput`. */
  datatype CountryError =
    | CountryRequired
    | CountryFormat

  /** The text each country rejection shows. */
  function CountryMessage(e: CountryError): string
  {
    match e
    case CountryRequired => "Country is required."
    case CountryFormat => "Country must be a 2-letter ISO code (e.g. PT)."
  }

  /** `/^[A-Z]{2}$/`. */
  predicate IsCountryCode(s: string)
  {
    |s| == 2 && IsAsciiUpper(s[0]) && IsAsciiUpper(s[1])
  }

  /** `validateCountryInput(raw)`: the trimmed, upper-cased text if it is two
      letters A to Z. */
  function ValidateCountry(raw: string): (r: Result<string, CountryError>)
    ensures r == Err(CountryRequired) <==> Trim(raw) == []
    ensures r.Ok? <==> IsCountryCode(Upper(Trim(raw)))
    ensures r.Ok? ==> r.value == Upper(Trim(raw))
  {
    var trimmed := Upper(Trim(raw));
    if trimmed == [] then Err(CountryRequired)
    else if !IsCountryCode(trimmed) then Err(CountryFormat)
    else Ok(trimmed)
  }

  /** An accepted country code is accepted again, unchanged. */
  lemma CountryIdempotent(raw: string)
    requires ValidateCountry(raw).Ok?
    ensures ValidateCountry(ValidateCountry(raw).value) == ValidateCountry(raw)
  {
    var c := ValidateCountry(raw).value;
    TrimUnpadded(c);
    UpperOfUpper(c);
  }

  /** Padded lower-case letters are accepted as their upper case ... */
  lemma PaddedLowerCaseExample()
    ensures ValidateCountry(" pt ") == Ok("PT")
  {
    assert LeadingSpace(" pt ") == 1;
    assert TrimEnd("pt ") == "pt";
    assert Upper("pt") == "PT" by {
      assert Upper("t") == "T";
    }
  }

  /** A single sharp s upper-cases to two letters, so it is a country code. */
  lemma SharpSCountryExample()
    ensures ValidateCountry("\U{00DF}") == Ok("SS")
  {
    TrimUnpadded("\U{00DF}");
    assert Upper("\U{00DF}") == "SS" by {
      assert Upper("\U{00DF}"[1..]) == [];
    }
  }

  /** ... and three letters or only white space are not. */
  lemma RejectedCountryExamples()
    ensures ValidateCountry("Prt") == Err(CountryFormat)
    ensures ValidateCountry("   ") == Err(CountryRequired)
  {
    TrimUnpadded("Prt");
    assert LeadingSpace("   ") == 3;
  }
}
