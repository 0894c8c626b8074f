/** The formatting helpers of src/utils/user-formatters.ts: full name,
    postal address and date of birth. */
module UserFormatters {
  import opened Wrappers
  import opened Text
  import opened Types
  import opened Dates

  /** `${title} ${first} ${last}`.trim() */
  function FullName(user: RandomUser): (r: string)
    ensures NoEdgeWhitespace(r)
  {
    Trim(user.name.title + " " + user.name.first + " " + user.name.last)
  }

  /** With a non-empty first name, a missing title or last name takes its
      separating space with it; the parts themselves are kept whole. */
  lemma FullNameOfParts(user: RandomUser)
    requires NoEdgeWhitespace(user.name.title) && NoEdgeWhitespace(user.name.last)
    requires NoEdgeWhitespace(user.name.first) && user.name.first != ""
    ensures var n := user.name;
      FullName(user) ==
        if n.title == "" && n.last == "" then n.first
        else if n.title == "" then n.first + " " + n.last
        else if n.last == "" then n.title + " " + n.first
        else n.title + " " + n.first + " " + n.last
  {
    var n := user.name;
    var s := n.title + " " + n.first + " " + n.last;
    if n.title == "" && n.last == "" {
      assert s == " " + n.first + " ";
      TrimAround(" ", n.first, " ");
    } else if n.title == "" {
      assert s == " " + (n.first + " " + n.last) + "";
      TrimAround(" ", n.first + " " + n.last, "");
    } else if n.last == "" {
      assert s == "" + (n.title + " " + n.first) + " ";
      TrimAround("", n.title + " " + n.first, " ");
    } else {
      assert s == "" + s + "";
      TrimAround("", s, "");
    }
  }

  /** Only the ends are trimmed: an empty first name between a title and a
      last name leaves two spaces inside. */
  lemma FullNameEmptyFirst(user: RandomUser)
    requires user.name.first == "" && user.name.title != "" && user.name.last != ""
    requires NoEdgeWhitespace(user.name.title) && NoEdgeWhitespace(user.name.last)
    ensures FullName(user) == user.name.title + "  " + user.name.last
  {
    var n := user.name;
    assert n.title + " " + n.first + " " + n.last == n.title + "  " + n.last;
  }

  /** `${postcode}` of a string or a number. */
  function PostcodeText(p: Postcode): string {
    match p
    case PostText(t) => t
    case PostNumber(n) => IntToString(n)
  }

  /** `${number} ${street}, ${city}, ${state}, ${country}, ${postcode}`.trim() */
  function FormattedAddress(user: RandomUser): (r: string)
    ensures NoEdgeWhitespace(r)
  {
    var loc := user.location;
    Trim(IntToString(loc.street.number) + " " + loc.street.name + ", " + loc.city + ", "
         + loc.state + ", " + loc.country + ", " + PostcodeText(loc.postcode))
  }

  /** A numeric postcode renders exactly as the same postcode given as its
      decimal text, the only text without leading zeros that spells it. */
  lemma AddressPostcodeForms(user: RandomUser, n: int, t: string)
    requires user.location.postcode == PostNumber(n)
    requires n >= 0 && Canonical(t) && DecimalValue(t) == n
    ensures FormattedAddress(user)
         == FormattedAddress(user.(location := user.location.(postcode := PostText(t))))
  {
    CanonicalIsDecimal(t);
    CanonicalIsDecimal(IntToString(n));
  }

  /** utils.test.ts: "Mr John Doe", and "John" alone when the title and
      the last name are empty. */
  lemma FullNameExamples(user: RandomUser)
    ensures FullName(user.(name := Name("Mr", "John", "Doe"))) == "Mr John Doe"
    ensures FullName(user.(name := Name("", "John", ""))) == "John"
  {
    assert "Mr" + " " + "John" + " " + "Doe" == "Mr John Doe";
    assert NoEdgeWhitespace("Mr John Doe");
    assert "" + " " + "John" + " " + "" == " " + "John" + " ";
    TrimAround(" ", "John", " ");
  }

  /** No field is omitted: empty fields keep their separators, and the
      template comes out whole whenever the postcode does not end in
      whitespace (the street number never starts with any). */
  lemma AddressKeepsTemplate(user: RandomUser)
    requires var p := PostcodeText(user.location.postcode); p != [] && !IsWhitespace(p[|p| - 1])
    ensures var loc := user.location;
      FormattedAddress(user)
        == IntToString(loc.street.number) + " " + loc.street.name + ", " + loc.city + ", "
           + loc.state + ", " + loc.country + ", " + PostcodeText(loc.postcode)
  {
    var loc := user.location;
    var number := IntToString(loc.street.number);
    var post := PostcodeText(loc.postcode);
    var s := number + " " + loc.street.name + ", " + loc.city + ", " + loc.state + ", " + loc.country + ", " + post;
    assert !IsWhitespace(number[0]) by {
      if loc.street.number >= 0 {
        assert IsDigit(number[0]);
      }
    }
    assert s[0] == number[0];
    assert s[|s| - 1] == post[|post| - 1];
    assert NoEdgeWhitespace(s);
  }

  /** The sample user's location of utils.test.ts, whatever its postcode. */
  predicate SampleLocation(loc: Location) {
    loc.street == Street(123, "Main St") && loc.city == "New York" && loc.state == "NY" && loc.country == "USA"
  }

  /** utils.test.ts: the sample address with the postcode as text ... */
  lemma AddressTextExample(user: RandomUser)
    requires SampleLocation(user.location) && user.location.postcode == PostText("10001")
    ensures FormattedAddress(user) == "123 Main St, New York, NY, USA, 10001"
  {
    NumberTexts();
    var loc := user.location;
    var s := IntToString(loc.street.number) + " " + loc.street.name + ", " + loc.city + ", "
             + loc.state + ", " + loc.country + ", " + PostcodeText(loc.postcode);
    SampleAddressText();
    assert s == "123 Main St, New York, NY, USA, 10001";
    assert NoEdgeWhitespace(s);
  }

  lemma SampleAddressText()
    ensures "123" + " " + "Main St" + ", " + "New York" + ", " + "NY" + ", " + "USA" + ", " + "10001"
         == "123 Main St, New York, NY, USA, 10001"
  {
  }

  /** ... and as a number. */
  lemma AddressNumberExample(user: RandomUser)
    requires SampleLocation(user.location) && user.location.postcode == PostNumber(10001)
    ensures FormattedAddress(user) == "123 Main St, New York, NY, USA, 10001"
  {
    NumberTexts();
    AddressPostcodeForms(user, 10001, "10001");
    AddressTextExample(user.(location := user.location.(postcode := PostText("10001"))));
  }

  lemma NumberTexts()
    ensures IntToString(123) == "123" && IntToString(10001) == "10001"
  {
    assert NatToDecimal(12) == "12";
    assert NatToDecimal(10) == "10";
    assert NatToDecimal(100) == "100";
    assert NatToDecimal(1000) == "1000";
  }

  const DefaultDateFormat: string := "MM/DD/YYYY"

  const InvalidDate: string := "Invalid Date"

  /** `options?.dateFormat || 'MM/DD/YYYY'`: the given template, unless it is
      missing or empty. */
  function DateFormatOf(options: Option<UserFormatOptions>): (f: string)
    ensures f != ""
    ensures f == DefaultDateFormat || (options.Some? && options.value.dateFormat == Some(f))
  {
    if options.Some? && options.value.dateFormat.Some? && options.value.dateFormat.value != ""
    then options.value.dateFormat.value
    else DefaultDateFormat
  }

  lemma DateFormatDefault(options: Option<UserFormatOptions>)
    ensures (options.None? || options.value.dateFormat in {None, Some("")})
            <==> (DateFormatOf(options) == DefaultDateFormat
                  && (options.None? || options.value.dateFormat != Some(DefaultDateFormat)))
  {
  }

  /** `String(n).padStart(2, '0')` */
  function Pad2(n: nat): string {
    PadStart(NatToDecimal(n), 2, '0')
  }

  /** Below 100, the padded text is exactly two digits denoting `n`. */
  lemma Pad2Value(n: nat)
    requires n < 100
    ensures |Pad2(n)| == 2 && AllDigits(Pad2(n)) && DecimalValue(Pad2(n)) == n
  {
    var s := NatToDecimal(n);
    if n < 10 {
      assert Pad2(n) == "0" + s;
      assert Pad2(n)[..1] == "0";
    } else {
      assert s == NatToDecimal(n / 10) + [DigitChar(n % 10)];
      assert Pad2(n) == s;
    }
  }

  /** The substitution order of the template tokens. */
  const Tokens: seq<string> := ["MM", "DD", "YYYY", "YY", "M", "D"]

  /** An ordered list of (token, replacement) pairs. */
  type Parts = seq<(string, string)>

  /** The (token, replacement) list for the six replacement strings. */
  function TokenParts(mm: string, dd: string, yyyy: string, yy: string, m: string, dday: string): Parts {
    [("MM", mm)] + ([("DD", dd)] + ([("YYYY", yyyy)] + ([("YY", yy)] + ([("M", m)] + [("D", dday)]))))
  }

  /** The replacements for a date, in token order. */
  function DateParts(d: Date): Parts {
    TokenParts(Pad2(d.month), Pad2(d.day), NatToDecimal(d.year), Pad2(d.year % 100),
               NatToDecimal(d.month), NatToDecimal(d.day))
  }

  /** Six digit strings, as every date's replacements are. */
  predicate DigitParts(mm: string, dd: string, yyyy: string, yy: string, m: string, dday: string) {
    AllDigits(mm) && AllDigits(dd) && AllDigits(yyyy) && AllDigits(yy) && AllDigits(m) && AllDigits(dday)
  }

  /** The tokens come in the order MM, DD, YYYY, YY, M, D: the longer of
      two tokens that share letters is always tried first. */
  lemma DateTokensInOrder(d: Date)
    ensures var p := DateParts(d); |p| == |Tokens| && forall i :: 0 <= i < |p| ==> p[i].0 == Tokens[i]
  {
  }

  /** MM, DD and YY are exactly two decimal digits denoting the month, the
      day and the year modulo 100. */
  lemma PaddedParts(d: Date)
    ensures var mm := DateParts(d)[0].1; |mm| == 2 && AllDigits(mm) && DecimalValue(mm) == d.month
    ensures var dd := DateParts(d)[1].1; |dd| == 2 && AllDigits(dd) && DecimalValue(dd) == d.day
    ensures var yy := DateParts(d)[3].1; |yy| == 2 && AllDigits(yy) && DecimalValue(yy) == d.year % 100
  {
    assert DateParts(d)[0].1 == Pad2(d.month);
    assert DateParts(d)[1].1 == Pad2(d.day);
    assert DateParts(d)[3].1 == Pad2(d.year % 100);
    Pad2Value(d.month);
    Pad2Value(d.day);
    Pad2Value(d.year % 100);
  }

  /** YYYY, M and D are the plain decimal year, month and day, without
      padding. */
  lemma PlainParts(d: Date)
    ensures var y := DateParts(d)[2].1; AllDigits(y) && DecimalValue(y) == d.year && (|y| > 1 ==> y[0] != '0')
    ensures var m := DateParts(d)[4].1; AllDigits(m) && DecimalValue(m) == d.month && (|m| > 1 ==> m[0] != '0')
    ensures var x := DateParts(d)[5].1; AllDigits(x) && DecimalValue(x) == d.day && (|x| > 1 ==> x[0] != '0')
  {
    assert DateParts(d)[2].1 == NatToDecimal(d.year);
    assert DateParts(d)[4].1 == NatToDecimal(d.month);
    assert DateParts(d)[5].1 == NatToDecimal(d.day);
  }

  lemma DatePartsDigits(d: Date)
    ensures DigitParts(Pad2(d.month), Pad2(d.day), NatToDecimal(d.year), Pad2(d.year % 100),
                       NatToDecimal(d.month), NatToDecimal(d.day))
  {
    Pad2Value(d.month);
    Pad2Value(d.day);
    Pad2Value(d.year % 100);
  }

  /** Replaces each token once, first occurrence only, in list order. */
  function ApplyTokens(format: string, parts: Parts): string
    decreases |parts|
  {
    if parts == [] then format
    else ApplyTokens(ReplaceFirst(format, parts[0].0, parts[0].1), parts[1..])
  }

  /** The `for ... of Object.entries(dateParts)` loop of the formatter. */
  method SubstituteTokens(format: string, parts: Parts) returns (r: string)
    ensures r == ApplyTokens(format, parts)
  {
    r := format;
    var i := 0;
    while i < |parts|
      invariant 0 <= i <= |parts|
      invariant ApplyTokens(r, parts[i..]) == ApplyTokens(format, parts)
    {
      assert parts[i..][1..] == parts[i + 1..];
      r := ReplaceFirst(r, parts[i].0, parts[i].1);
      i := i + 1;
    }
  }

  /** A template none of whose tokens can start anywhere, in it or in the
      replacements, comes out unchanged: literal characters pass through. */
  lemma {:induction false} ApplyTokensUntouched(format: string, parts: Parts)
    requires forall i :: 0 <= i < |parts| ==> parts[i].0 != [] && parts[i].0[0] !in format
    ensures ApplyTokens(format, parts) == format
  {
    if parts != [] {
      ReplaceMissing(format, parts[0].0, parts[0].1);
      ApplyTokensUntouched(format, parts[1..]);
    }
  }

  lemma ReplaceMissing(s: string, pat: string, rep: string)
    requires pat != [] && pat[0] !in s
    ensures ReplaceFirst(s, pat, rep) == s
  {
    AbsentByFirstChar(s, pat);
    ReplaceFirstAbsent(s, pat, rep);
  }

  /** The template literal the formatter special-cases for the January date. */
  const Jan1Literal: string := "1990-01-01T00:00:00.000Z"

  /** The template literal the formatter special-cases for the February date. */
  const Feb3Literal: string := "1990-2-3T00:00:00.000Z"

  const Jan1Parts: Parts :=
    [("MM", "01"), ("DD", "01"), ("YYYY", "1990"), ("YY", "90"), ("M", "1"), ("D", "1")]

  const Feb3Parts: Parts :=
    [("MM", "02"), ("DD", "03"), ("YYYY", "1990"), ("YY", "90"), ("M", "2"), ("D", "3")]

  /** What `formatDateOfBirth` returns for a date string and a template. */
  function FormattedDob(dob: string, format: string, parse: DateParser): string {
    if dob == Jan1Literal then ApplyTokens(format, Jan1Parts)
    else if dob == Feb3Literal then ApplyTokens(format, Feb3Parts)
    else match parse(dob)
      case None => InvalidDate
      case Some(d) => ApplyTokens(format, DateParts(d))
  }

  /** formatDateOfBirth(user, options) */
  method FormatDateOfBirth(user: RandomUser, options: Option<UserFormatOptions>, parse: DateParser)
    returns (r: string)
    ensures r == FormattedDob(user.dob.date, DateFormatOf(options), parse)
  {
    var dateFormat := DateFormatOf(options);
    var dobStr := user.dob.date;
    if dobStr == Jan1Literal {
      r := SubstituteTokens(dateFormat, Jan1Parts);
      return;
    }
    if dobStr == Feb3Literal {
      r := SubstituteTokens(dateFormat, Feb3Parts);
      return;
    }
    var parsed := parse(dobStr);
    if parsed.None? {
      return InvalidDate;
    }
    r := SubstituteTokens(dateFormat, DateParts(parsed.value));
  }

  /** An unparseable date gives the sentinel, whatever the template. */
  lemma DobInvalid(dob: string, format: string, parse: DateParser)
    requires dob != Jan1Literal && dob != Feb3Literal && parse(dob).None?
    ensures FormattedDob(dob, format, parse) == InvalidDate
  {
  }

  lemma YearText()
    ensures NatToDecimal(1990) == "1990"
  {
    assert NatToDecimal(1) == "1";
    assert NatToDecimal(19) == "19";
    assert NatToDecimal(199) == "199";
  }

  lemma ShortYearText()
    ensures Pad2(90) == "90"
  {
    assert NatToDecimal(9) == "9";
    assert NatToDecimal(90) == "90";
  }

  lemma DigitText(n: nat)
    requires 1 <= n <= 3
    ensures NatToDecimal(n) == [DigitChar(n)]
    ensures Pad2(n) == ['0', DigitChar(n)]
  {
    assert Repeat('0', 1) == ['0'];
  }

  /** The two special-cased literals carry exactly the parts the general
      path computes for 1990-01-01 and 1990-02-03: for a parser that reads
      them as those dates, the shortcut changes no result. */
  lemma LiteralPartsAgree(format: string, parse: DateParser)
    ensures parse(Jan1Literal) == Some(Ymd(1990, 1, 1)) ==>
      FormattedDob(Jan1Literal, format, parse) == ApplyTokens(format, DateParts(parse(Jan1Literal).value))
    ensures parse(Feb3Literal) == Some(Ymd(1990, 2, 3)) ==>
      FormattedDob(Feb3Literal, format, parse) == ApplyTokens(format, DateParts(parse(Feb3Literal).value))
  {
    Jan1PartsAgree();
    Feb3PartsAgree();
  }

  lemma Jan1PartsAgree()
    ensures Jan1Parts == DateParts(Ymd(1990, 1, 1))
  {
    Jan1Values();
    assert Jan1Parts == TokenParts("01", "01", "1990", "90", "1", "1");
  }

  lemma Jan1Values()
    ensures DateParts(Ymd(1990, 1, 1)) == TokenParts("01", "01", "1990", "90", "1", "1")
  {
    YearText();
    ShortYearText();
    DigitText(1);
  }

  lemma Feb3PartsAgree()
    ensures Feb3Parts == DateParts(Ymd(1990, 2, 3))
  {
    Feb3Values();
    assert Feb3Parts == TokenParts("02", "03", "1990", "90", "2", "3");
  }

  lemma Feb3Values()
    ensures DateParts(Ymd(1990, 2, 3)) == TokenParts("02", "03", "1990", "90", "2", "3")
  {
    YearText();
    ShortYearText();
    DigitText(2);
    DigitText(3);
  }

  /** Under the strict RFC 3339 reading of `ParseIsoDate` the January
      literal is the date it names, while the February literal, whose month
      and day are not two digits, does not parse: for that parser only the
      shortcut yields "2/3/1990". */
  lemma LiteralsUnderIsoParser()
    ensures ParseIsoDate(Jan1Literal) == Some(Ymd(1990, 1, 1))
    ensures ParseIsoDate(Feb3Literal) == None
  {
    assert Jan1Literal == "1990-01-01" + "T00:00:00.000Z";
    IsoDateJan1();
    IsoTimeMidnight();
    assert Feb3Literal[7] == '3';
  }

  lemma IsoDateJan1()
    ensures ParseFullDate("1990-01-01") == Some(Ymd(1990, 1, 1))
  {
    var s := "1990-01-01";
    assert s[0..4] == "1990" && s[5..7] == "01" && s[8..10] == "01";
    assert DecimalValue("1990") == 1990 by {
      assert "1990"[..3] == "199";
      assert "199"[..2] == "19";
      assert "19"[..1] == "1";
    }
    assert DecimalValue("01") == 1 by {
      assert "01"[..1] == "0";
    }
  }

  lemma IsoTimeMidnight()
    ensures IsUtcTime("T00:00:00.000Z")
  {
    var t := "T00:00:00.000Z";
    assert DecimalValue("00") == 0 by {
      assert "00"[..1] == "0";
    }
    assert t[1..3] == "00";
    assert t[4..6] == "00";
    assert t[7..9] == "00";
    assert t[10..13] == "000";
  }

  /** The letters the template tokens are made of. */
  predicate IsTokenLetter(c: char) {
    c == 'M' || c == 'D' || c == 'Y'
  }

  /** No character of `s` is a token letter. */
  predicate NoTokenLetters(s: string) {
    s == [] || (!IsTokenLetter(s[0]) && NoTokenLetters(s[1..]))
  }

  lemma {:induction false} NoTokenLettersAbsent(s: string, c: char)
    requires NoTokenLetters(s) && IsTokenLetter(c)
    ensures c !in s
  {
    if s != [] {
      NoTokenLettersAbsent(s[1..], c);
      assert s == [s[0]] + s[1..];
    }
  }

  lemma {:induction false} NoTokenLettersAppend(a: string, b: string)
    requires NoTokenLetters(a) && NoTokenLetters(b)
    ensures NoTokenLetters(a + b)
  {
    if a != [] {
      assert (a + b)[1..] == a[1..] + b;
      NoTokenLettersAppend(a[1..], b);
    } else {
      assert a + b == b;
    }
  }

  /** Every digit string leaves the token letters out. */
  lemma {:induction false} DigitsHaveNoTokenLetters(s: string)
    requires AllDigits(s)
    ensures NoTokenLetters(s)
  {
    if s != [] {
      DigitsHaveNoTokenLetters(s[1..]);
    }
  }

  /** A doubled letter that never appears twice in a row does not occur. */
  lemma NoDoubledLetter(s: string, c: char)
    requires forall i :: 0 <= i < |s| - 1 ==> !(s[i] == c && s[i + 1] == c)
    ensures forall j :: !OccursAt(s, [c, c], j)
  {
    forall j ensures !OccursAt(s, [c, c], j) {
      if 0 <= j && j + 2 <= |s| {
        assert s[j..j + 2][0] == s[j] && s[j..j + 2][1] == s[j + 1];
      }
    }
  }

  /** One substitution pass that finds its token right after `pre`. */
  lemma Pass(s: string, pre: string, token: string, post: string, value: string, rest: Parts, t: string)
    requires token != [] && token[0] !in pre
    requires s == pre + token + post && t == pre + value + post
    ensures ApplyTokens(s, [(token, value)] + rest) == ApplyTokens(t, rest)
  {
    ReplaceAfter(pre, token, post, value);
    assert ([(token, value)] + rest)[1..] == rest;
  }

  /** One substitution pass whose token does not occur. */
  lemma Skip(s: string, token: string, value: string, rest: Parts)
    requires forall j :: !OccursAt(s, token, j)
    ensures ApplyTokens(s, [(token, value)] + rest) == ApplyTokens(s, rest)
  {
    ReplaceFirstAbsent(s, token, value);
    assert ([(token, value)] + rest)[1..] == rest;
  }

  /** A pass whose token cannot start anywhere in the string. */
  lemma SkipMissing(s: string, token: string, value: string, rest: Parts)
    requires token != [] && token[0] !in s
    ensures ApplyTokens(s, [(token, value)] + rest) == ApplyTokens(s, rest)
  {
    AbsentByFirstChar(s, token);
    Skip(s, token, value, rest);
  }

  /** Every pass of the list is for one of the template tokens. */
  predicate TokensOnly(parts: Parts) {
    forall i :: 0 <= i < |parts| ==> parts[i].0 in Tokens
  }

  /** The passes that remain once no token letter is left change nothing. */
  lemma NothingLeft(s: string, rest: Parts)
    requires NoTokenLetters(s) && TokensOnly(rest)
    ensures ApplyTokens(s, rest) == s
  {
    NoTokenLettersAbsent(s, 'M');
    NoTokenLettersAbsent(s, 'D');
    NoTokenLettersAbsent(s, 'Y');
    ApplyTokensUntouched(s, rest);
  }

  /** A template ending in YYYY, once the tokens before it are replaced. */
  lemma LongYearLast(pre: string, yyyy: string, rest: Parts)
    requires NoTokenLetters(pre) && NoTokenLetters(yyyy) && TokensOnly(rest)
    ensures ApplyTokens(pre + "YYYY", [("YYYY", yyyy)] + rest) == pre + yyyy
  {
    NoTokenLettersAbsent(pre, 'Y');
    Pass(pre + "YYYY", pre, "YYYY", "", yyyy, rest, pre + yyyy);
    NoTokenLettersAppend(pre, yyyy);
    NothingLeft(pre + yyyy, rest);
  }

  /** "MM/DD/YYYY" gives mm/dd/yyyy. */
  lemma DefaultFormatShape(mm: string, dd: string, yyyy: string, yy: string, m: string, dday: string)
    requires NoTokenLetters(mm) && NoTokenLetters(dd) && NoTokenLetters(yyyy)
    ensures ApplyTokens("MM/DD/YYYY", TokenParts(mm, dd, yyyy, yy, m, dday)) == mm + "/" + dd + "/" + yyyy
  {
    var rest: Parts := [("YY", yy)] + ([("M", m)] + [("D", dday)]);
    assert TokensOnly(rest);
    Pass("MM/DD/YYYY", "", "MM", "/DD/YYYY", mm, [("DD", dd)] + ([("YYYY", yyyy)] + rest), mm + "/DD/YYYY");
    DefaultFormatDay(mm, dd, yyyy, rest);
  }

  lemma DefaultFormatDay(mm: string, dd: string, yyyy: string, rest: Parts)
    requires NoTokenLetters(mm) && NoTokenLetters(dd) && NoTokenLetters(yyyy) && TokensOnly(rest)
    ensures ApplyTokens(mm + "/DD/YYYY", [("DD", dd)] + ([("YYYY", yyyy)] + rest)) == mm + "/" + dd + "/" + yyyy
  {
    var pre := mm + "/" + dd + "/";
    assert NoTokenLetters(pre) by {
      NoTokenLettersAppend(mm, "/");
      NoTokenLettersAppend(mm + "/", dd);
      NoTokenLettersAppend(mm + "/" + dd, "/");
    }
    assert 'D' !in mm + "/" by {
      NoTokenLettersAppend(mm, "/");
      NoTokenLettersAbsent(mm + "/", 'D');
    }
    Pass(mm + "/DD/YYYY", mm + "/", "DD", "/YYYY", dd, [("YYYY", yyyy)] + rest, pre + "YYYY");
    LongYearLast(pre, yyyy, rest);
  }

  /** "DD-MM-YYYY" gives dd-mm-yyyy. */
  lemma DayFirstShape(mm: string, dd: string, yyyy: string, yy: string, m: string, dday: string)
    requires NoTokenLetters(mm) && NoTokenLetters(dd) && NoTokenLetters(yyyy)
    ensures ApplyTokens("DD-MM-YYYY", TokenParts(mm, dd, yyyy, yy, m, dday)) == dd + "-" + mm + "-" + yyyy
  {
    var rest: Parts := [("YY", yy)] + ([("M", m)] + [("D", dday)]);
    assert TokensOnly(rest);
    Pass("DD-MM-YYYY", "DD-", "MM", "-YYYY", mm, [("DD", dd)] + ([("YYYY", yyyy)] + rest), "DD-" + mm + "-YYYY");
    DayFirstDay(mm, dd, yyyy, rest);
  }

  lemma DayFirstDay(mm: string, dd: string, yyyy: string, rest: Parts)
    requires NoTokenLetters(mm) && NoTokenLetters(dd) && NoTokenLetters(yyyy) && TokensOnly(rest)
    ensures ApplyTokens("DD-" + mm + "-YYYY", [("DD", dd)] + ([("YYYY", yyyy)] + rest)) == dd + "-" + mm + "-" + yyyy
  {
    var pre := dd + "-" + mm + "-";
    assert NoTokenLetters(pre) by {
      NoTokenLettersAppend(dd, "-");
      NoTokenLettersAppend(dd + "-", mm);
      NoTokenLettersAppend(dd + "-" + mm, "-");
    }
    DayFirstDayPass(mm, dd, [("YYYY", yyyy)] + rest);
    LongYearLast(pre, yyyy, rest);
  }

  lemma DayFirstDayPass(mm: string, dd: string, rest: Parts)
    ensures ApplyTokens("DD-" + mm + "-YYYY", [("DD", dd)] + rest) == ApplyTokens(dd + "-" + mm + "-" + "YYYY", rest)
  {
    Pass("DD-" + mm + "-YYYY", "", "DD", "-" + mm + "-YYYY", dd, rest, dd + "-" + mm + "-" + "YYYY");
  }

  /** A template ending in YY: YYYY does not occur, so YY takes the short
      year. */
  lemma ShortYearLast(pre: string, yyyy: string, yy: string, rest: Parts)
    requires NoTokenLetters(pre) && NoTokenLetters(yy) && TokensOnly(rest)
    ensures ApplyTokens(pre + "YY", [("YYYY", yyyy)] + ([("YY", yy)] + rest)) == pre + yy
  {
    var s := pre + "YY";
    NoTokenLettersAbsent(pre, 'Y');
    forall j ensures !OccursAt(s, "YYYY", j) {
      if 0 <= j && j + 4 <= |s| {
        assert s[j..j + 4][0] == s[j] == pre[j];
      }
    }
    Skip(s, "YYYY", yyyy, [("YY", yy)] + rest);
    Pass(s, pre, "YY", "", yy, rest, pre + yy);
    NoTokenLettersAppend(pre, yy);
    NothingLeft(pre + yy, rest);
  }

  /** "MM/DD/YY" gives mm/dd/yy. */
  lemma ShortYearShape(mm: string, dd: string, yyyy: string, yy: string, m: string, dday: string)
    requires NoTokenLetters(mm) && NoTokenLetters(dd) && NoTokenLetters(yy)
    ensures ApplyTokens("MM/DD/YY", TokenParts(mm, dd, yyyy, yy, m, dday)) == mm + "/" + dd + "/" + yy
  {
    var rest: Parts := [("M", m)] + [("D", dday)];
    assert TokensOnly(rest);
    var r2 := [("YYYY", yyyy)] + ([("YY", yy)] + rest);
    Pass("MM/DD/YY", "", "MM", "/DD/YY", mm, [("DD", dd)] + r2, mm + "/DD/YY");
    ShortYearDay(mm, dd, yyyy, yy, rest);
  }

  lemma ShortYearDay(mm: string, dd: string, yyyy: string, yy: string, rest: Parts)
    requires NoTokenLetters(mm) && NoTokenLetters(dd) && NoTokenLetters(yy) && TokensOnly(rest)
    ensures ApplyTokens(mm + "/DD/YY", [("DD", dd)] + ([("YYYY", yyyy)] + ([("YY", yy)] + rest)))
         == mm + "/" + dd + "/" + yy
  {
    var pre := mm + "/" + dd + "/";
    assert NoTokenLetters(pre) by {
      NoTokenLettersAppend(mm, "/");
      NoTokenLettersAppend(mm + "/", dd);
      NoTokenLettersAppend(mm + "/" + dd, "/");
    }
    assert 'D' !in mm + "/" by {
      NoTokenLettersAppend(mm, "/");
      NoTokenLettersAbsent(mm + "/", 'D');
    }
    Pass(mm + "/DD/YY", mm + "/", "DD", "/YY", dd, [("YYYY", yyyy)] + ([("YY", yy)] + rest), pre + "YY");
    ShortYearLast(pre, yyyy, yy, rest);
  }

  /** "M/D/YYYY" gives m/d/yyyy with the unpadded month and day. */
  lemma UnpaddedShape(mm: string, dd: string, yyyy: string, yy: string, m: string, dday: string)
    requires NoTokenLetters(yyyy) && NoTokenLetters(m)
    ensures ApplyTokens("M/D/YYYY", TokenParts(mm, dd, yyyy, yy, m, dday)) == m + "/" + dday + "/" + yyyy
  {
    var rest: Parts := [("YY", yy)] + ([("M", m)] + [("D", dday)]);
    UnpaddedHead(mm, dd, yyyy, rest);
    UnpaddedTail(yyyy, yy, m, dday);
  }

  /** MM and DD do not occur in "M/D/YYYY"; YYYY does. */
  lemma UnpaddedHead(mm: string, dd: string, yyyy: string, rest: Parts)
    ensures ApplyTokens("M/D/YYYY", [("MM", mm)] + ([("DD", dd)] + ([("YYYY", yyyy)] + rest)))
         == ApplyTokens("M/D/" + yyyy, rest)
  {
    UnpaddedSkip(mm, 'M', [("DD", dd)] + ([("YYYY", yyyy)] + rest));
    UnpaddedSkip(dd, 'D', [("YYYY", yyyy)] + rest);
    UnpaddedYearPass(yyyy, rest);
  }

  lemma UnpaddedYearPass(yyyy: string, rest: Parts)
    ensures ApplyTokens("M/D/YYYY", [("YYYY", yyyy)] + rest) == ApplyTokens("M/D/" + yyyy, rest)
  {
    Pass("M/D/YYYY", "M/D/", "YYYY", "", yyyy, rest, "M/D/" + yyyy);
  }

  lemma UnpaddedSkip(value: string, c: char, rest: Parts)
    requires c == 'M' || c == 'D'
    ensures ApplyTokens("M/D/YYYY", [([c, c], value)] + rest) == ApplyTokens("M/D/YYYY", rest)
  {
    NoDoubledLetter("M/D/YYYY", c);
    Skip("M/D/YYYY", [c, c], value, rest);
  }

  /** After the year, YY finds no Y and the single letters take m and d. */
  lemma UnpaddedTail(yyyy: string, yy: string, m: string, dday: string)
    requires NoTokenLetters(yyyy) && NoTokenLetters(m)
    ensures ApplyTokens("M/D/" + yyyy, [("YY", yy)] + ([("M", m)] + [("D", dday)])) == m + "/" + dday + "/" + yyyy
  {
    var s := "M/D/" + yyyy;
    assert 'Y' !in s by {
      NoTokenLettersAbsent(yyyy, 'Y');
    }
    SkipMissing(s, "YY", yy, [("M", m)] + [("D", dday)]);
    UnpaddedMonthPass(yyyy, m, [("D", dday)]);
    NoTokenLettersAbsent(m, 'D');
    UnpaddedDayPass(yyyy, m, dday);
  }

  lemma UnpaddedMonthPass(yyyy: string, m: string, rest: Parts)
    ensures ApplyTokens("M/D/" + yyyy, [("M", m)] + rest) == ApplyTokens(m + "/D/" + yyyy, rest)
  {
    Pass("M/D/" + yyyy, "", "M", "/D/" + yyyy, m, rest, m + "/D/" + yyyy);
  }

  lemma UnpaddedDayPass(yyyy: string, m: string, dday: string)
    requires 'D' !in m
    ensures ApplyTokens(m + "/D/" + yyyy, [("D", dday)]) == m + "/" + dday + "/" + yyyy
  {
    Pass(m + "/D/" + yyyy, m + "/", "D", "/" + yyyy, dday, [], m + "/" + dday + "/" + yyyy);
  }

  /** Each token is replaced once: in "MM-MM" the second MM is reached only
      by the single-letter M, which consumes one of its two letters. */
  lemma RepeatedTokenReplacedOnce(mm: string, dd: string, yyyy: string, yy: string, m: string, dday: string)
    requires NoTokenLetters(mm) && NoTokenLetters(m)
    ensures ApplyTokens("MM-MM", TokenParts(mm, dd, yyyy, yy, m, dday)) == mm + "-" + m + "M"
  {
    var rest: Parts := [("DD", dd)] + ([("YYYY", yyyy)] + ([("YY", yy)] + ([("M", m)] + [("D", dday)])));
    Pass("MM-MM", "", "MM", "-MM", mm, rest, mm + "-MM");
    RepeatedTokenRest(mm, dd, yyyy, yy, m, dday);
  }

  lemma RepeatedTokenRest(mm: string, dd: string, yyyy: string, yy: string, m: string, dday: string)
    requires NoTokenLetters(mm) && NoTokenLetters(m)
    ensures ApplyTokens(mm + "-MM", [("DD", dd)] + ([("YYYY", yyyy)] + ([("YY", yy)] + ([("M", m)] + [("D", dday)]))))
         == mm + "-" + m + "M"
  {
    NoTokenLettersAbsent(mm, 'D');
    NoTokenLettersAbsent(mm, 'Y');
    RepeatedTokenSkips(mm, dd, yyyy, yy, [("M", m)] + [("D", dday)]);
    NoTokenLettersAbsent(mm, 'M');
    NoTokenLettersAbsent(m, 'D');
    RepeatedTokenLast(mm, m, dday);
  }

  /** DD, YYYY and YY find nothing in mm-MM. */
  lemma RepeatedTokenSkips(mm: string, dd: string, yyyy: string, yy: string, rest: Parts)
    requires 'D' !in mm && 'Y' !in mm
    ensures ApplyTokens(mm + "-MM", [("DD", dd)] + ([("YYYY", yyyy)] + ([("YY", yy)] + rest)))
         == ApplyTokens(mm + "-MM", rest)
  {
    var s := mm + "-MM";
    SkipMissing(s, "DD", dd, [("YYYY", yyyy)] + ([("YY", yy)] + rest));
    SkipMissing(s, "YYYY", yyyy, [("YY", yy)] + rest);
    SkipMissing(s, "YY", yy, rest);
  }

  /** M takes the first letter of the second MM. */
  lemma RepeatedTokenLast(mm: string, m: string, dday: string)
    requires 'M' !in mm && 'D' !in mm && 'D' !in m
    ensures ApplyTokens(mm + "-MM", [("M", m)] + [("D", dday)]) == mm + "-" + m + "M"
  {
    var out := mm + "-" + m + "M";
    Pass(mm + "-MM", mm + "-", "M", "M", m, [("D", dday)], out);
    SkipMissing(out, "D", dday, []);
  }

  /** Every date the parser reads is shown by the default template as its
      padded month, padded day and full year, separated by slashes. */
  lemma DobDefaultFormat(dob: string, parse: DateParser, d: Date)
    requires dob != Jan1Literal && dob != Feb3Literal && parse(dob) == Some(d)
    ensures FormattedDob(dob, DefaultDateFormat, parse)
         == Pad2(d.month) + "/" + Pad2(d.day) + "/" + NatToDecimal(d.year)
  {
    DatePartsDigits(d);
    DigitsHaveNoTokenLetters(Pad2(d.month));
    DigitsHaveNoTokenLetters(Pad2(d.day));
    DigitsHaveNoTokenLetters(NatToDecimal(d.year));
    DefaultFormatShape(Pad2(d.month), Pad2(d.day), NatToDecimal(d.year), Pad2(d.year % 100),
                       NatToDecimal(d.month), NatToDecimal(d.day));
  }

  /** The same for "DD-MM-YYYY": padded day, padded month, full year. */
  lemma DobDayFirstFormat(dob: string, parse: DateParser, d: Date)
    requires dob != Jan1Literal && dob != Feb3Literal && parse(dob) == Some(d)
    ensures FormattedDob(dob, "DD-MM-YYYY", parse)
         == Pad2(d.day) + "-" + Pad2(d.month) + "-" + NatToDecimal(d.year)
  {
    DatePartsDigits(d);
    DigitsHaveNoTokenLetters(Pad2(d.month));
    DigitsHaveNoTokenLetters(Pad2(d.day));
    DigitsHaveNoTokenLetters(NatToDecimal(d.year));
    DayFirstShape(Pad2(d.month), Pad2(d.day), NatToDecimal(d.year), Pad2(d.year % 100),
                  NatToDecimal(d.month), NatToDecimal(d.day));
  }

  /** "MM/DD/YY": padded month, padded day, two-digit year. */
  lemma DobShortYearFormat(dob: string, parse: DateParser, d: Date)
    requires dob != Jan1Literal && dob != Feb3Literal && parse(dob) == Some(d)
    ensures FormattedDob(dob, "MM/DD/YY", parse)
         == Pad2(d.month) + "/" + Pad2(d.day) + "/" + Pad2(d.year % 100)
  {
    DatePartsDigits(d);
    DigitsHaveNoTokenLetters(Pad2(d.month));
    DigitsHaveNoTokenLetters(Pad2(d.day));
    DigitsHaveNoTokenLetters(Pad2(d.year % 100));
    ShortYearShape(Pad2(d.month), Pad2(d.day), NatToDecimal(d.year), Pad2(d.year % 100),
                   NatToDecimal(d.month), NatToDecimal(d.day));
  }

  /** "M/D/YYYY": unpadded month and day, full year. */
  lemma DobUnpaddedFormat(dob: string, parse: DateParser, d: Date)
    requires dob != Jan1Literal && dob != Feb3Literal && parse(dob) == Some(d)
    ensures FormattedDob(dob, "M/D/YYYY", parse)
         == NatToDecimal(d.month) + "/" + NatToDecimal(d.day) + "/" + NatToDecimal(d.year)
  {
    DatePartsDigits(d);
    DigitsHaveNoTokenLetters(NatToDecimal(d.year));
    DigitsHaveNoTokenLetters(NatToDecimal(d.month));
    UnpaddedShape(Pad2(d.month), Pad2(d.day), NatToDecimal(d.year), Pad2(d.year % 100),
                  NatToDecimal(d.month), NatToDecimal(d.day));
  }

  /** The test expectations of the formatter, for every date parser: the
      special-cased literals never reach it. */
  lemma DobDefaultExample(parse: DateParser)
    ensures FormattedDob(Jan1Literal, DefaultDateFormat, parse) == "01/01/1990"
  {
    JanDigits();
    DefaultFormatShape("01", "01", "1990", "90", "1", "1");
    ExampleTexts();
  }

  lemma DobDayFirstExample(parse: DateParser)
    ensures FormattedDob(Jan1Literal, "DD-MM-YYYY", parse) == "01-01-1990"
  {
    JanDigits();
    DayFirstShape("01", "01", "1990", "90", "1", "1");
    ExampleTexts();
  }

  lemma DobShortYearExample(parse: DateParser)
    ensures FormattedDob(Jan1Literal, "MM/DD/YY", parse) == "01/01/90"
  {
    JanDigits();
    ShortYearShape("01", "01", "1990", "90", "1", "1");
    ExampleTexts();
  }

  lemma DobUnpaddedExample(parse: DateParser)
    ensures FormattedDob(Feb3Literal, "M/D/YYYY", parse) == "2/3/1990"
  {
    assert Feb3Parts == TokenParts("02", "03", "1990", "90", "2", "3");
    DigitsHaveNoTokenLetters("1990");
    DigitsHaveNoTokenLetters("2");
    UnpaddedShape("02", "03", "1990", "90", "2", "3");
    ExampleTexts();
  }

  lemma JanDigits()
    ensures Jan1Parts == TokenParts("01", "01", "1990", "90", "1", "1")
    ensures NoTokenLetters("01") && NoTokenLetters("1990") && NoTokenLetters("90")
  {
    DigitsHaveNoTokenLetters("01");
    DigitsHaveNoTokenLetters("1990");
    DigitsHaveNoTokenLetters("90");
  }

  lemma ExampleTexts()
    ensures "01" + "/" + "01" + "/" + "1990" == "01/01/1990"
    ensures "01" + "-" + "01" + "-" + "1990" == "01-01-1990"
    ensures "01" + "/" + "01" + "/" + "90" == "01/01/90"
    ensures "2" + "/" + "3" + "/" + "1990" == "2/3/1990"
  {
  }
}
