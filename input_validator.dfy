/** Validation of the three free-text answers the front end asks for: the solution
    name, the base namespace and the target framework moniker.

    The source matches two fixed regular expressions; here each is written out as
    a small recursive recogniser, and each recogniser is proved equal to a
    declarative description of the strings it accepts. */
module InputValidator {
  import opened Outcomes
  import opened Models

  /** The outcome of a validation: valid with no message, or invalid with one. */
  datatype ValidationResult = ValidationResult(isValid: bool, errorMessage: Option<string>)

  /** `ValidationResult.Success()`. */
  function Success(): ValidationResult {
    ValidationResult(true, None)
  }

  /** `ValidationResult.Failure(message)`. */
  function Failure(message: string): ValidationResult {
    ValidationResult(false, Some(message))
  }

  /** A success carries no message and is valid; a failure is invalid and carries
      exactly the message it was built with, so the two never coincide. */
  lemma ValidationResultFactories(m: string)
    ensures Success().isValid && Success().errorMessage == None
    ensures !Failure(m).isValid && Failure(m).errorMessage == Some(m)
    ensures Success() != Failure(m)
    ensures forall n :: Failure(n) == Failure(m) ==> n == m
  {
  }

  // ---------------------------------------------------------------------------
  // Character classes
  // ---------------------------------------------------------------------------

  /** `char.IsWhiteSpace`: the Unicode space separators, the line and paragraph
      separators, U+0009 to U+000D and U+0085. */
  predicate IsWhiteSpace(c: char) {
    || ('\U{0009}' <= c <= '\U{000D}') || c == '\U{0020}' || c == '\U{0085}' || c == '\U{00A0}'
    || c == '\U{1680}' || ('\U{2000}' <= c <= '\U{200A}') || c == '\U{2028}' || c == '\U{2029}'
    || c == '\U{202F}' || c == '\U{205F}' || c == '\U{3000}'
  }

  /** `string.IsNullOrWhiteSpace`. */
  predicate IsNullOrWhiteSpace(s: Option<string>) {
    s.None? || forall i :: 0 <= i < |s.value| ==> IsWhiteSpace(s.value[i])
  }

  /** The regular expression class `[A-Za-z]`. */
  predicate IsAsciiLetter(c: char) {
    ('A' <= c <= 'Z') || ('a' <= c <= 'z')
  }

  /** The regular expression class `[A-Za-z0-9_]`. */
  predicate IsWordChar(c: char) {
    IsAsciiLetter(c) || ('0' <= c <= '9') || c == '_'
  }

  /** The first code point of each run of ten decimal digits (Unicode category Nd)
      in the Basic Multilingual Plane. .NET matches regular expressions over UTF-16
      code units, so digits outside this plane never match `\d`. */
  const DigitZeros: seq<int> := [
    0x0030, 0x0660, 0x06F0, 0x07C0, 0x0966, 0x09E6, 0x0A66, 0x0AE6, 0x0B66, 0x0BE6,
    0x0C66, 0x0CE6, 0x0D66, 0x0DE6, 0x0E50, 0x0ED0, 0x0F20, 0x1040, 0x1090, 0x17E0,
    0x1810, 0x1946, 0x19D0, 0x1A80, 0x1A90, 0x1B50, 0x1BB0, 0x1C40, 0x1C50, 0xA620,
    0xA8D0, 0xA900, 0xA9D0, 0xA9F0, 0xAA50, 0xABF0, 0xFF10]

  /** The regular expression class `\d`, which .NET matches against every Unicode
      decimal digit, not only `0`-`9`. */
  predicate IsDecimalDigit(c: char) {
    exists k :: 0 <= k < |DigitZeros| && DigitZeros[k] <= c as int < DigitZeros[k] + 10
  }

  /** Every ASCII digit is a `\d`, and no ASCII letter, `.` or `_` is one. */
  lemma DecimalDigitClass(c: char)
    ensures '0' <= c <= '9' ==> IsDecimalDigit(c)
    ensures IsAsciiLetter(c) || c == '.' || c == '_' ==> !IsDecimalDigit(c)
  {
    if '0' <= c <= '9' {
      assert DigitZeros[0] <= c as int < DigitZeros[0] + 10;
    }
  }

  // ---------------------------------------------------------------------------
  // ^[A-Za-z][A-Za-z0-9_]*(\.[A-Za-z][A-Za-z0-9_]*)*$
  // ---------------------------------------------------------------------------

  /** The recogniser in the state "a segment starts here": a letter, then the rest. */
  predicate MatchName(s: string)
    decreases |s|
  {
    |s| > 0 && IsAsciiLetter(s[0]) && MatchNameRest(s[1..])
  }

  /** The recogniser in the state "inside a segment": the end of the input, another
      word character, or a dot followed by a new segment. */
  predicate MatchNameRest(s: string)
    decreases |s|
  {
    || |s| == 0
    || (IsWordChar(s[0]) && MatchNameRest(s[1..]))
    || (s[0] == '.' && MatchName(s[1..]))
  }

  /** `s.Split('.')`. */
  function SplitOnDots(s: string): (parts: seq<string>)
    ensures |parts| >= 1
    decreases |s|
  {
    if |s| == 0 then [""]
    else if s[0] == '.' then [""] + SplitOnDots(s[1..])
    else
      var rest := SplitOnDots(s[1..]);
      [[s[0]] + rest[0]] + rest[1..]
  }

  /** Every character is in `[A-Za-z0-9_]`. */
  predicate AllWordChars(p: string) {
    forall i :: 0 <= i < |p| ==> IsWordChar(p[i])
  }

  /** One identifier segment: an ASCII letter followed by word characters. */
  predicate IsSegment(p: string) {
    |p| > 0 && IsAsciiLetter(p[0]) && AllWordChars(p[1..])
  }

  /** Every part from index `from` on is a segment. */
  predicate SegmentsFrom(parts: seq<string>, from: nat) {
    forall k :: from <= k < |parts| ==> IsSegment(parts[k])
  }

  /** A dotted identifier: every dot-separated part is a segment (so no part is empty). */
  predicate IsDottedIdentifier(s: string) {
    SegmentsFrom(SplitOnDots(s), 0)
  }

  /** How splitting sees the first character: a dot opens a new empty part, anything
      else extends the first part. */
  lemma SplitOnDotsCons(s: string)
    requires |s| > 0
    ensures s[0] == '.' ==> SplitOnDots(s)[0] == "" && SplitOnDots(s)[1..] == SplitOnDots(s[1..])
    ensures s[0] != '.' ==>
      && SplitOnDots(s)[0] == [s[0]] + SplitOnDots(s[1..])[0]
      && SplitOnDots(s)[1..] == SplitOnDots(s[1..])[1..]
  {
  }

  /** Segments from index 1 of `[p] + rest` are the segments from 0 of `rest`,
      and prefixing the first part does not touch the others. */
  lemma SegmentsFromShift(parts: seq<string>)
    requires |parts| >= 1
    ensures SegmentsFrom(parts, 1) <==> SegmentsFrom(parts[1..], 0)
    ensures SegmentsFrom(parts, 0) <==> IsSegment(parts[0]) && SegmentsFrom(parts, 1)
  {
    if SegmentsFrom(parts[1..], 0) {
      forall k | 1 <= k < |parts| ensures IsSegment(parts[k]) {
        assert parts[k] == parts[1..][k - 1];
      }
    }
  }

  /** A segment headed by `c` is a letter followed by word characters. */
  lemma WordCharsCons(c: char, p: string)
    ensures AllWordChars([c] + p) <==> IsWordChar(c) && AllWordChars(p)
    ensures IsSegment([c] + p) <==> IsAsciiLetter(c) && AllWordChars(p)
  {
    assert ([c] + p)[1..] == p;
    if IsWordChar(c) && AllWordChars(p) {
      forall i | 0 <= i < |[c] + p| ensures IsWordChar(([c] + p)[i]) {
        if i > 0 { assert ([c] + p)[i] == p[i - 1]; }
      }
    }
    if AllWordChars([c] + p) {
      assert IsWordChar(([c] + p)[0]);
      forall i | 0 <= i < |p| ensures IsWordChar(p[i]) {
        assert p[i] == ([c] + p)[i + 1];
      }
    }
  }

  /** The recogniser accepts exactly the dotted identifiers. */
  lemma {:induction false} MatchNameIsDottedIdentifier(s: string)
    ensures MatchName(s) <==> IsDottedIdentifier(s)
    decreases |s|, 1
  {
    var parts := SplitOnDots(s);
    SegmentsFromShift(parts);
    if |s| == 0 {
      assert parts[0] == "";
    } else if s[0] == '.' {
      SplitOnDotsCons(s);
    } else {
      SplitOnDotsCons(s);
      var rest := SplitOnDots(s[1..]);
      MatchNameRestShape(s[1..]);
      SegmentsFromShift(rest);
      WordCharsCons(s[0], rest[0]);
    }
  }

  /** Inside a segment, the recogniser accepts exactly the inputs whose first part
      is all word characters and whose other parts are segments. */
  lemma {:induction false} MatchNameRestShape(s: string)
    ensures MatchNameRest(s) <==> AllWordChars(SplitOnDots(s)[0]) && SegmentsFrom(SplitOnDots(s), 1)
    decreases |s|, 0
  {
    var parts := SplitOnDots(s);
    SegmentsFromShift(parts);
    if |s| == 0 {
      assert parts == [""];
    } else if s[0] == '.' {
      SplitOnDotsCons(s);
      MatchNameIsDottedIdentifier(s[1..]);
      assert !IsWordChar('.');
    } else {
      SplitOnDotsCons(s);
      var rest := SplitOnDots(s[1..]);
      MatchNameRestShape(s[1..]);
      SegmentsFromShift(rest);
      WordCharsCons(s[0], rest[0]);
    }
  }

  /** `ValidNameRegex.IsMatch(s)`: without the Multiline option `$` matches at the end
      of the input and also just before a final line feed. */
  predicate NameRegexIsMatch(s: string) {
    || MatchName(s)
    || (|s| > 0 && s[|s| - 1] == '\n' && MatchName(s[..|s| - 1]))
  }

  /** The strings the name pattern accepts, stated without the recogniser. */
  predicate IsAcceptedName(s: string) {
    || IsDottedIdentifier(s)
    || (|s| > 0 && s[|s| - 1] == '\n' && IsDottedIdentifier(s[..|s| - 1]))
  }

  const SolutionNameEmptyMessage := "Solution name cannot be empty."
  const SolutionNameFormatMessage := "Solution name must be a valid identifier (e.g., Company.Product)."
  const NamespaceEmptyMessage := "Namespace cannot be empty."
  const NamespaceFormatMessage := "Namespace must be a valid .NET namespace (e.g., Company.Product)."
  const VersionEmptyMessage := ".NET version cannot be empty."
  const VersionFormatMessage := ".NET version must be in format 'netX.Y' (e.g., net9.0, net8.0)."

  /** Blank input fails with the "empty" message before any format check; otherwise
      the input is valid iff the pattern accepts it. */
  function ValidateWith(s: Option<string>, accepted: bool, emptyMessage: string, formatMessage: string): ValidationResult {
    if IsNullOrWhiteSpace(s) then Failure(emptyMessage)
    else if !accepted then Failure(formatMessage)
    else Success()
  }

  /** `InputValidator.ValidateSolutionName`. */
  function ValidateSolutionName(name: Option<string>): (r: ValidationResult)
    ensures r.isValid <==> name.Some? && IsAcceptedName(name.value)
    ensures r.isValid ==> r.errorMessage == None
    ensures IsNullOrWhiteSpace(name) ==> r.errorMessage == Some(SolutionNameEmptyMessage)
    ensures !IsNullOrWhiteSpace(name) && !r.isValid ==> r.errorMessage == Some(SolutionNameFormatMessage)
  {
    if name.None? then Failure(SolutionNameEmptyMessage)
    else
      AcceptedNameIsMatch(name.value);
      ValidateWith(name, NameRegexIsMatch(name.value), SolutionNameEmptyMessage, SolutionNameFormatMessage)
  }

  /** `InputValidator.ValidateNamespace`: the same pattern with its own messages. */
  function ValidateNamespace(ns: Option<string>): (r: ValidationResult)
    ensures r.isValid <==> ns.Some? && IsAcceptedName(ns.value)
    ensures r.isValid ==> r.errorMessage == None
    ensures IsNullOrWhiteSpace(ns) ==> r.errorMessage == Some(NamespaceEmptyMessage)
    ensures !IsNullOrWhiteSpace(ns) && !r.isValid ==> r.errorMessage == Some(NamespaceFormatMessage)
  {
    if ns.None? then Failure(NamespaceEmptyMessage)
    else
      AcceptedNameIsMatch(ns.value);
      ValidateWith(ns, NameRegexIsMatch(ns.value), NamespaceEmptyMessage, NamespaceFormatMessage)
  }

  /** The pattern accepts a string iff it is a dotted identifier, possibly followed
      by a single line feed; an accepted string is never blank. */
  lemma AcceptedNameIsMatch(s: string)
    ensures NameRegexIsMatch(s) <==> IsAcceptedName(s)
    ensures IsAcceptedName(s) ==> !IsNullOrWhiteSpace(Some(s))
  {
    MatchNameIsDottedIdentifier(s);
    if |s| > 0 {
      MatchNameIsDottedIdentifier(s[..|s| - 1]);
    }
    if IsAcceptedName(s) {
      assert MatchName(s) || MatchName(s[..|s| - 1]);
      assert IsAsciiLetter(s[0]);
    }
  }

  /** A string is a valid namespace exactly when it is a valid solution name. */
  lemma NamespaceAcceptsSolutionNames(s: Option<string>)
    ensures ValidateNamespace(s).isValid == ValidateSolutionName(s).isValid
  {
  }

  // ---------------------------------------------------------------------------
  // ^net\d+\.\d+$
  // ---------------------------------------------------------------------------

  /** The recogniser for `\d+` running to the end of its input. */
  predicate MatchDigits(s: string)
    decreases |s|
  {
    |s| > 0 && IsDecimalDigit(s[0]) && (|s| == 1 || MatchDigits(s[1..]))
  }

  /** The recogniser after at least one major-version digit: more digits, or the dot
      and the minor version. */
  predicate MatchMajorRest(s: string)
    decreases |s|
  {
    && |s| > 0
    && (|| (IsDecimalDigit(s[0]) && MatchMajorRest(s[1..]))
        || (s[0] == '.' && MatchDigits(s[1..])))
  }

  /** The recogniser for the whole moniker. */
  predicate MatchVersion(s: string) {
    |s| >= 4 && s[..3] == "net" && IsDecimalDigit(s[3]) && MatchMajorRest(s[4..])
  }

  /** A non-empty run of decimal digits. */
  predicate AllDigits(s: string) {
    |s| > 0 && forall i :: 0 <= i < |s| ==> IsDecimalDigit(s[i])
  }

  /** `net`, digits, a dot, digits: stated as a split of the string. */
  predicate IsVersionMoniker(s: string) {
    exists k :: 4 <= k < |s| && s[..3] == "net" && s[k] == '.' && AllDigits(s[3..k]) && AllDigits(s[k + 1..])
  }

  lemma {:induction false} MatchDigitsIsAllDigits(s: string)
    ensures MatchDigits(s) <==> AllDigits(s)
    decreases |s|
  {
    if |s| > 1 {
      MatchDigitsIsAllDigits(s[1..]);
      assert forall i :: 1 <= i < |s| ==> s[i] == s[1..][i - 1];
    }
  }

  /** After digits, the recogniser accepts exactly "digits . digits" splits. */
  lemma {:induction false} MatchMajorRestShape(s: string)
    ensures MatchMajorRest(s) <==>
      exists k :: 0 <= k < |s| && s[k] == '.' && (forall i :: 0 <= i < k ==> IsDecimalDigit(s[i])) && AllDigits(s[k + 1..])
    decreases |s|
  {
    if |s| > 0 {
      MatchMajorRestShape(s[1..]);
      MatchDigitsIsAllDigits(s[1..]);
      DecimalDigitClass('.');
      if MatchMajorRest(s) {
        if s[0] == '.' {
          assert s[0] == '.' && AllDigits(s[1..]);
        } else {
          var k :| 0 <= k < |s[1..]| && s[1..][k] == '.' && (forall i :: 0 <= i < k ==> IsDecimalDigit(s[1..][i])) && AllDigits(s[1..][k + 1..]);
          assert s[1..][k + 1..] == s[k + 2..];
          assert forall i :: 0 <= i < k + 1 ==> IsDecimalDigit(s[i]) by {
            assert forall i :: 1 <= i < k + 1 ==> s[i] == s[1..][i - 1];
          }
          assert s[k + 1] == '.';
        }
      } else {
        forall k | 0 <= k < |s| && s[k] == '.' && (forall i :: 0 <= i < k ==> IsDecimalDigit(s[i]))
          ensures !AllDigits(s[k + 1..])
        {
          if k > 0 {
            assert s[1..][k - 1] == '.';
            assert s[1..][k..] == s[k + 1..];
            assert forall i :: 0 <= i < k - 1 ==> IsDecimalDigit(s[1..][i]) by {
              assert forall i :: 0 <= i < k - 1 ==> s[1..][i] == s[i + 1];
            }
          }
        }
      }
    }
  }

  /** The recogniser accepts exactly the "net" + digits + "." + digits strings. */
  lemma MatchVersionIsMoniker(s: string)
    ensures MatchVersion(s) <==> IsVersionMoniker(s)
  {
    if |s| >= 4 && s[..3] == "net" {
      var t := s[4..];
      MatchMajorRestShape(t);
      DecimalDigitClass('.');
      if MatchVersion(s) {
        var j :| 0 <= j < |t| && t[j] == '.' && (forall i :: 0 <= i < j ==> IsDecimalDigit(t[i])) && AllDigits(t[j + 1..]);
        assert t[j + 1..] == s[j + 5..];
        assert s[j + 4] == '.';
        assert AllDigits(s[3..j + 4]) by {
          var u := s[3..j + 4];
          forall i | 0 <= i < j + 1 ensures IsDecimalDigit(u[i]) {
            if i > 0 { assert u[i] == t[i - 1]; }
          }
        }
      }
      if IsVersionMoniker(s) {
        var k :| 4 <= k < |s| && s[..3] == "net" && s[k] == '.' && AllDigits(s[3..k]) && AllDigits(s[k + 1..]);
        assert s[3..k][0] == s[3];
        assert t[k - 4] == '.';
        assert t[k - 4 + 1..] == s[k + 1..];
        assert forall i :: 0 <= i < k - 4 ==> IsDecimalDigit(t[i]) by {
          assert forall i :: 0 <= i < k - 4 ==> t[i] == s[3..k][i + 1];
        }
      }
    } else if |s| >= 4 {
      assert !IsVersionMoniker(s);
    }
  }

  /** `Regex.IsMatch(version, @"^net\d+\.\d+$")`, with `$` also matching before a final line feed. */
  predicate VersionRegexIsMatch(s: string) {
    || MatchVersion(s)
    || (|s| > 0 && s[|s| - 1] == '\n' && MatchVersion(s[..|s| - 1]))
  }

  /** The strings the version pattern accepts, stated without the recogniser. */
  predicate IsAcceptedVersion(v: string) {
    || IsVersionMoniker(v)
    || (|v| > 0 && v[|v| - 1] == '\n' && IsVersionMoniker(v[..|v| - 1]))
  }

  /** The version pattern accepts a moniker, possibly followed by one line feed,
      and nothing else; an accepted string is never blank. */
  lemma VersionRegexIsMoniker(v: string)
    ensures VersionRegexIsMatch(v) <==> IsAcceptedVersion(v)
    ensures VersionRegexIsMatch(v) ==> !IsNullOrWhiteSpace(Some(v))
  {
    MatchVersionIsMoniker(v);
    if |v| > 0 { MatchVersionIsMoniker(v[..|v| - 1]); }
    if VersionRegexIsMatch(v) {
      assert v[0] == 'n';
    }
  }

  /** `InputValidator.ValidateDotNetVersion`. */
  function ValidateDotNetVersion(version: Option<string>): (r: ValidationResult)
    ensures r.isValid <==> version.Some? && IsAcceptedVersion(version.value)
    ensures r.isValid ==> r.errorMessage == None
    ensures IsNullOrWhiteSpace(version) ==> r.errorMessage == Some(VersionEmptyMessage)
    ensures !IsNullOrWhiteSpace(version) && !r.isValid ==> r.errorMessage == Some(VersionFormatMessage)
  {
    if version.None? then Failure(VersionEmptyMessage)
    else
      VersionRegexIsMoniker(version.value);
      ValidateWith(version, VersionRegexIsMatch(version.value), VersionEmptyMessage, VersionFormatMessage)
  }

  /** The sample name in the messages is a dotted identifier. */
  lemma SampleNameMatches()
    ensures MatchName("Company.Product")
  {
    var good := "Company.Product";
    assert MatchName(good[8..]) by {
      assert MatchNameRest(good[15..]);
      assert MatchNameRest(good[14..]);
      assert MatchNameRest(good[13..]);
      assert MatchNameRest(good[12..]);
      assert MatchNameRest(good[11..]);
      assert MatchNameRest(good[10..]);
      assert MatchNameRest(good[9..]);
    }
    assert MatchNameRest(good[1..]) by {
      assert MatchNameRest(good[7..]);
      assert MatchNameRest(good[6..]);
      assert MatchNameRest(good[5..]);
      assert MatchNameRest(good[4..]);
      assert MatchNameRest(good[3..]);
      assert MatchNameRest(good[2..]);
    }
  }

  /** Worked cases for names: the sample in the messages passes, with or without a
      final line feed. */
  lemma NameAcceptedExamples()
    ensures ValidateSolutionName(Some("Company.Product")).isValid
  {
    SampleNameMatches();
    assert NameRegexIsMatch("Company.Product");
  }

  /** `$` also matches before a final line feed, so the sample followed by one passes. */
  lemma TrailingLineFeedAccepted()
    ensures ValidateNamespace(Some("Company.Product\n")).isValid
  {
    var good := "Company.Product";
    SampleNameMatches();
    var goodLf := good + "\n";
    assert goodLf[..|goodLf| - 1] == good;
    assert NameRegexIsMatch(goodLf);
    assert goodLf == "Company.Product\n";
  }

  /** A leading digit fails the format check. */
  lemma LeadingDigitRejected()
    ensures ValidateSolutionName(Some("1Company")).errorMessage == Some(SolutionNameFormatMessage)
  {
    var n := "1Company";
    assert !MatchName(n);
    assert !MatchName(n[..7]);
    assert !NameRegexIsMatch(n);
    assert !IsWhiteSpace(n[0]);
  }

  /** An empty segment fails the format check. */
  lemma EmptySegmentRejected()
    ensures ValidateNamespace(Some("A..B")).errorMessage == Some(NamespaceFormatMessage)
  {
    var n := "A..B";
    assert !MatchName(n[2..]);
    assert !MatchNameRest(n[1..]);
    assert !MatchName(n);
    assert !NameRegexIsMatch(n);
    assert !IsWhiteSpace(n[0]);
  }

  /** Blank input gets the "empty" message, not the format one. */
  lemma BlankNameRejected()
    ensures ValidateSolutionName(Some("  ")).errorMessage == Some(SolutionNameEmptyMessage)
    ensures ValidateSolutionName(None).errorMessage == Some(SolutionNameEmptyMessage)
  {
    assert IsNullOrWhiteSpace(Some("  "));
  }

  /** Worked cases for versions: current monikers pass, including a two-digit major
      version; a missing minor version and upper case fail. */
  lemma VersionExamples()
    ensures ValidateDotNetVersion(Some("net9.0")).isValid
    ensures ValidateDotNetVersion(Some("net10.0")).isValid
    ensures !ValidateDotNetVersion(Some("net9")).isValid
    ensures !ValidateDotNetVersion(Some("NET9.0")).isValid
    ensures ValidateDotNetVersion(None).errorMessage == Some(VersionEmptyMessage)
  {
    DecimalDigitClass('9');
    DecimalDigitClass('1');
    DecimalDigitClass('0');
    DecimalDigitClass('.');
    var v9 := "net9.0";
    assert MatchDigits(v9[5..]);
    assert MatchMajorRest(v9[4..]);
    assert MatchVersion(v9);
    var v10 := "net10.0";
    assert MatchDigits(v10[6..]);
    assert MatchMajorRest(v10[5..]);
    assert MatchMajorRest(v10[4..]);
    assert MatchVersion(v10);
    assert !MatchMajorRest("net9"[4..]);
    assert !MatchVersion("net9");
    assert "NET9.0"[..3][0] == 'N';
    assert !MatchVersion("NET9.0");
  }

  /** A fresh configuration holds answers of both kinds: its empty solution name and
      namespace get the "empty" messages, and its default framework `net9.0` passes. */
  lemma FreshConfigurationAnswers()
    ensures ValidateSolutionName(Some(NewSolutionConfiguration().solutionName)).errorMessage == Some(SolutionNameEmptyMessage)
    ensures ValidateNamespace(Some(NewSolutionConfiguration().baseNamespace)).errorMessage == Some(NamespaceEmptyMessage)
    ensures ValidateDotNetVersion(Some(NewSolutionConfiguration().targetFramework)).isValid
  {
    VersionExamples();
    assert IsNullOrWhiteSpace(Some(""));
  }
}
