/**
 * Validation of Cloudinary image ids (`core/validators.py`): an id may hold
 * only ASCII letters, digits, `_` and `-`, so that it cannot smuggle a path or
 * markup into the image URL.
 */
module Validators {
  import opened Wrappers

  /** Why an image id was refused. */
  datatype ImageIdError =
    | UnsafeCharacters  // "Image ID can only contain letters, numbers, underscores, and hyphens."
    | Blank             // an empty value where blanks are not allowed
    | TooLong           // longer than the field's maximum length

  /** The character class `[a-zA-Z0-9_-]`. */
  predicate IsImageIdChar(c: char) {
    'a' <= c <= 'z' || 'A' <= c <= 'Z' || '0' <= c <= '9' || c == '_' || c == '-'
  }

  /** Every character of `s` is in the character class. */
  function AllImageIdChars(s: string): (b: bool)
    ensures b <==> forall i :: 0 <= i < |s| ==> IsImageIdChar(s[i])
  {
    if s == [] then true
    else
      var rest := AllImageIdChars(s[1..]);
      assert forall i :: 1 <= i < |s| ==> s[i] == s[1..][i - 1];
      IsImageIdChar(s[0]) && rest
  }

  /**
   * Whether Python's `re.match(r"^[a-zA-Z0-9_-]+$", s)` succeeds. Python's `$`
   * matches at the very end and also just before a newline that ends the
   * string, so one trailing "\n" after a non-empty run of class characters
   * matches too.
   */
  predicate PatternMatchesAsWritten(s: string) {
    || (s != "" && AllImageIdChars(s))
    || (|s| >= 2 && s[|s| - 1] == '\n' && AllImageIdChars(s[..|s| - 1]))
  }

  /**
   * `validate_image_id` as written: a missing or empty value passes unchanged,
   * a value the pattern matches passes unchanged, anything else is refused.
   */
  function ValidateImageIdAsWritten(value: Option<string>): (r: Result<Option<string>, ImageIdError>)
    ensures r.Success? ==> r.value == value
    ensures r.Failure? ==> r.error == UnsafeCharacters
    ensures r.Success? <==> value == None || value == Some("") || PatternMatchesAsWritten(value.value)
  {
    match value
    case None => Success(value)
    case Some(s) =>
      if s == "" || PatternMatchesAsWritten(s) then Success(value) else Failure(UnsafeCharacters)
  }

  /**
   * `validate_image_id` as its documentation describes it: a missing or empty
   * value passes, a non-empty value passes exactly when each of its characters
   * is a letter, a digit, `_` or `-`; an accepted value is returned unchanged.
   */
  function ValidateImageId(value: Option<string>): (r: Result<Option<string>, ImageIdError>)
    ensures r.Success? ==> r.value == value
    ensures r.Failure? ==> r.error == UnsafeCharacters
    ensures r.Success? <==>
      value == None || forall i :: 0 <= i < |value.value| ==> IsImageIdChar(value.value[i])
  {
    match value
    case None => Success(value)
    case Some(s) =>
      if s == "" || AllImageIdChars(s) then Success(value) else Failure(UnsafeCharacters)
  }

  /** The pattern as written lets "abc\n" through; the intended check refuses it. */
  lemma TrailingNewlineAccepted()
    ensures ValidateImageIdAsWritten(Some("abc\n")) == Success(Some("abc\n"))
    ensures ValidateImageId(Some("abc\n")) == Failure(UnsafeCharacters)
  {
    var s := "abc\n";
    assert s[..|s| - 1] == "abc";
    assert !IsImageIdChar(s[3]);
  }

  /** The two versions disagree only on a value ending in a newline. */
  lemma {:induction false} AsWrittenDiffersOnlyOnTrailingNewline(value: Option<string>)
    ensures ValidateImageIdAsWritten(value) != ValidateImageId(value) ==>
      value.Some? && |value.value| >= 2 && value.value[|value.value| - 1] == '\n'
    ensures ValidateImageId(value).Success? ==> ValidateImageIdAsWritten(value).Success?
  {
  }

  /** A value holding any character outside the class, such as `.`, `/`, a space, `<`, `@`, `#` or `$`, is refused. */
  lemma {:induction false} UnsafeCharacterRefused(s: string, i: nat)
    requires i < |s| && !IsImageIdChar(s[i])
    ensures ValidateImageId(Some(s)) == Failure(UnsafeCharacters)
  {
  }

  /** Path traversal, whitespace, markup and punctuation are all refused. */
  lemma AttackShapesRefused()
    ensures ValidateImageId(Some("../etc/passwd")).Failure?
    ensures ValidateImageId(Some("abc def")).Failure?
    ensures ValidateImageId(Some("<script>")).Failure?
    ensures ValidateImageId(Some("abc@#$")).Failure?
  {
    UnsafeCharacterRefused("../etc/passwd", 0);
    UnsafeCharacterRefused("abc def", 3);
    UnsafeCharacterRefused("<script>", 0);
    UnsafeCharacterRefused("abc@#$", 3);
  }

  /** The options of a text field that matter here. */
  datatype FieldOptions = FieldOptions(maxLength: Option<nat>, required: bool, allowBlank: bool)

  /**
   * `ImageIdField(**kwargs)`: the options the caller gave, with a maximum
   * length of 16, not required and blank allowed filled in where the caller
   * gave none.
   */
  function ImageIdFieldOptions(maxLength: Option<Option<nat>>, required: Option<bool>, allowBlank: Option<bool>): (o: FieldOptions)
    ensures o.maxLength == (if maxLength.Some? then maxLength.value else Some(16))
    ensures o.required == (required == Some(true))
    ensures o.allowBlank == (allowBlank != Some(false))
  {
    FieldOptions(
      match maxLength case Some(m) => m case None => Some(16),
      match required case Some(b) => b case None => false,
      match allowBlank case Some(b) => b case None => true)
  }

  /**
   * The whitespace characters a text field trims from both ends of its input:
   * Python's `str.isspace` set, i.e. the ASCII controls tab to carriage return
   * and the file/group/record/unit separators, space, next line, no-break
   * space, and the Unicode space and line/paragraph separators.
   */
  const Whitespace: set<char> := {
    '\t', '\n', '\U{b}', '\U{c}', '\r', '\U{1c}', '\U{1d}', '\U{1e}', '\U{1f}', ' ', '\U{85}',
    '\U{a0}', '\U{1680}', '\U{2000}', '\U{2001}', '\U{2002}', '\U{2003}', '\U{2004}', '\U{2005}',
    '\U{2006}', '\U{2007}', '\U{2008}', '\U{2009}', '\U{200a}', '\U{2028}', '\U{2029}', '\U{202f}',
    '\U{205f}', '\U{3000}'
  }

  predicate IsWhitespace(c: char) { c in Whitespace }

  /** Every character of `t` is whitespace. */
  predicate AllWhitespace(t: string) {
    forall i :: 0 <= i < |t| ==> IsWhitespace(t[i])
  }

  /** How many whitespace characters `s` starts with. */
  function LeadingSpace(s: string): (n: nat)
    ensures n <= |s| && AllWhitespace(s[..n])
    ensures n == |s| || !IsWhitespace(s[n])
  {
    if s != [] && IsWhitespace(s[0]) then
      var n := LeadingSpace(s[1..]);
      assert s[..n + 1] == [s[0]] + s[1..][..n];
      1 + n
    else 0
  }

  /** How many whitespace characters `s` ends with. */
  function TrailingSpace(s: string): (n: nat)
    ensures n <= |s| && AllWhitespace(s[|s| - n..])
    ensures n == |s| || !IsWhitespace(s[|s| - n - 1])
  {
    if s != [] && IsWhitespace(s[|s| - 1]) then
      var t := s[..|s| - 1];
      var n := TrailingSpace(t);
      assert s[|s| - n - 1..] == t[|t| - n..] + [s[|s| - 1]];
      1 + n
    else 0
  }

  /** `s` without its leading whitespace: everything dropped is whitespace, and the rest is kept. */
  function TrimStart(s: string): (r: string)
    ensures r == [] || !IsWhitespace(r[0])
    ensures |r| <= |s| && r == s[|s| - |r|..]
    ensures AllWhitespace(s[..|s| - |r|])
  {
    s[LeadingSpace(s)..]
  }

  /** `s` without its trailing whitespace: everything dropped is whitespace, and the rest is kept. */
  function TrimEnd(s: string): (r: string)
    ensures r == [] || !IsWhitespace(r[|r| - 1])
    ensures |r| <= |s| && r == s[..|r|]
    ensures AllWhitespace(s[|r|..])
  {
    s[..|s| - TrailingSpace(s)]
  }

  /**
   * The text a field works on after trimming whitespace from both ends
   * (Python's `str.strip()`): `s` is its `k` leading whitespace characters,
   * then the result, which neither starts nor ends with whitespace, then
   * nothing but whitespace.
   */
  function Trim(s: string): (r: string)
    ensures r == [] || (!IsWhitespace(r[0]) && !IsWhitespace(r[|r| - 1]))
    ensures var k := LeadingSpace(s);
      && k + |r| <= |s| && r == s[k..k + |r|]
      && AllWhitespace(s[..k]) && AllWhitespace(s[k + |r|..])
  {
    var k := LeadingSpace(s);
    var r := TrimEnd(s[k..]);
    TrimmedParts(s, k, r);
    r
  }

  /** The end-trimmed rest `r` of `s` after `k` leading characters is a slice of `s` followed only by whitespace. */
  lemma {:induction false} TrimmedParts(s: string, k: nat, r: string)
    requires k <= |s| && (k == |s| || !IsWhitespace(s[k]))
    requires |r| <= |s| - k && r == s[k..][..|r|] && AllWhitespace(s[k..][|r|..])
    ensures r == [] || !IsWhitespace(r[0])
    ensures k + |r| <= |s| && r == s[k..k + |r|] && AllWhitespace(s[k + |r|..])
  {
    assert r != [] ==> r[0] == s[k];
    assert s[k + |r|..] == s[k..][|r|..];
  }

  /**
   * What a text field (`CharField`) makes of the string it is given: blank
   * after trimming is `""` when blanks are allowed and refused otherwise; a
   * trimmed value longer than the maximum, or holding a NUL character, is
   * refused; anything else is the trimmed value.
   */
  function CharFieldText(data: string, maxLength: nat, allowBlank: bool): (r: Option<string>)
    ensures r.Some? <==>
      (Trim(data) == "" && allowBlank) || (Trim(data) != "" && |Trim(data)| <= maxLength && '\0' !in Trim(data))
    ensures r.Some? ==> r.value == Trim(data) && |r.value| <= maxLength && '\0' !in r.value
    ensures allowBlank ==> (r.None? <==> |Trim(data)| > maxLength || '\0' in Trim(data))
  {
    var t := Trim(data);
    if t == "" then
      if allowBlank then Some("") else None
    else if |t| > maxLength || '\0' in t then None
    else Some(t)
  }

  /**
   * What an `ImageIdField` makes of its input: the trimmed text, `""` when
   * that is blank and blanks are allowed, otherwise the text checked by
   * `validate_image_id`, then held to the maximum length.
   */
  function ImageIdFieldValue(o: FieldOptions, data: string, asWritten: bool): (r: Result<string, ImageIdError>)
    ensures r.Success? ==> r.value == Trim(data)
    ensures r.Success? && r.value != "" ==>
      forall i :: 0 <= i < |r.value| ==> IsImageIdChar(r.value[i])
    ensures r.Success? && o.maxLength.Some? ==> |r.value| <= o.maxLength.value
  {
    var t := Trim(data);
    if t == "" then
      if o.allowBlank then Success("") else Failure(Blank)
    else
      var checked := if asWritten then ValidateImageIdAsWritten(Some(t)) else ValidateImageId(Some(t));
      if checked.Failure? then Failure(checked.error)
      else if o.maxLength.Some? && |t| > o.maxLength.value then Failure(TooLong)
      else Success(t)
  }

  /**
   * `Trim` removes exactly the edge whitespace: when only whitespace lies
   * before `k` and from `j` on, and `s[k..j]` is empty or has no whitespace at
   * either end, the trimmed text is `s[k..j]`.
   */
  lemma {:induction false} TrimBetween(s: string, k: nat, j: nat)
    requires k <= j <= |s|
    requires forall i :: 0 <= i < k ==> IsWhitespace(s[i])
    requires forall i :: j <= i < |s| ==> IsWhitespace(s[i])
    requires k < j ==> !IsWhitespace(s[k]) && !IsWhitespace(s[j - 1])
    ensures Trim(s) == s[k..j]
  {
    var r := Trim(s);
    var n := LeadingSpace(s);
    if k < j {
      assert n == k;
    }
  }

  /** Unicode whitespace such as a leading no-break space is trimmed off before the image id is checked. */
  lemma LeadingNoBreakSpaceTrimmed()
    ensures ImageIdFieldValue(FieldOptions(Some(16), false, true), "\U{a0}abc", false) == Success("abc")
  {
    var s := "\U{a0}abc";
    assert IsWhitespace(s[0]) && !IsWhitespace(s[1]) && !IsWhitespace(s[3]);
    TrimBetween(s, 1, 4);
    assert s[1..4] == "abc";
    PlainIdAccepted();
  }

  lemma PlainIdAccepted()
    ensures ValidateImageId(Some("abc")) == Success(Some("abc"))
  {
    assert IsImageIdChar('a') && IsImageIdChar('b') && IsImageIdChar('c');
  }

  /** A text field keeps what is left after trimming Unicode whitespace from both ends. */
  lemma CharFieldTextTrimsUnicodeSpace()
    ensures CharFieldText("\U{3000}A\U{a0}", 32, true) == Some("A")
  {
    var s := "\U{3000}A\U{a0}";
    assert IsWhitespace(s[0]) && !IsWhitespace(s[1]) && IsWhitespace(s[2]);
    TrimBetween(s, 1, 2);
    assert s[1..2] == "A";
  }

  /** A line separator alone is blank: `""` where blanks are allowed, refused where not. */
  lemma CharFieldTextBlank()
    ensures CharFieldText("\U{2028}", 32, true) == Some("")
    ensures CharFieldText("\U{2028}", 32, false) == None
  {
    var u := "\U{2028}";
    assert IsWhitespace(u[0]);
    TrimBetween(u, 1, 1);
  }

  /** A NUL character inside the text is refused. */
  lemma CharFieldTextRefusesNul()
    ensures CharFieldText("a\0b", 32, true) == None
  {
    var v := "a\0b";
    assert !IsWhitespace(v[0]) && !IsWhitespace(v[2]);
    TrimBetween(v, 0, 3);
    assert v[0..3] == v && v[1] == '\0';
  }

  /**
   * Through an `ImageIdField` the trailing-newline gap cannot be reached: the
   * field trims the text first, so a value never ends in a newline when the
   * id check sees it, and the check as written and the intended one agree.
   */
  lemma {:induction false} ImageIdFieldHidesTrailingNewline(o: FieldOptions, data: string)
    ensures ImageIdFieldValue(o, data, true) == ImageIdFieldValue(o, data, false)
  {
    var t := Trim(data);
    if t != "" {
      assert IsWhitespace('\n');
      AsWrittenDiffersOnlyOnTrailingNewline(Some(t));
    }
  }
}
