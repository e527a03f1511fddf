/** The client's field validator and the digit filter used by the input transform. */
module Validation {
  import opened Wrappers
  import opened Text
  import opened Schema

  /** `s.replace(/\D+/g, '')`: the digits of `s`, in order. */
  function OnlyDigits(s: string): (r: string)
    ensures AllDigits(r)
    ensures |r| <= |s|
  {
    if s == [] then [] else (if IsDigit(s[0]) then [s[0]] else []) + OnlyDigits(s[1..])
  }

  /**
   * Each digit occurs in the result as often as in `s`; with `AllDigits` of
   * the result, this says every non-digit is dropped and nothing is added.
   */
  lemma {:induction false} OnlyDigitsCounts(s: string)
    ensures forall c :: IsDigit(c) ==> multiset(OnlyDigits(s))[c] == multiset(s)[c]
  {
    if s != [] {
      OnlyDigitsCounts(s[1..]);
      assert s == [s[0]] + s[1..];
    }
  }

  /** Filtering distributes over concatenation, so every digit keeps its place relative to the others. */
  lemma {:induction false} OnlyDigitsAppend(a: string, b: string)
    ensures OnlyDigits(a + b) == OnlyDigits(a) + OnlyDigits(b)
  {
    if a != [] {
      var head := if IsDigit(a[0]) then [a[0]] else [];
      assert (a + b)[0] == a[0] && (a + b)[1..] == a[1..] + b;
      assert OnlyDigits(a + b) == head + OnlyDigits(a[1..] + b);
      assert OnlyDigits(a) == head + OnlyDigits(a[1..]);
      OnlyDigitsAppend(a[1..], b);
    } else {
      assert a + b == b;
    }
  }

  /** A string of digits only is left as it is. */
  lemma {:induction false} OnlyDigitsOfDigits(s: string)
    requires AllDigits(s)
    ensures OnlyDigits(s) == s
  {
    if s != [] {
      OnlyDigitsOfDigits(s[1..]);
    }
  }

  lemma OnlyDigitsIdempotent(s: string)
    ensures OnlyDigits(OnlyDigits(s)) == OnlyDigits(s)
  {
    OnlyDigitsOfDigits(OnlyDigits(s));
  }

  function RequiredMessage(f: Field): string { LabelText(f) + " is required." }

  function TooLongMessage(f: Field): string
    requires f.maxlength.Some?
  {
    LabelText(f) + " must be at most " + IntToString(f.maxlength.value) + " characters."
  }

  function FormatMessage(f: Field): string { LabelText(f) + " format is invalid." }

  /** The three messages differ in the character after the label, so a message names its rule. */
  lemma MessagesDistinct(f: Field)
    ensures RequiredMessage(f) != FormatMessage(f)
    ensures f.maxlength.Some? ==> TooLongMessage(f) != RequiredMessage(f) && TooLongMessage(f) != FormatMessage(f)
  {
    var n := |LabelText(f)|;
    assert RequiredMessage(f)[n + 1] == 'i';
    assert FormatMessage(f)[n + 1] == 'f';
    if f.maxlength.Some? {
      assert TooLongMessage(f)[n + 1] == 'm';
    }
  }

  /**
   * `validateBySchema(value, field)`: the first failing rule of required,
   * maximum length and pattern, or `None`. A pattern that does not compile
   * counts as a pass.
   */
  function ValidateBySchema(value: string, f: Field, rx: RegExp): (r: Option<string>)
    // an empty required value is reported as missing, whatever else is set
    ensures f.required && value == "" ==> r == Some(RequiredMessage(f))
    // an empty optional value is always accepted
    ensures !f.required && value == "" ==> r == None
    // the length check comes before the pattern check
    ensures value != "" && HasMaxLength(f) && |value| > f.maxlength.value ==> r == Some(TooLongMessage(f))
    // a value within length that the compiled pattern rejects is malformed
    ensures value != "" && (!HasMaxLength(f) || |value| <= f.maxlength.value)
            && HasPattern(f) && rx.compiles(f.pattern.value) && !rx.test(f.pattern.value, value)
            ==> r == Some(FormatMessage(f))
    // a malformed-value report needs a pattern that compiled and did not match
    ensures r == Some(FormatMessage(f)) ==>
            value != "" && HasPattern(f) && rx.compiles(f.pattern.value) && !rx.test(f.pattern.value, value)
    // a non-empty value within length that the pattern (if it compiles) accepts passes
    ensures value != "" && (!HasMaxLength(f) || |value| <= f.maxlength.value)
            && (!HasPattern(f) || !rx.compiles(f.pattern.value) || rx.test(f.pattern.value, value))
            ==> r == None
  {
    MessagesDistinct(f);
    if f.required && value == "" then Some(RequiredMessage(f))
    else if value != "" && HasMaxLength(f) && |value| > f.maxlength.value then Some(TooLongMessage(f))
    else if value != "" && HasPattern(f) && rx.compiles(f.pattern.value) && !rx.test(f.pattern.value, value) then
      Some(FormatMessage(f))
    else None
  }

  /** A value of exactly `maxlength` characters passes the length check; one more fails it. */
  lemma LengthBoundary(value: string, f: Field, rx: RegExp)
    requires HasMaxLength(f) && f.maxlength.value >= 0
    ensures |value| == f.maxlength.value ==> ValidateBySchema(value, f, rx) != Some(TooLongMessage(f))
    ensures |value| == f.maxlength.value + 1 ==> ValidateBySchema(value, f, rx) == Some(TooLongMessage(f))
  {
    MessagesDistinct(f);
  }

  /** An absent or zero `maxlength` disables the length check. */
  lemma NoMaxLengthNoLengthCheck(value: string, f: Field, rx: RegExp)
    requires !HasMaxLength(f)
    ensures ValidateBySchema(value, f, rx) == ValidateBySchema(value, f.(maxlength := None), rx)
  {
  }

  /** A pattern that does not compile has no effect: the validator fails open. */
  lemma FailsOpen(value: string, f: Field, rx: RegExp)
    requires HasPattern(f) && !rx.compiles(f.pattern.value)
    ensures ValidateBySchema(value, f, rx) == ValidateBySchema(value, f.(pattern := None), rx)
  {
  }
}
