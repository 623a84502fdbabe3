/**
  The phone-number validator of the account subsystem.

  `IsTelephoneNumberInvalid` reports a value as invalid when it is absent, or
  when a search for the regular expression `\b0\d{2,3}\d{8}\b` finds no match
  anywhere in it. Character classes are the ASCII ones: `\d` is `0`..`9`, and
  `\w` (which decides `\b`) is an ASCII letter, digit or underscore.
 */
module PhoneValidator {

  datatype Option<T> = None | Some(value: T)

  predicate IsDigit(c: char) {
    '0' <= c <= '9'
  }

  /** A character of the class `\w`. */
  predicate IsWordChar(c: char) {
    'a' <= c <= 'z' || 'A' <= c <= 'Z' || IsDigit(c) || c == '_'
  }

  /** `\b` at index k: exactly one of the characters on either side is a word character. */
  predicate IsBoundary(s: string, k: nat)
    requires k <= |s|
  {
    (k > 0 && IsWordChar(s[k - 1])) != (k < |s| && IsWordChar(s[k]))
  }

  /** `\d{hi - lo}` at index lo. */
  predicate DigitsBetween(s: string, lo: nat, hi: nat)
    requires lo <= hi <= |s|
  {
    forall k :: lo <= k < hi ==> IsDigit(s[k])
  }

  /**
    The pattern `\b0\d{2,3}\d{8}\b` matches at index i, with `\d{2,3}`
    taking m digits.
   */
  predicate MatchesAt(s: string, i: nat, m: nat) {
    && (m == 2 || m == 3)
    && i + 1 + m + 8 <= |s|
    && IsBoundary(s, i)
    && s[i] == '0'
    && DigitsBetween(s, i + 1, i + 1 + m)
    && DigitsBetween(s, i + 1 + m, i + 1 + m + 8)
    && IsBoundary(s, i + 1 + m + 8)
  }

  /** What `re.search` promises: the pattern matches somewhere in s. */
  ghost predicate Searches(s: string) {
    exists i: nat, m: nat :: MatchesAt(s, i, m)
  }

  /** Tries every start index from i on, as `re.search` does. */
  function SearchFrom(s: string, i: nat): (found: bool)
    requires i <= |s|
    ensures found <==> exists j: nat, m: nat :: i <= j && MatchesAt(s, j, m)
    decreases |s| - i
  {
    if MatchesAt(s, i, 2) || MatchesAt(s, i, 3) then
      true
    else if i == |s| then
      false
    else
      var rest := SearchFrom(s, i + 1);
      assert forall j: nat, m: nat :: i <= j && MatchesAt(s, j, m) ==> i + 1 <= j;
      rest
  }

  /** `is_telephone_number_invalid`: `None` is invalid; a string is valid exactly when the pattern is found in it. */
  function IsTelephoneNumberInvalid(telephoneNumber: Option<string>): (invalid: bool)
    ensures telephoneNumber.None? ==> invalid
    ensures telephoneNumber.Some? ==> (invalid <==> !Searches(telephoneNumber.value))
  {
    match telephoneNumber
    case None => true
    case Some(s) => if SearchFrom(s, 0) then false else true
  }

  // ---------------------------------------------------------------------
  // The closed form: maximal runs of word characters
  // ---------------------------------------------------------------------

  /** A word that the pattern accepts on its own: `0` followed by 10 or 11 digits. */
  predicate IsPhoneRun(w: string) {
    (|w| == 11 || |w| == 12) && w[0] == '0' && forall k :: 1 <= k < |w| ==> IsDigit(w[k])
  }

  /** s[i..j] is a run of word characters that cannot be extended on either side. */
  ghost predicate IsMaximalRun(s: string, i: nat, j: nat) {
    && i < j <= |s|
    && (forall k :: i <= k < j ==> IsWordChar(s[k]))
    && (i == 0 || !IsWordChar(s[i - 1]))
    && (j == |s| || !IsWordChar(s[j]))
  }

  ghost predicate HasPhoneRun(s: string) {
    exists i: nat, j: nat :: IsMaximalRun(s, i, j) && IsPhoneRun(s[i..j])
  }

  /** A match covers exactly a maximal run, and that run is a phone run. */
  lemma MatchIsPhoneRun(s: string, i: nat, m: nat)
    requires MatchesAt(s, i, m)
    ensures IsMaximalRun(s, i, i + 9 + m) && IsPhoneRun(s[i..i + 9 + m])
  {
    var j := i + 9 + m;
    forall k | i <= k < j ensures IsDigit(s[k]) {
      if k > i {
        if k < i + 1 + m {
          assert DigitsBetween(s, i + 1, i + 1 + m);
        } else {
          assert DigitsBetween(s, i + 1 + m, j);
        }
      }
    }
    assert IsWordChar(s[i]) && IsWordChar(s[j - 1]);
  }

  /** A maximal run that is a phone run is matched by the pattern at its start. */
  lemma PhoneRunMatches(s: string, i: nat, j: nat)
    requires IsMaximalRun(s, i, j) && IsPhoneRun(s[i..j])
    ensures MatchesAt(s, i, j - i - 9)
  {
    var w := s[i..j];
    assert forall k :: i < k < j ==> s[k] == w[k - i];
    assert s[i] == w[0];
  }

  /** The closed form of the search: the pattern is found exactly when some maximal word run is a phone run. */
  lemma SearchesIffPhoneRun(s: string)
    ensures Searches(s) <==> HasPhoneRun(s)
  {
    if Searches(s) {
      var i: nat, m: nat :| MatchesAt(s, i, m);
      MatchIsPhoneRun(s, i, m);
    }
    if HasPhoneRun(s) {
      var i: nat, j: nat :| IsMaximalRun(s, i, j) && IsPhoneRun(s[i..j]);
      PhoneRunMatches(s, i, j);
    }
  }

  /** The validator's result in closed form. */
  lemma ValidIffPhoneRun(s: string)
    ensures !IsTelephoneNumberInvalid(Some(s)) <==> HasPhoneRun(s)
  {
    SearchesIffPhoneRun(s);
  }

  // ---------------------------------------------------------------------
  // Consequences for particular shapes of input
  // ---------------------------------------------------------------------

  /** A string made only of word characters is one run: it is valid exactly when it is a phone run itself. */
  lemma WholeWordValidIff(s: string)
    requires forall k :: 0 <= k < |s| ==> IsWordChar(s[k])
    ensures !IsTelephoneNumberInvalid(Some(s)) <==> IsPhoneRun(s)
  {
    ValidIffPhoneRun(s);
    if HasPhoneRun(s) {
      var i: nat, j: nat :| IsMaximalRun(s, i, j) && IsPhoneRun(s[i..j]);
      assert i == 0;
      assert j == |s|;
      assert s[i..j] == s;
    }
    if IsPhoneRun(s) {
      assert s[0..|s|] == s;
      assert IsMaximalRun(s, 0, |s|);
    }
  }

  /** An all-digit string is valid exactly when it starts with `0` and has 11 or 12 digits. */
  lemma AllDigitsValidIff(s: string)
    requires forall k :: 0 <= k < |s| ==> IsDigit(s[k])
    ensures !IsTelephoneNumberInvalid(Some(s)) <==> (|s| == 11 || |s| == 12) && s[0] == '0'
  {
    WholeWordValidIff(s);
  }

  /** A phone run bordered by non-word characters, or by the ends of the string, is found anywhere in it. */
  lemma EmbeddedRunIsValid(before: string, run: string, after: string)
    requires IsPhoneRun(run)
    requires before == [] || !IsWordChar(before[|before| - 1])
    requires after == [] || !IsWordChar(after[0])
    ensures !IsTelephoneNumberInvalid(Some(before + run + after))
  {
    var s := before + run + after;
    var i, j := |before|, |before| + |run|;
    assert s[i..j] == run;
    forall k | i <= k < j ensures IsWordChar(s[k]) {
      assert s[k] == run[k - i];
    }
    assert i > 0 ==> s[i - 1] == before[|before| - 1];
    assert j < |s| ==> s[j] == after[0];
    assert IsMaximalRun(s, i, j);
    PhoneRunMatches(s, i, j);
  }

  /**
    A word character glued in front of a phone run joins the run: the result
    is valid only when that turns `0` + 10 digits into `0` + 11 digits.
   */
  lemma PrefixedRunValidIff(c: char, run: string)
    requires IsWordChar(c) && IsPhoneRun(run)
    ensures !IsTelephoneNumberInvalid(Some([c] + run)) <==> c == '0' && |run| == 11
  {
    var s := [c] + run;
    assert forall k :: 1 <= k < |s| ==> s[k] == run[k - 1];
    assert forall k :: 0 <= k < |s| ==> IsWordChar(s[k]);
    WholeWordValidIff(s);
  }

  /**
    A word character glued after a phone run joins the run: the result is
    valid only when it is a digit extending `0` + 10 digits to `0` + 11 digits.
   */
  lemma SuffixedRunValidIff(run: string, c: char)
    requires IsWordChar(c) && IsPhoneRun(run)
    ensures !IsTelephoneNumberInvalid(Some(run + [c])) <==> IsDigit(c) && |run| == 11
  {
    var s := run + [c];
    assert forall k :: 0 <= k < |run| ==> s[k] == run[k];
    assert s[|run|] == c;
    assert forall k :: 0 <= k < |s| ==> IsWordChar(s[k]);
    WholeWordValidIff(s);
  }

  /** Without a `0` there is nothing for the pattern to start on. */
  lemma NoZeroIsInvalid(s: string)
    requires forall k :: 0 <= k < |s| ==> s[k] != '0'
    ensures IsTelephoneNumberInvalid(Some(s))
  {
  }

  /** `0` followed by 10 digits, alone, is accepted. */
  lemma ElevenDigitExample()
    ensures !IsTelephoneNumberInvalid(Some("09123456789"))
  {
    var p := "09123456789";
    assert IsPhoneRun(p);
    EmbeddedRunIsValid([], p, []);
    assert [] + p + [] == p;
  }

  /** `0` followed by 11 digits, alone, is accepted. */
  lemma TwelveDigitExample()
    ensures !IsTelephoneNumberInvalid(Some("091234567890"))
  {
    var p := "091234567890";
    assert IsPhoneRun(p);
    EmbeddedRunIsValid([], p, []);
    assert [] + p + [] == p;
  }

  /** A phone run after a label and a space is found by the search. */
  lemma LabelledExample()
    ensures !IsTelephoneNumberInvalid(Some("tel: 09123456789"))
  {
    var p := "09123456789";
    assert IsPhoneRun(p);
    EmbeddedRunIsValid("tel: ", p, []);
    assert "tel: " + p + [] == "tel: 09123456789";
  }

  /**
    Sample values the validator rejects: a phone run glued to word characters.
    The last one shows that the search is not a substring test: the letters on
    both sides remove both word boundaries.
   */
  lemma GluedExamples()
    ensures IsTelephoneNumberInvalid(Some("x09123456789"))
    ensures IsTelephoneNumberInvalid(Some("09123456789_"))
    ensures IsTelephoneNumberInvalid(Some("xx01234567891yy"))
  {
    var p11 := "09123456789";
    assert IsPhoneRun(p11);
    PrefixedRunValidIff('x', p11);
    assert ['x'] + p11 == "x09123456789";
    SuffixedRunValidIff(p11, '_');
    assert p11 + ['_'] == "09123456789_";
    WholeWordValidIff("xx01234567891yy");
  }

  /** Sample values the validator rejects: wrong length, wrong first digit, or no digits at all. */
  lemma RejectedExamples()
    ensures IsTelephoneNumberInvalid(Some("0912345678"))
    ensures IsTelephoneNumberInvalid(Some("0123456789012"))
    ensures IsTelephoneNumberInvalid(Some("123"))
    ensures IsTelephoneNumberInvalid(Some("hello"))
    ensures IsTelephoneNumberInvalid(Some("bad-number"))
  {
    AllDigitsValidIff("0912345678");
    AllDigitsValidIff("0123456789012");
    AllDigitsValidIff("123");
    NoZeroIsInvalid("hello");
    NoZeroIsInvalid("bad-number");
  }
}
