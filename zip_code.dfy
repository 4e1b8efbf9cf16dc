/** The ZIP-code field of src/components/ZipCodeInput.tsx: every keystroke keeps the
    first five ASCII digits of the text, and the form submits only five of them. */
module ZipCode {
  import opened Seqs

  /** `\d` without the `u` flag: the ASCII digits. */
  predicate IsDigit(c: char) {
    '0' <= c <= '9'
  }

  predicate AllDigits(s: string) {
    forall i :: 0 <= i < |s| ==> IsDigit(s[i])
  }

  /** `s.replace(/\D/g, '')`: the digits of `s` in order. */
  function Digits(s: string): (r: string)
    ensures AllDigits(r) && |r| <= |s|
  {
    if s == [] then ""
    else if IsDigit(s[0]) then [s[0]] + Digits(s[1..])
    else Digits(s[1..])
  }

  /** Stripping keeps every digit of the input, as often as it occurs and in its
      order, and no other character. */
  lemma {:induction false} DigitsKeepsDigits(s: string, c: char)
    ensures Count(Digits(s), c) == if IsDigit(c) then Count(s, c) else 0
    ensures IsSubseq(Digits(s), s)
    decreases |s|
  {
    if s != [] {
      DigitsKeepsDigits(s[1..], c);
      var tail := Digits(s[1..]);
      if IsDigit(s[0]) {
        var r := [s[0]] + tail;
        assert r[0] == s[0] && r[1..] == tail;
      } else if tail != [] {
        assert IsDigit(tail[0]);
      }
    }
  }

  /** `.slice(0, 5)` */
  function Take5(s: string): string {
    if |s| <= 5 then s else s[..5]
  }

  /** The `onChange` sanitiser: at most five digits, taken from the front of the
      input's digits. */
  function Sanitize(s: string): (r: string)
    ensures AllDigits(r) && |r| <= 5 && r <= Digits(s)
  {
    Take5(Digits(s))
  }

  /** The sanitised value holds only digits, at most five of them, and is a prefix of
      the input's digits; it is all of them when there are at most five. */
  lemma SanitizeProps(s: string)
    ensures AllDigits(Sanitize(s)) && |Sanitize(s)| <= 5
    ensures Sanitize(s) <= Digits(s)
    ensures |Digits(s)| <= 5 ==> Sanitize(s) == Digits(s)
    ensures |Sanitize(s)| == if |Digits(s)| <= 5 then |Digits(s)| else 5
  {
  }

  /** A string of digits is its own digit string. */
  lemma {:induction false} DigitsOfDigits(s: string)
    requires AllDigits(s)
    ensures Digits(s) == s
    decreases |s|
  {
    if s != [] {
      assert IsDigit(s[0]);
      DigitsOfDigits(s[1..]);
      assert s == [s[0]] + s[1..];
    }
  }

  /** Sanitising twice is sanitising once. */
  lemma SanitizeIdempotent(s: string)
    ensures Sanitize(Sanitize(s)) == Sanitize(s)
  {
    SanitizeProps(s);
    DigitsOfDigits(Sanitize(s));
  }

  /** `handleSubmit` proceeds unless `!zipCode || zipCode.length < 5`. */
  predicate CanSubmit(zip: string): (ok: bool)
    ensures ok <==> |zip| >= 5
  {
    !(zip == "" || |zip| < 5)
  }

  /** The submit button is enabled only when the form would submit. */
  predicate ButtonEnabled(zip: string, isSubmitting: bool, loading: bool): (enabled: bool)
    ensures enabled <==> CanSubmit(zip) && !isSubmitting && !loading
  {
    !(zip == "" || |zip| < 5 || isSubmitting || loading)
  }

  /** Whatever was typed, a value the field holds and the form submits is exactly
      five digits; and the enabled button implies the submit guard passes. */
  lemma SubmittedZipIsFiveDigits(typed: string, isSubmitting: bool, loading: bool)
    ensures CanSubmit(Sanitize(typed)) ==> |Sanitize(typed)| == 5 && AllDigits(Sanitize(typed))
    ensures CanSubmit(Sanitize(typed)) <==> |Digits(typed)| >= 5
    ensures ButtonEnabled(Sanitize(typed), isSubmitting, loading) ==> CanSubmit(Sanitize(typed))
  {
    SanitizeProps(typed);
  }
}
