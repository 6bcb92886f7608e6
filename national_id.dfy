/**
 The Iranian national-id validator and the `NationalId` value it builds
 (src/lib.rs). `TryFrom` trims its input, left-pads it with `'0'` to ten
 characters, keeps the decimal digits, demands exactly ten of them, and
 accepts when the weighted sum of the first nine is nonzero and agrees with
 the tenth (control) digit. What it stores on success is the padded text.
 */
module NationalIds {
  import opened Text

  datatype Result<T, E> = Ok(value: T) | Err(error: E)

  /** The single, detail-free failure. */
  datatype NationalIdError = NationalIdError

  /** A national id; it holds the padded text `TryFrom` accepted. */
  datatype NationalId = NationalId(value: string) {

    /** Read-only access to the stored text (the `Deref` to `String`). */
    function Deref(): string {
      value
    }
  }

  /** Field width of the padding and number of digits a national id has. */
  const Width: nat := 10

  /** The text after trimming and zero-padding; what is stored on success. */
  function Padded(input: string): string {
    PadLeft(Trim(input), Width, '0')
  }

  /** The decimal digits of `s`, in order, other characters dropped. */
  function Digits(s: string): (r: seq<Digit>)
    ensures |r| <= |s|
    ensures |r| == |s| <==> AllDigits(s)
    ensures AllDigits(s) ==> forall i :: 0 <= i < |s| ==> r[i] == DigitValue(s[i])
  {
    if |s| == 0 then []
    else if IsDigit(s[0]) then [DigitValue(s[0])] + Digits(s[1..])
    else Digits(s[1..])
  }

  /** Sum of `d[i] * (10 - i)` for `i` below `n`. */
  function PartialSum(d: seq<Digit>, n: nat): (s: nat)
    requires n <= 9 && n <= |d|
    ensures s <= 90 * n
    ensures s == 0 <==> forall i :: 0 <= i < n ==> d[i] == 0
  {
    if n == 0 then 0 else PartialSum(d, n - 1) + d[n - 1] * (11 - n)
  }

  /** The weighted sum of the first nine digits written out term by term. */
  lemma PartialSumExpanded(d: seq<Digit>)
    requires |d| >= 9
    ensures PartialSum(d, 9) ==
      10 * (d[0] as int) + 9 * (d[1] as int) + 8 * (d[2] as int)
      + 7 * (d[3] as int) + 6 * (d[4] as int) + 5 * (d[5] as int)
      + 4 * (d[6] as int) + 3 * (d[7] as int) + 2 * (d[8] as int)
  {
    assert PartialSum(d, 1) == 10 * (d[0] as int);
    assert PartialSum(d, 2) == PartialSum(d, 1) + 9 * (d[1] as int);
    assert PartialSum(d, 3) == PartialSum(d, 2) + 8 * (d[2] as int);
    assert PartialSum(d, 4) == PartialSum(d, 3) + 7 * (d[3] as int);
    assert PartialSum(d, 5) == PartialSum(d, 4) + 6 * (d[4] as int);
    assert PartialSum(d, 6) == PartialSum(d, 5) + 5 * (d[5] as int);
    assert PartialSum(d, 7) == PartialSum(d, 6) + 4 * (d[6] as int);
    assert PartialSum(d, 8) == PartialSum(d, 7) + 3 * (d[7] as int);
    assert PartialSum(d, 9) == PartialSum(d, 8) + 2 * (d[8] as int);
  }

  /**
   The weighted sum of the first nine digits; at most 9 * 54, so the crate's
   `u32` sum never overflows, and zero exactly when those digits are all zero.
   */
  function WeightedSum(d: seq<Digit>): (s: nat)
    requires |d| >= 9
    ensures s <= 486
    ensures s == 0 <==> forall i :: 0 <= i < 9 ==> d[i] == 0
  {
    PartialSumExpanded(d);
    PartialSum(d, 9)
  }

  /** The acceptance test on `sum % 11` and the control digit. */
  predicate ChecksumHolds(sum: nat, control: Digit) {
    var rem := sum % 11;
    (rem < 2 && rem == control) || (rem >= 2 && rem + control == 11)
  }

  /** `NationalId::try_from`: the checks run on the trimmed, padded text. */
  function TryFrom(input: string): Result<NationalId, NationalIdError> {
    Accept(Padded(input))
  }

  /** The digit-count, zero-sum and checksum gates of `try_from`. */
  predicate PassesGates(digits: seq<Digit>) {
    && |digits| == 10
    && WeightedSum(digits) != 0
    && ChecksumHolds(WeightedSum(digits), digits[9])
  }

  /** The gates applied to the digits of the padded text, which is kept on success. */
  function Accept(value: string): Result<NationalId, NationalIdError> {
    if PassesGates(Digits(value)) then Ok(NationalId(value)) else Err(NationalIdError)
  }

  /**
   The control digit a weighted sum calls for: the remainder of the sum by
   11 when it is 0 or 1, and 11 minus it otherwise.
   */
  function ControlDigit(sum: nat): (c: Digit)
    ensures forall k: Digit :: ChecksumHolds(sum, k) <==> k == c
  {
    var rem := sum % 11;
    if rem < 2 then rem else 11 - rem
  }

  /** The weighted sum of the first nine characters of ten-digit text, term by term. */
  function NumeralSum(s: string): nat
    requires |s| == Width && AllDigits(s)
  {
    10 * (DigitValue(s[0]) as int) + 9 * (DigitValue(s[1]) as int)
    + 8 * (DigitValue(s[2]) as int) + 7 * (DigitValue(s[3]) as int)
    + 6 * (DigitValue(s[4]) as int) + 5 * (DigitValue(s[5]) as int)
    + 4 * (DigitValue(s[6]) as int) + 3 * (DigitValue(s[7]) as int)
    + 2 * (DigitValue(s[8]) as int)
  }

  /**
   A national id in its canonical form: ten decimal digits, not all of the
   first nine zero, the last equal to the control digit of the first nine.
   */
  predicate IsCanonicalId(s: string) {
    && |s| == Width
    && AllDigits(s)
    && (exists i :: 0 <= i < 9 && s[i] != '0')
    && DigitValue(s[9]) == ControlDigit(NumeralSum(s))
  }

  /** Text whose digits, in order, are those of some canonical id. */
  ghost predicate HasCanonicalDigits(s: string) {
    exists id :: IsCanonicalId(id) && Digits(id) == Digits(s)
  }
}
