/**
 What `NationalId::try_from` guarantees: validity of what it builds, the
 text it stores, the error cases, insensitivity to surrounding whitespace,
 the padding law and idempotence, and the cases the crate's unit tests name.
 */
module NationalIdLaws {
  import opened Text
  import opened NationalIds

  // ---------------------------------------------------------------------
  // Trimming

  /** Text with no whitespace at either end is left alone by `Trim`. */
  lemma TrimmedIsFixed(s: string)
    requires Trimmed(s)
    ensures Trim(s) == s
  {
  }

  /** A whitespace prefix disappears under `TrimStart`. */
  lemma {:induction false} TrimStartSkipsWhitespace(w: string, y: string)
    requires AllWhitespace(w)
    ensures TrimStart(w + y) == TrimStart(y)
  {
    if |w| > 0 {
      var s := w + y;
      assert s[0] == w[0] && IsWhitespace(s[0]);
      assert s[1..] == w[1..] + y;
      assert TrimStart(s) == TrimStart(s[1..]);
      TrimStartSkipsWhitespace(w[1..], y);
    } else {
      assert w + y == y;
    }
  }

  /** A whitespace suffix disappears under `TrimEnd`. */
  lemma {:induction false} TrimEndSkipsWhitespace(y: string, w: string)
    requires AllWhitespace(w)
    ensures TrimEnd(y + w) == TrimEnd(y)
  {
    if |w| > 0 {
      var v, s := w[..|w| - 1], y + w;
      assert s[|s| - 1] == w[|w| - 1] && IsWhitespace(s[|s| - 1]);
      assert s[..|s| - 1] == y + v;
      assert TrimEnd(s) == TrimEnd(s[..|s| - 1]);
      TrimEndSkipsWhitespace(y, v);
    } else {
      assert y + w == y;
    }
  }

  /** `TrimStart` of text followed by whitespace keeps that whitespace, unless all of it goes. */
  lemma {:induction false} TrimStartBeforeWhitespace(x: string, w: string)
    requires AllWhitespace(w)
    ensures TrimStart(x + w) == if AllWhitespace(x) then [] else TrimStart(x) + w
  {
    if |x| == 0 {
      TrimStartSkipsWhitespace(w, []);
      assert x + w == w + [] == w;
    } else if IsWhitespace(x[0]) {
      assert (x + w)[1..] == x[1..] + w;
      TrimStartBeforeWhitespace(x[1..], w);
      assert AllWhitespace(x) <==> AllWhitespace(x[1..]) by {
        if AllWhitespace(x[1..]) {
          forall i | 0 <= i < |x| ensures IsWhitespace(x[i]) {
            if i > 0 { assert x[i] == x[1..][i - 1]; }
          }
        }
      }
    }
  }

  /** `str::trim` ignores whitespace added around its input. */
  lemma TrimIgnoresSurroundingWhitespace(w1: string, x: string, w2: string)
    requires AllWhitespace(w1) && AllWhitespace(w2)
    ensures Trim(w1 + x + w2) == Trim(x)
  {
    assert w1 + x + w2 == w1 + (x + w2);
    TrimStartSkipsWhitespace(w1, x + w2);
    TrimStartBeforeWhitespace(x, w2);
    if AllWhitespace(x) {
      TrimStartSkipsWhitespace(x, []);
      assert x + [] == x;
    } else {
      TrimEndSkipsWhitespace(TrimStart(x), w2);
    }
  }

  // ---------------------------------------------------------------------
  // Digits and the weighted sum

  /** Digit extraction distributes over concatenation (it is a filter). */
  lemma {:induction false} DigitsAppend(a: string, b: string)
    ensures Digits(a + b) == Digits(a) + Digits(b)
  {
    if |a| == 0 {
      assert a + b == b;
    } else {
      assert (a + b)[1..] == a[1..] + b;
      DigitsAppend(a[1..], b);
    }
  }

  /** On ten-digit text the weighted sum of the digits is the sum read off the characters. */
  lemma WeightedSumOfNumeral(s: string)
    requires |s| == Width && AllDigits(s)
    ensures WeightedSum(Digits(s)) == NumeralSum(s)
  {
    var d := Digits(s);
    assert forall i :: 0 <= i < Width ==> d[i] == DigitValue(s[i]);
    PartialSumExpanded(d);
  }

  /** The text of a run of digit values; `Digits` reads the values back. */
  function Numeral(d: seq<Digit>): (s: string)
    ensures |s| == |d| && AllDigits(s) && Digits(s) == d
  {
    seq(|d|, i requires 0 <= i < |d| => DigitChar(d[i]))
  }

  // ---------------------------------------------------------------------
  // The validator

  /**
   Construction implies validity: the text a `NationalId` holds has exactly
   ten decimal digits, the first nine not all zero, the tenth the control
   digit of their weighted sum.
   */
  lemma TryFromSound(input: string)
    ensures TryFrom(input).Ok? ==>
      var d := Digits(TryFrom(input).value.Deref());
      && |d| == 10
      && (exists i :: 0 <= i < 9 && d[i] != 0)
      && d[9] == ControlDigit(WeightedSum(d))
  {
  }

  /**
   `TryFrom` in full: it succeeds exactly when the digits of the padded text
   are, in order, those of a canonical id, and then holds that padded text;
   every other input is the one error.
   */
  lemma TryFromCharacterized(input: string)
    ensures TryFrom(input) ==
      if HasCanonicalDigits(Padded(input)) then Ok(NationalId(Padded(input)))
      else Err(NationalIdError)
  {
    var p := Padded(input);
    if Accept(p).Ok? {
      var id := Numeral(Digits(p));
      AcceptSeesOnlyDigits(id, p);
      AcceptTenDigits(id);
      assert IsCanonicalId(id) && Digits(id) == Digits(p);
    }
    if HasCanonicalDigits(p) {
      var id :| IsCanonicalId(id) && Digits(id) == Digits(p);
      CanonicalAccepted(id);
      AcceptSeesOnlyDigits(p, id);
    }
  }

  /** Digit text has no whitespace at either end. */
  lemma DigitsAreTrimmed(s: string)
    requires AllDigits(s)
    ensures Trimmed(s)
  {
    if |s| > 0 {
      assert IsDigit(s[0]) && IsDigit(s[|s| - 1]);
    }
  }

  /** Text with no surrounding whitespace and ten or more characters is its own padded form. */
  lemma LongTrimmedIsPadded(s: string)
    requires Trimmed(s) && |s| >= Width
    ensures Padded(s) == s
  {
    TrimmedIsFixed(s);
  }

  /**
   The padded text is the trimmed input when that has ten or more
   characters; otherwise it is ten characters, `'0'`s followed by the
   trimmed input.
   */
  lemma PaddedShape(input: string)
    ensures var t, p := Trim(input), Padded(input);
      && (|t| >= Width ==> p == t)
      && (|t| < Width ==>
            |p| == Width && p[Width - |t|..] == t
            && forall i :: 0 <= i < Width - |t| ==> p[i] == '0')
  {
    assert Padded(input) == PadLeft(Trim(input), Width, '0');
  }

  /**
   The stored text is the trimmed input left-padded with `'0'` to ten
   characters; a trimmed input longer than that is stored unchanged.
   */
  lemma TryFromStoresPaddedText(input: string)
    ensures TryFrom(input).Ok? ==>
      var t, v := Trim(input), TryFrom(input).value.Deref();
      && (|t| >= Width ==> v == t)
      && (|t| < Width ==>
            |v| == Width && v[Width - |t|..] == t
            && forall i :: 0 <= i < Width - |t| ==> v[i] == '0')
  {
    PaddedShape(input);
  }

  /** A short text with no surrounding whitespace is padded to the given zeros followed by it. */
  lemma ZeroFilled(z: string, t: string)
    requires Trimmed(t) && |z| + |t| == Width
    requires forall i :: 0 <= i < |z| ==> z[i] == '0'
    ensures Padded(t) == z + t
  {
    TrimmedIsFixed(t);
    PaddedShape(t);
    var p := Padded(t);
    assert p[..|z|] == z;
    assert p == p[..|z|] + p[|z|..];
  }

  /** On ten digits, the first nine are not all `'0'` exactly when their weighted sum is nonzero. */
  lemma LeadingDigitsNonzero(s: string)
    requires |s| == Width && AllDigits(s)
    ensures (exists i :: 0 <= i < 9 && s[i] != '0') <==> WeightedSum(Digits(s)) != 0
  {
    var d := Digits(s);
    if WeightedSum(d) != 0 {
      var i :| 0 <= i < 9 && d[i] != 0;
      assert s[i] != '0';
    }
    if exists i :: 0 <= i < 9 && s[i] != '0' {
      var i :| 0 <= i < 9 && s[i] != '0';
      assert d[i] != 0;
    }
  }

  /** The gates accept ten-digit text, unchanged, exactly when it is in canonical form. */
  lemma AcceptTenDigits(s: string)
    requires |s| == Width && AllDigits(s)
    ensures Accept(s) == if IsCanonicalId(s) then Ok(NationalId(s)) else Err(NationalIdError)
  {
    WeightedSumOfNumeral(s);
    LeadingDigitsNonzero(s);
    assert Digits(s)[9] == DigitValue(s[9]);
  }

  /** Ten-digit text is accepted, unchanged, exactly when it is in canonical form. */
  lemma CanonicalAccepted(s: string)
    requires |s| == Width && AllDigits(s)
    ensures TryFrom(s) == if IsCanonicalId(s) then Ok(NationalId(s)) else Err(NationalIdError)
    ensures TryFrom(s) == Accept(s)
  {
    DigitsAreTrimmed(s);
    LongTrimmedIsPadded(s);
    AcceptTenDigits(s);
  }

  /**
   For a trimmed input of at most ten characters the stored text is ten
   decimal digits in canonical form.
   */
  lemma ShortInputCanonical(input: string)
    requires |Trim(input)| <= Width
    ensures TryFrom(input).Ok? ==> IsCanonicalId(TryFrom(input).value.Deref())
  {
    var p := Padded(input);
    if Accept(p).Ok? {
      PaddedShape(input);
      assert |p| == Width && |Digits(p)| == Width;
      AcceptTenDigits(p);
    }
  }

  /** A trimmed input of at most ten characters that holds a non-digit is rejected. */
  lemma ShortNonDigitRejected(input: string)
    requires |Trim(input)| <= Width && !AllDigits(Trim(input))
    ensures TryFrom(input) == Err(NationalIdError)
  {
    var t, p := Trim(input), Padded(input);
    PaddedShape(input);
    var i :| 0 <= i < |t| && !IsDigit(t[i]);
    var k := Width - |t|;
    if |t| < Width {
      assert p[k + i] == p[k..][i];
    }
    assert !IsDigit(p[k + i]);
    assert |p| == Width && |Digits(p)| < Width;
  }

  /** Text of at most ten characters, no surrounding whitespace and a non-digit is rejected. */
  lemma TrimmedNonDigitRejected(s: string)
    requires Trimmed(s) && |s| <= Width && !AllDigits(s)
    ensures TryFrom(s) == Err(NationalIdError)
  {
    TrimmedIsFixed(s);
    ShortNonDigitRejected(s);
  }

  /** Blank input pads to ten zeros, whose weighted sum is zero: it is rejected. */
  lemma BlankRejected(input: string)
    requires AllWhitespace(input)
    ensures TryFrom(input) == Err(NationalIdError)
  {
    var p := Padded(input);
    PaddedShape(input);
    assert AllDigits(p);
    var d := Digits(p);
    assert forall i :: 0 <= i < 9 ==> d[i] == DigitValue(p[i]) == 0;
  }

  /** Padding what is already trimmed and padded changes nothing. */
  lemma PaddedIsFixed(input: string)
    ensures Trim(Padded(input)) == Padded(input)
    ensures Padded(Padded(input)) == Padded(input)
  {
    var t, p := Trim(input), Padded(input);
    PaddedShape(input);
    if |t| < Width {
      var k := Width - |t|;
      assert p[0] == '0';
      if |t| > 0 {
        assert p[Width - 1] == p[k..][|t| - 1];
      }
      assert Trimmed(p);
    }
    LongTrimmedIsPadded(p);
  }

  /** Validating the trimmed, padded form gives what validating the input gives. */
  lemma PaddingLaw(input: string)
    ensures TryFrom(Padded(input)) == TryFrom(input)
  {
    PaddedIsFixed(input);
  }

  /** Re-validating the text of a `NationalId` gives back the same `NationalId`. */
  lemma Idempotent(input: string)
    ensures TryFrom(input).Ok? ==> TryFrom(TryFrom(input).value.Deref()) == TryFrom(input)
  {
    PaddingLaw(input);
  }

  /** Whitespace around the input does not change the outcome. */
  lemma TrimInvariance(w1: string, input: string, w2: string)
    requires AllWhitespace(w1) && AllWhitespace(w2)
    ensures TryFrom(w1 + input + w2) == TryFrom(input)
  {
    TrimIgnoresSurroundingWhitespace(w1, input, w2);
  }

  /** An accepted input with no surrounding whitespace and ten or more characters reads back unchanged. */
  lemma DerefReadsBack(input: string)
    requires Trimmed(input) && |input| >= Width
    ensures TryFrom(input).Ok? ==> TryFrom(input).value.Deref() == input
  {
    TrimmedIsFixed(input);
  }

  /** Equality of national ids is equality of their texts. */
  lemma EqualityIsTextEquality(a: NationalId, b: NationalId)
    ensures a == b <==> a.Deref() == b.Deref()
  {
  }

  // ---------------------------------------------------------------------
  // Longer input

  /** `Accept` looks at nothing but the digits of its text, and keeps the text. */
  lemma AcceptSeesOnlyDigits(a: string, b: string)
    requires Digits(a) == Digits(b)
    ensures Accept(a) == if Accept(b).Ok? then Ok(NationalId(a)) else Err(NationalIdError)
  {
  }

  /**
   A trimmed input longer than ten characters whose digits are those of a
   canonical id is accepted, and stored with its other characters kept.
   */
  lemma LongInputKeptVerbatim(t: string, id: string)
    requires Trimmed(t) && |t| > Width
    requires IsCanonicalId(id) && Digits(t) == Digits(id)
    ensures TryFrom(t) == Ok(NationalId(t))
  {
    CanonicalAccepted(id);
    AcceptSeesOnlyDigits(t, id);
    LongTrimmedIsPadded(t);
  }

  /** A non-digit, non-whitespace character in front of a canonical id is kept. */
  lemma LeadingNonDigitKept(c: char, id: string)
    requires !IsDigit(c) && !IsWhitespace(c) && IsCanonicalId(id)
    ensures TryFrom([c] + id) == Ok(NationalId([c] + id))
  {
    var t := [c] + id;
    assert t[1..] == id;
    assert !IsWhitespace(t[|t| - 1]) by {
      assert t[|t| - 1] == id[9] && IsDigit(id[9]);
    }
    LongInputKeptVerbatim(t, id);
  }

  /** A non-digit between the digits of a canonical id is kept. */
  lemma InnerNonDigitKept(a: string, c: char, b: string)
    requires |a| > 0 && |b| > 0 && !IsDigit(c) && IsCanonicalId(a + b)
    ensures TryFrom(a + [c] + b) == Ok(NationalId(a + [c] + b))
  {
    var id, t := a + b, a + [c] + b;
    assert t[0] == id[0] && t[|t| - 1] == id[|id| - 1];
    assert IsDigit(id[0]) && IsDigit(id[|id| - 1]);
    assert Digits(t) == Digits(id) by {
      DigitsAppend(a + [c], b);
      DigitsAppend(a, [c]);
      DigitsAppend(a, b);
      assert Digits([c]) == [];
      assert Digits(a) + [] == Digits(a);
    }
    LongInputKeptVerbatim(t, id);
  }

  // ---------------------------------------------------------------------
  // Cases named by the crate's unit tests

  /** The id of the padding test is in canonical form. */
  lemma PaddingTestIdCanonical()
    ensures IsCanonicalId("0451726707")
  {
    assert NumeralSum("0451726707") == 180 && "0451726707"[1] != '0';
  }

  /** The ids of the validation test are in canonical form. */
  lemma ValidationTestIdsCanonical()
    ensures IsCanonicalId("0040010007")
    ensures IsCanonicalId("0814659438")
  {
    assert NumeralSum("0040010007") == 37 && "0040010007"[2] != '0';
    assert NumeralSum("0814659438") == 223 && "0814659438"[1] != '0';
  }

  /** Ten-digit texts the tests reject: a zero sum, and a control digit of 3 where 4 is due. */
  lemma NonCanonicalFacts()
    ensures |"0000000000"| == Width && AllDigits("0000000000") && !IsCanonicalId("0000000000")
    ensures |"0000000123"| == Width && AllDigits("0000000123") && !IsCanonicalId("0000000123")
  {
    assert NumeralSum("0000000123") == 7;
  }

  /** Ten digits with weighted sum 210, which calls for control digit 1, not 0. */
  lemma WrongControlFacts()
    ensures |"1234567890"| == Width && AllDigits("1234567890") && !IsCanonicalId("1234567890")
    ensures Trimmed("a1234567890") && "a1234567890" == ['a'] + "1234567890"
  {
    assert NumeralSum("1234567890") == 210;
  }

  /** Texts the tests reject for a non-digit. */
  lemma NonDigitFacts()
    ensures Trimmed("123456ab") && |"123456ab"| <= Width && !AllDigits("123456ab")
    ensures Trimmed("12345678ab") && |"12345678ab"| <= Width && !AllDigits("12345678ab")
    ensures Trimmed("a814659438") && |"a814659438"| <= Width && !AllDigits("a814659438")
  {
    assert !IsDigit("123456ab"[6]) && !IsDigit("12345678ab"[8]) && !IsDigit("a814659438"[0]);
  }

  /** How "123" is filled, and how the two long inputs are built around "0814659438". */
  lemma LiteralFacts()
    ensures Trimmed("123") && "0000000" + "123" == "0000000123"
    ensures forall i :: 0 <= i < |"0000000"| ==> "0000000"[i] == '0'
    ensures "a0814659438" == ['a'] + "0814659438"
    ensures "08146 59438" == "08146" + [' '] + "59438"
    ensures "0814659438" == "08146" + "59438"
  {
  }

  /** The accepted ids are stored unchanged, and the last reads back as itself. */
  lemma AcceptedExamples()
    ensures TryFrom("0451726707") == Ok(NationalId("0451726707"))
    ensures TryFrom("0040010007") == Ok(NationalId("0040010007"))
    ensures TryFrom("0814659438") == Ok(NationalId("0814659438"))
    ensures TryFrom("0814659438").value.Deref() == "0814659438"
  {
    PaddingTestIdCanonical();
    ValidationTestIdsCanonical();
    CanonicalAccepted("0451726707");
    CanonicalAccepted("0040010007");
    CanonicalAccepted("0814659438");
  }

  /** The empty input pads to "0000000000", whose weighted sum is zero. */
  lemma ZeroSumExamples()
    ensures TryFrom("") == Err(NationalIdError)
    ensures TryFrom("0000000000") == Err(NationalIdError)
  {
    BlankRejected("");
    NonCanonicalFacts();
    CanonicalAccepted("0000000000");
  }

  /** "123" is filled to "0000000123": weighted sum 7, control digit 4, not 3. */
  lemma ShortExample()
    ensures TryFrom("123") == Err(NationalIdError)
  {
    LiteralFacts();
    ZeroFilled("0000000", "123");
    NonCanonicalFacts();
    CanonicalAccepted("0000000123");
  }

  /** Inputs of at most ten characters holding a letter are rejected. */
  lemma NonDigitExamples()
    ensures TryFrom("123456ab") == Err(NationalIdError)
    ensures TryFrom("12345678ab") == Err(NationalIdError)
    ensures TryFrom("a814659438") == Err(NationalIdError)
  {
    NonDigitFacts();
    TrimmedNonDigitRejected("123456ab");
    TrimmedNonDigitRejected("12345678ab");
    TrimmedNonDigitRejected("a814659438");
  }

  /** A letter in front of "0814659438" is accepted and kept. */
  lemma LeadingLetterExample()
    ensures TryFrom("a0814659438") == Ok(NationalId("a0814659438"))
  {
    ValidationTestIdsCanonical();
    LiteralFacts();
    LeadingNonDigitKept('a', "0814659438");
  }

  /** A space inside "0814659438" is accepted and kept. */
  lemma InnerSpaceExample()
    ensures TryFrom("08146 59438") == Ok(NationalId("08146 59438"))
  {
    ValidationTestIdsCanonical();
    LiteralFacts();
    InnerNonDigitKept("08146", ' ', "59438");
  }

  /** A letter in front of ten digits that fail the checksum does not rescue them. */
  lemma LeadingLetterRejected()
    ensures TryFrom("a1234567890") == Err(NationalIdError)
  {
    WrongControlFacts();
    DigitsAppend(['a'], "1234567890");
    assert Digits(['a']) == [];
    CanonicalAccepted("1234567890");
    LongTrimmedIsPadded("a1234567890");
    AcceptSeesOnlyDigits("a1234567890", "1234567890");
  }
}
