# inin: the Iranian national-id validator, in Dafny

This project models `src/lib.rs` of the `inin` crate. That file holds:

- `NationalId::try_from(&str)`, which validates an Iranian national-id number;
- the `NationalId` newtype it builds, which exposes its text through `Deref`;
- the unit error `NationalIdError`.

`try_from` works in these steps:

1. It trims the input with `str::trim`.
2. It right-aligns the trimmed text in a field of ten characters, filled with `'0'` (`format!("{:0>10}", …)`). Longer text is kept whole.
3. It keeps the characters that `to_digit(10)` accepts.
4. It requires exactly ten of them.
5. It forms the weighted sum of the first nine, `Σ d[i]·(10−i)`, and rejects a zero sum.
6. It accepts when `sum % 11` agrees with the tenth (control) digit.

On success it stores the padded text.

The project has three modules:

- `text.dfy` (module `Text`): the pieces of Rust's standard library the validator uses, stated over `string`, a sequence of Unicode scalar values. These are `char::is_whitespace` (the full Unicode `White_Space` table), `trim_start`, `trim_end`, `trim`, `to_digit(10)` and zero-padding.
- `national_id.dfy` (module `NationalIds`): the types, the pipeline `TryFrom` = `Accept(Padded(input))`, and two reference definitions. One is the control digit a sum calls for. The other is the canonical form of an id: ten digits, the first nine not all zero, the last their control digit.
- `laws.dfy` (module `NationalIdLaws`) proves these things about the pipeline:
  - what `TryFrom` guarantees, characterised completely;
  - the text it stores;
  - each error case;
  - whitespace invariance, the padding law and idempotence;
  - the behaviour of input longer than ten characters;
  - the cases the crate's unit tests name.

A stored id is not always ten digits. When the trimmed input is longer than ten characters but holds exactly ten digits that pass the zero-sum and checksum tests, `try_from` accepts it and stores it with its other characters. Examples are `"a0814659438"` and `"08146 59438"`; `"a1234567890"` is rejected, because its digits fail the checksum. The model follows the code here. `LongInputKeptVerbatim`, `LeadingLetterExample`, `InnerSpaceExample` and `LeadingLetterRejected` prove this behaviour, and `TryFromCharacterized` states it for every input. The ten-digit guarantee is proved only where it holds, for trimmed input of at most ten characters (`ShortInputCanonical`).

## Model

| member | source | states |
|---|---|---|
| Text.Trim | src/lib.rs:13 | The trimmed text has no whitespace at either end. It is empty exactly when the input is all whitespace. It is never longer than the input. |
| Text.TrimStartDropsWhitespace | src/lib.rs:13 | `trim_start` keeps a suffix of its input. Everything it drops is whitespace, and what it keeps does not start with whitespace. |
| Text.TrimEndDropsWhitespace | src/lib.rs:13 | `trim_end` keeps a prefix of its input. Everything it drops is whitespace, and what it keeps does not end with whitespace. |
| Text.PadLeft | src/lib.rs:13 | `{:0>w}` padding: the result is `w` long, or as long as the text when the text is longer (no truncation). It ends with the text and every character before the text is the fill. |
| Text.DigitChar | src/lib.rs:14 | Every digit value has a digit character that `to_digit(10)` maps back to it. |
| Text.DigitValue | src/lib.rs:14 | `to_digit(10)` gives a value from 0 to 9, which is zero exactly for `'0'`. |
| NationalIds.Digits | src/lib.rs:14 | The `filter_map` of digits is no longer than its input. It is as long as the input exactly when every character is a digit, and then it holds each character's value in order. |
| NationalIds.PartialSum | src/lib.rs:20 | A partial weighted sum is zero exactly when the digits so far are all zero. |
| NationalIds.PartialSumExpanded | src/lib.rs:20 | The sum over `0..9` is `10·d0 + 9·d1 + … + 2·d8`. |
| NationalIds.WeightedSum | src/lib.rs:20-21 | The weighted sum is at most 486, so the `u32` never overflows. It is zero exactly when the first nine digits are all zero. |
| NationalIds.ControlDigit | src/lib.rs:24-25 | For any sum, exactly one digit satisfies the line-25 check, and it is this one. |
| NationalIdLaws.TrimmedIsFixed | src/lib.rs:13 | `trim` leaves text with no whitespace at either end unchanged. |
| NationalIdLaws.TrimStartSkipsWhitespace | src/lib.rs:13 | A whitespace prefix has no effect on `trim_start`. |
| NationalIdLaws.TrimEndSkipsWhitespace | src/lib.rs:13 | A whitespace suffix has no effect on `trim_end`. |
| NationalIdLaws.TrimStartBeforeWhitespace | src/lib.rs:13 | `trim_start` of text followed by whitespace keeps that whitespace, unless the whole text is whitespace. |
| NationalIdLaws.TrimIgnoresSurroundingWhitespace | src/lib.rs:13 | `trim(w1 + x + w2) == trim(x)` for whitespace `w1` and `w2`. |
| NationalIdLaws.DigitsAppend | src/lib.rs:14 | Digit extraction distributes over concatenation. |
| NationalIdLaws.Numeral | src/lib.rs:14 | Every run of digit values is the digit sequence of some all-digit text of the same length. |
| NationalIdLaws.WeightedSumOfNumeral | src/lib.rs:14-20 | On ten-digit text, the weighted sum of the extracted digits is the sum read off the characters. |
| NationalIdLaws.TryFromSound | src/lib.rs:14-26 | On `Ok(v)`, `v` has exactly ten digits. The first nine are not all zero, and the tenth is the control digit of their weighted sum. |
| NationalIdLaws.TryFromCharacterized | src/lib.rs:12-29 | For every input, `try_from` is `Ok` of the padded text exactly when the digits of that text are, in order, the digits of some canonical id (an independent definition: ten digits, not all of the first nine zero, the last their control digit); otherwise it is `Err(NationalIdError)`. |
| NationalIdLaws.LongTrimmedIsPadded | src/lib.rs:13 | Trimmed text of ten or more characters is its own padded form; it is not truncated. |
| NationalIdLaws.PaddedShape | src/lib.rs:13 | The padded text is the trimmed input when that has at least ten characters. Otherwise it is ten characters: `'0'`s followed by the trimmed input. |
| NationalIdLaws.TryFromStoresPaddedText | src/lib.rs:13-26 | On `Ok(v)`, `v` is the trimmed input left-padded with `'0'` to ten characters. A trimmed input longer than that is stored unchanged. |
| NationalIdLaws.ZeroFilled | src/lib.rs:13 | Trimmed text shorter than ten characters pads to `'0'`s followed by it. |
| NationalIdLaws.LeadingDigitsNonzero | src/lib.rs:20-21 | On ten digits, the line-21 zero-sum check fails exactly when the first nine digits are all `'0'`. |
| NationalIdLaws.AcceptTenDigits | src/lib.rs:14-28 | The gates accept ten-digit text, unchanged, exactly when it is in canonical form. |
| NationalIdLaws.CanonicalAccepted | src/lib.rs:12-29 | `try_from` on ten-digit text is `Ok` of that same text exactly when the text is canonical; otherwise it is the error. |
| NationalIdLaws.ShortInputCanonical | src/lib.rs:13-18 | When the trimmed input has at most ten characters, a stored id is ten decimal digits in canonical form. |
| NationalIdLaws.ShortNonDigitRejected | src/lib.rs:13-18 | A non-digit in a trimmed input of at most ten characters forces `Err`. |
| NationalIdLaws.TrimmedNonDigitRejected | src/lib.rs:13-18 | The same, for text that has no surrounding whitespace. |
| NationalIdLaws.BlankRejected | src/lib.rs:13-21 | Empty or all-whitespace input pads to ten zeros and is rejected by the zero-sum check. |
| NationalIdLaws.PaddedIsFixed | src/lib.rs:13 | Trimming and padding the padded text changes nothing. |
| NationalIdLaws.PaddingLaw | src/lib.rs:13 | Validating the padded text gives the same result as validating the input. |
| NationalIdLaws.Idempotent | src/lib.rs:13-26 | If `try_from(x)` is `Ok(v)`, then `try_from(*v)` is `Ok(v)` again. |
| NationalIdLaws.TrimInvariance | src/lib.rs:13 | Whitespace added before or after the input does not change the result. |
| NationalIdLaws.DerefReadsBack | src/lib.rs:32-37 | An accepted input with no surrounding whitespace and at least ten characters reads back through `Deref` as itself. |
| NationalIdLaws.EqualityIsTextEquality | src/lib.rs:6-7 | The derived equality of `NationalId` is equality of the stored text. |
| NationalIdLaws.AcceptSeesOnlyDigits | src/lib.rs:14-26 | Two texts with the same digits get the same verdict, and each keeps its own text. |
| NationalIdLaws.LongInputKeptVerbatim | src/lib.rs:13-26 | A trimmed input longer than ten characters whose digits are those of a canonical id is accepted and stored with its non-digits. |
| NationalIdLaws.LeadingNonDigitKept | src/lib.rs:13-26 | A non-digit, non-whitespace character in front of a canonical id is accepted and kept. |
| NationalIdLaws.InnerNonDigitKept | src/lib.rs:13-26 | Any non-digit inside a canonical id is accepted and kept. |
| NationalIdLaws.AcceptedExamples | src/lib.rs:56-84 | `"0451726707"`, `"0040010007"` and `"0814659438"` are accepted with the same stored text, and `"0814659438"` reads back as itself. |
| NationalIdLaws.ZeroSumExamples | src/lib.rs:62-63 | `""` and `"0000000000"` are rejected. |
| NationalIdLaws.ShortExample | src/lib.rs:62-64 | `"123"` is rejected. It pads to `"0000000123"`, whose sum 7 calls for control digit 4, not 3. |
| NationalIdLaws.NonDigitExamples | src/lib.rs:65-67 | `"123456ab"`, `"12345678ab"` and `"a814659438"` are rejected. |
| NationalIdLaws.LeadingLetterRejected | src/lib.rs:13-26 | `"a1234567890"` is rejected: its ten digits have weighted sum 210, which calls for control digit 1, not 0. |
| NationalIdLaws.LeadingLetterExample | src/lib.rs:13-26 | `"a0814659438"` is accepted and stored as is. |
| NationalIdLaws.InnerSpaceExample | src/lib.rs:13-26 | `"08146 59438"` is accepted and stored as is. |

## Left out

- The `Error` and `Display` impls of `NationalIdError` (src/lib.rs:43-49): they hold no logic, only a fixed message string.
- Ordering: the derived `PartialOrd` on both types, which is plain lexicographic `String` order. `Debug` and `Clone` are left out too.
- `Deref` is a Rust language feature. It is modelled as the accessor `NationalId.Deref`.
- The private field of `NationalId`:
  - In Rust only `try_from` can build a value. A Dafny datatype constructor is public.
  - So "every `NationalId` is valid" is stated about the results of `TryFrom` (`TryFromSound`), not as a type invariant.
- `u32` arithmetic is modelled with unbounded naturals. `WeightedSum` proves the sum is at most 486, so no wrap-around can occur.
- `digits.last().unwrap()` becomes `digits[9]`. It cannot panic, because the length is checked to be ten first.
- The UTF-8 byte layout of `String` is not modelled. Text is a sequence of Unicode scalar values, which is what `chars()` yields.
- PartialSum: bounds a partial sum by `90·n`, not by its exact maximum. The exact maximum of the full sum, 486, is proved on `WeightedSum`.
