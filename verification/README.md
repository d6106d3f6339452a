# CPF validation function, modelled in Dafny

This project models a serverless HTTP function that validates a Brazilian
CPF (Cadastro de Pessoas Físicas) number. It has two parts.

- `validar_cpf` becomes `Cpf.ValidarCpf`. It removes every non-digit
  character. It then requires exactly eleven digits, and rejects them when all
  eleven are the same. Last, it compares digits 10 and 11 with two modulus-11
  check digits. The first check digit uses the weights 10..2 over the first
  nine digits. The second uses the weights 11..2 over the first ten digits,
  taking the tenth digit as supplied. A raw result of 10 or 11 becomes 0.
- The decision logic of `main` becomes `Handler.Handle`. A non-empty `cpf`
  query parameter wins. Otherwise the `cpf` field of the JSON body is used,
  and a body that does not parse counts as absent. With no usable value the
  answer is 400 with a fixed guidance text. Otherwise it is 200 with
  `O CPF <value> é válido.` or `O CPF <value> é inválido.`, where `<value>` is
  the input as supplied, before normalisation.

Files:

- `wrappers.dfy` holds module `Wrappers`, the `Option` datatype.
- `cpf.dfy` holds module `Cpf`. It covers normalisation, digit values, the
  weighted sums, the check digit and the validator. It also holds `CpfRule`,
  a second statement of the CPF rule with both weighted sums written out term
  by term. The lemma `ValidarCpfMatchesRule` proves the validator accepts
  exactly the inputs that satisfy `CpfRule`.
- `handler.dfy` holds module `Handler`. It covers the request/response
  decision and a decoder for the 200 message. The decoder recovers the echoed
  value and the verdict, which gives the message format a round-trip partner.

The HTTP request is reduced to two inputs. The first is the query parameter,
an `Option<string>`. The second is a `RequestBody`: either `Unparseable`, or
`Parsed(cpfField)` with an optional `cpf` field. The response is a status code
and a text.

The source's `if not cpf` treats the empty string like a missing value, so an
empty query parameter also falls back to the body. The model follows this
code.

Python's `%` with the positive divisor 11 never returns a negative value, and
the weighted sums are never negative anyway. So Dafny's `%` computes the same
remainder.

## Model

| member | source | states |
|---|---|---|
| Cpf.StripNonDigits | __init__.py:8 | The normalised string contains only digits and is no longer than the input. |
| Cpf.StripKeepsDigitString | __init__.py:8 | An input that is already all digits is returned unchanged. |
| Cpf.DigitPositions | __init__.py:8 | Normalisation keeps exactly the digit characters of the input. Each one comes from its own position, the positions increase, and the positions are exactly the digit positions of the input. |
| Cpf.PositionsExtend | __init__.py:8 | Appending one character to the input extends the normalised string and its position list by that character exactly when it is a digit. |
| Cpf.StripAppend | __init__.py:8 | Normalising a concatenation gives the concatenation of the normalised parts, so the filter acts character by character. |
| Cpf.StripIdempotent | __init__.py:8 | Normalising twice gives the same result as normalising once. |
| Cpf.DigitValue | __init__.py:19 | `int()` of a digit character is a value in 0..9. |
| Cpf.CheckDigit | __init__.py:19-28 | A check digit lies in 0..9. It is 0 exactly when the sum's remainder mod 11 is 0 or 1, which is when the raw value `11 - r` is 11 or 10. Adding it to the weighted sum gives a multiple of 11 exactly when the remainder is not 1. |
| Cpf.CheckDigitBySummation | __init__.py:19-28 | The term-by-term summation loop followed by the clamp gives the same check digit as the recursive definition. |
| Cpf.ValidarCpf | __init__.py:6-16 | An input whose normalised length is not 11 is rejected. An input whose eleven normalised digits are all equal is rejected. |
| Cpf.FirstSumIsWeightedSum | __init__.py:19 | The recursive weighted sum over nine digits equals the written-out sum `10*d0 + 9*d1 + ... + 2*d8`. |
| Cpf.SecondSumIsWeightedSum | __init__.py:25 | The recursive weighted sum over ten digits equals the written-out sum `11*d0 + ... + 2*d9`. |
| Cpf.RepeatIffSameDigits | __init__.py:15 | The string check `cpf == cpf[0] * 11` holds exactly when all eleven digit values are equal. |
| Cpf.ValidarCpfMatchesRule | __init__.py:6-32 | Soundness and completeness. The validator accepts an input iff its normalised digits number 11, are not all equal, digit 10 is the clamped `11 - FirstSum mod 11`, and digit 11 is the clamped `11 - SecondSum mod 11`. The second sum uses digit 10 as supplied. |
| Cpf.ValidarCpfOnDigits | __init__.py:11-32 | On an input made of digits alone, the verdict is the CPF rule applied to its digit values. |
| Cpf.NonDigitIgnored | __init__.py:8 | Inserting a non-digit character anywhere changes neither the normalised digits nor the verdict. |
| Cpf.SameDigitsSameVerdict | __init__.py:8-32 | Two inputs with the same normalised digits get the same verdict. |
| Cpf.RepeatedDigitRejected | __init__.py:15-16 | Any input that normalises to eleven copies of one digit is rejected. |
| Cpf.ValidReferenceVector | __init__.py:19-32 | "11144477735" is accepted. |
| Cpf.InvalidReferenceVector | __init__.py:19-32 | "11144477736" is rejected, because its last check digit is wrong. Its digits are 1,1,1,4,4,4,7,7,7,3,6. The first check digit is 3, which digit 10 matches. The second check digit is 5, while digit 11 is 6. |
| Cpf.InvalidVectorCheckDigits | __init__.py:19-28 | For the digits 1,1,1,4,4,4,7,7,7,3,6 the two check digits are 3 and 5, so the CPF rule fails. |
| Cpf.DigitsInjective | __init__.py:15 | Two all-digit strings with the same digit values are the same string, so comparing digit values is the same as comparing characters. |
| Cpf.FormattedNormalizes | __init__.py:8 | Four digit groups joined by any three non-digit separators, as in `ddd.ddd.ddd-dd`, normalise to the groups run together. |
| Cpf.PunctuatedNormalizes | __init__.py:8 | "111.444.777-35" normalises to "11144477735". |
| Cpf.PunctuatedReferenceVector | __init__.py:8-32 | "111.444.777-35" is accepted, like its plain form. |
| Handler.SelectCpf | __init__.py:38-45 | A usable (non-empty) candidate exists iff the query value is usable or the body parsed with a usable field. That candidate is the query value when the query value is usable, and the body field otherwise. |
| Handler.Handle | __init__.py:38-54 | The status is 200 or 400. It is 400 iff neither the query nor a parsed body supplies a non-empty value, and then the text is the fixed guidance message. On 200 the text decodes to the selected value, unnormalised, together with the validator's verdict on it. |
| Handler.VerdictRoundTrip | __init__.py:49 | Decoding a 200 message gives back the value and verdict it was built from. The "válido" and "inválido" endings are never confused. |
| Handler.DecodeVerdictInverse | __init__.py:49 | Any text that decodes as a verdict is exactly the 200 message built from the decoded value and verdict. Together with the round trip, this means Handle's contract fixes the exact 200 text. |
| Handler.MissingMessageIsNoVerdict | __init__.py:51-53 | The 400 guidance text never decodes as a verdict message. |
| Handler.QueryWins | __init__.py:38-39 | When the query value is non-empty, the body has no influence. The answer is 200 with the message naming that value and its verdict, and that message decodes back to both. |
| Handler.EmptyQueryIsAbsent | __init__.py:38-39 | An empty query parameter is handled exactly like a missing one. |
| Handler.UnparseableIsAbsent | __init__.py:40-43 | A body that fails to parse is handled exactly like a parsed body with no `cpf` field. |
| Handler.BodyFallback | __init__.py:39-49 | Without a usable query value, a non-empty body field gives 200 with the message naming that value and its verdict, and that message decodes back to both. |
| Handler.EchoesUnnormalisedInput | __init__.py:47-49 | The message echoes the supplied "111.444.777-35" verbatim, not its normalised digits. |
| Handler.ValidQueryExample | __init__.py:47-49 | A query value of "11144477735" gives 200 and "O CPF 11144477735 é válido.". |
| Handler.InvalidBodyExample | __init__.py:41-49 | A body field of "11144477736" with no query value gives 200 and "O CPF 11144477736 é inválido.". |
| Handler.NothingSuppliedExample | __init__.py:50-54 | No query value and an unparseable body give 400 with the guidance text. |

## Left out

- Logging (`__init__.py:36`) is left out. It is a side effect with no functional content.
- The Azure Functions request and response types and the real JSON parser are left out. They are foreign library code, and they appear here as the two abstract inputs of `Handler.Handle`.
- A JSON body that parses to something other than an object (a list, a number, `null`) is left out. In the source it raises an uncaught error at `.get`, and that is not a specified outcome.
- A truthy non-string `cpf` field in the body (a non-zero number, `true`, a non-empty list or object) is left out. In the source it passes `if cpf:` and raises an uncaught TypeError in the regular-expression substitution at `__init__.py:8`. A falsy field (`null`, `0`, `false`, `[]`, `{}`) fails `if cpf:` and gets the 400 guidance text like a missing field, which `Parsed(None)` models.
- Only ASCII '0'..'9' count as digits. Python's `\D` and `int()` also accept other Unicode decimal digits, which this model does not cover.
- Handler.NothingSuppliedExample: states the 400 text as the constant `MissingCpfMessage` rather than spelling out the literal. That constant holds the source's text exactly, written as two concatenated literals.
