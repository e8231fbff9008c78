# license-exprs: `validate_license_expr` in Dafny

This project models `validate_license_expr` from the `license-exprs` Rust
crate. The function checks that a string is a flat SPDX license expression:
license identifiers joined by `AND` and `OR`, with `WITH` attaching an
exception identifier to a license, and no parentheses.

The Rust function is a single iterator pipeline, and the model follows it
stage by stage:

- `split_whitespace()` is `SplitWhitespace.Words`, defined with Rust's
  `char::is_whitespace` (the Unicode White_Space characters).
- The classifier closure is `LicenseExprs.Classify`. The keywords `WITH`,
  `AND` and `OR` are checked first, then the license list, then the
  exception list. Any other word gives `UnknownLicenseId(word)`.
- `.fold(Ok(Or), ...)` is `LicenseExprs.Fold`, with `LicenseExprs.Step` as
  the closure:
  - an unknown word replaces the accumulator;
  - an earlier error is kept;
  - the eight allowed (previous, next) pairs (`LicenseExprs.Allowed`) move
    on to the new token;
  - anything else becomes `InvalidStructure` of the new token.
- `.map(|_| license_expr)` is the last step of
  `LicenseExprs.ValidateLicenseExpr`: on success the input string comes
  back unchanged.

The crate's `spdx::LICENSES` and `spdx::EXCEPTIONS` lists are a parameter
(`Spdx`). The scenarios in `license_exprs_tests.dfy` use a registry holding
just the identifiers they need.

Beyond the contracts of the pipeline stages, the model proves the
following.

Grammar and acceptance:

- Acceptance is exactly "every word is known and the tokens are well
  formed" (`WellFormed`: a license first, then only allowed pairs).
- The `Ok(Or)` seed plays the start state.

Which error is reported:

- With all words known, the error names the first token out of place.
- With unknown words present, the error names the last unknown word.

Whitespace and the tokenizer:

- The verdict depends only on the words, so extra or unusual whitespace
  never changes it.
- The tokenizer keeps every non-whitespace character, in order.
- Splitting undoes joining with single spaces.

Tests:

- The crate's test cases hold, each as a lemma.

### Behaviour worth knowing

- **The fold does not stop at the first error.**
  - The arm `(_, Err(_)) => word` comes first, so every later unknown word
    replaces the accumulator, whether it held an earlier unknown word or a
    structural error.
  - The error therefore names the last unknown word: `foo MIT bar` reports
    `bar`, `WITH qwerty` reports `qwerty`, and `(MIT AND MIT)` reports
    `MIT)`.
  - See `LicenseExprs.ValidateLastUnknown` and the scenarios.
- **There is no end-state check.**
  - Empty and whitespace-only input is accepted (`LicenseExprs.ValidateBlank`).
  - So is a license followed by a dangling operator, such as `MIT AND`
    (`LicenseExprs.DanglingOperator`).
- **Whitespace is Rust's full Unicode White_Space set**, not only space,
  tab and newline (`SplitWhitespace.IsWhitespaceTable`).

## Model

| member | source | states |
|---|---|---|
| SplitWhitespace.IsWhitespace | src/lib.rs:19 | `char::is_whitespace` as `split_whitespace` uses it; `IsWhitespaceTable` proves its range tests pick out exactly the 25 White_Space characters |
| SplitWhitespace.IsWhitespaceTable | src/lib.rs:19 | a character is whitespace exactly when it is one of the listed Unicode White_Space characters |
| SplitWhitespace.Words | src/lib.rs:19 | every piece `split_whitespace` yields is non-empty and free of whitespace |
| SplitWhitespace.WordsAppend | src/lib.rs:19 | splitting two strings that meet at whitespace gives the words of the first followed by the words of the second |
| SplitWhitespace.WordsOfWhitespace | src/lib.rs:19 | whitespace-only input yields no words |
| SplitWhitespace.WordsOfWord | src/lib.rs:19 | a single word splits to itself |
| SplitWhitespace.WordsIgnoresSurroundingWhitespace | src/lib.rs:19 | leading and trailing whitespace of any length yields no extra words |
| SplitWhitespace.WordsAcrossSeparator | src/lib.rs:19 | any non-empty run of whitespace between two parts only separates them |
| SplitWhitespace.WordsOfJoin | src/lib.rs:19 | round trip: words joined with single spaces split back into the same words in the same order |
| SplitWhitespace.WordsKeepContent | src/lib.rs:19 | the words, laid end to end, are exactly the non-whitespace characters of the input, in order |
| LicenseExprs.Classify | src/lib.rs:19-25 | succeeds exactly for keywords and listed identifiers; the token spells the word back; keywords win over both lists and licenses win over exceptions; otherwise `UnknownLicenseId(word)` |
| LicenseExprs.ClassifyAll | src/lib.rs:19-25 | one item per word, in order: an item succeeds exactly when its word is known, a success spells its word back, and a failure is `UnknownLicenseId` of its word |
| LicenseExprs.ClassifySpelling | src/lib.rs:19-25 | classifying a token's spelling gives that token back exactly when the registry can produce it |
| LicenseExprs.Allowed | src/lib.rs:29-37 | the eight accepted (previous, next) pairs; `AllowedPredecessors` restates them by next token |
| LicenseExprs.AllowedPredecessors | src/lib.rs:29-37 | a license may follow only `AND` or `OR`, an exception only `WITH`, `WITH` only a license, and `AND` or `OR` only a license or an exception |
| LicenseExprs.Step | src/lib.rs:26-38 | the step succeeds exactly when both sides are known and the pair is allowed, and then moves to the new token; an unknown word replaces the accumulator; an error accumulator is kept over known words; a pair not allowed gives `InvalidStructure` of the new token. `FoldFromError`, `FoldLastUnknown`, `FoldKnown` and `FoldFirstBreak` state what its arms do over a whole fold |
| LicenseExprs.Fold | src/lib.rs:26-38 | the fold's result is the seed, one of the items, or `InvalidStructure` of a known item |
| LicenseExprs.FoldFromError | src/lib.rs:27-28 | once the accumulator is an error it stays an error, and it is unchanged unless an unknown word follows |
| LicenseExprs.FoldLastUnknown | src/lib.rs:26-28 | no short-circuit: the last unknown word is the fold's result |
| LicenseExprs.FoldUnknownFails | src/lib.rs:26-28 | any unknown word makes the fold fail |
| LicenseExprs.FoldKnown | src/lib.rs:29-38 | over known tokens the fold succeeds exactly when every token is allowed after its predecessor, and then ends on the last token |
| LicenseExprs.FoldFirstBreak | src/lib.rs:29-38 | over known tokens a failing fold reports the first token not allowed after its predecessor |
| LicenseExprs.OrActsAsStart | src/lib.rs:26 | what may follow the `Or` seed is exactly what may stand first: a license |
| LicenseExprs.ValidateLicenseExpr | src/lib.rs:18-40 | success returns the input string itself; an unknown-word error names an unknown word of the input; a structural error carries a token spelled as one of the input's words |
| LicenseExprs.ValidateAccepts | src/lib.rs:18-40 | accepted exactly when every word is known and the tokens are well formed (a license first, then only allowed pairs), and then `Ok(input)` |
| LicenseExprs.ValidateLastUnknown | src/lib.rs:25-28 | if a word is unknown, the error names the last unknown word |
| LicenseExprs.ValidateFirstInvalid | src/lib.rs:29-38 | with every word known, the error is `InvalidStructure` of the first token out of place |
| LicenseExprs.ValidateSameWords | src/lib.rs:19 | inputs with the same words get the same verdict and the same error |
| LicenseExprs.ValidateIgnoresSurroundingWhitespace | src/lib.rs:19 | whitespace around the expression changes neither the verdict nor the error |
| LicenseExprs.ValidateIgnoresSeparatorRun | src/lib.rs:19 | any run of whitespace between parts behaves like one space |
| LicenseExprs.ValidateBlank | src/lib.rs:26 | no end-state check: empty or whitespace-only input is accepted |
| LicenseExprs.SingleLicense | src/lib.rs:18-40 | a registered license alone is accepted |
| LicenseExprs.LicensePair | src/lib.rs:18-40 | `L AND M` and `L OR M` are accepted for registered licenses |
| LicenseExprs.LicenseWith | src/lib.rs:29-34 | `L WITH E` is accepted exactly when `E` is classified as an exception |
| LicenseExprs.DanglingOperator | src/lib.rs:26-39 | no end-state check: a license followed by a dangling operator is accepted |
| LicenseExprs.BadFirstToken | src/lib.rs:36-38 | an expression starting with an operator or an exception fails on that first token |
| LicenseExprs.LoneException | src/lib.rs:34-38 | an exception on its own is `InvalidStructure` of that exception |
| LicenseExprsTests.SingleLicenseScenario | tests/validate_license_expr.rs:6-8 | `MIT` is accepted |
| LicenseExprsTests.CompoundLicenseScenario | tests/validate_license_expr.rs:11-14 | `GPL-3.0+ WITH Classpath-exception-2.0 OR MIT AND AAL` is accepted |
| LicenseExprsTests.InvalidLicenseScenario | tests/validate_license_expr.rs:18 | `asdfghjkl` fails with `UnknownLicenseId("asdfghjkl")` |
| LicenseExprsTests.TrailingUnknownScenario | tests/validate_license_expr.rs:19 | `MIT AND qwerty` fails with `UnknownLicenseId("qwerty")` |
| LicenseExprsTests.LoneOperatorScenario | tests/validate_license_expr.rs:24 | `WITH` fails with `InvalidStructure(With)` |
| LicenseExprsTests.OperatorAfterOperatorScenario | tests/validate_license_expr.rs:25 | `MIT OR WITH` fails with `InvalidStructure(With)` |
| LicenseExprsTests.ExceptionWithoutWithScenario | tests/validate_license_expr.rs:26 | `MIT AND Classpath-exception-2.0` fails with `InvalidStructure` of the exception |
| LicenseExprsTests.LoneExceptionScenario | tests/validate_license_expr.rs:27 | `Classpath-exception-2.0` fails with `InvalidStructure` of the exception |
| LicenseExprsTests.DanglingOperatorScenario | src/lib.rs:26-38 | `MIT AND` is accepted |
| LicenseExprsTests.BlankScenario | src/lib.rs:19-26 | blank input is accepted |
| LicenseExprsTests.LowerCaseKeywordScenario | src/lib.rs:20-25 | `MIT and AAL` fails with `UnknownLicenseId("and")`: keywords are case-sensitive |
| LicenseExprsTests.UnknownOverridesStructureScenario | src/lib.rs:27-28 | `WITH qwerty` fails with `UnknownLicenseId("qwerty")`, not the structural error of `WITH` |
| LicenseExprsTests.LastUnknownScenario | src/lib.rs:27 | `foo MIT bar` fails with `UnknownLicenseId("bar")` |
| LicenseExprsTests.ParenthesizedScenario | src/lib.rs:19-27 | `(MIT AND MIT)` fails with `UnknownLicenseId("MIT)")` |

## Left out

- The `println!` in the final `map` (src/lib.rs:39) is output only and is not modelled.
- The contents of `spdx::LICENSES` and `spdx::EXCEPTIONS` (the crate's `spdx` module) are not part of this model. The lists are a parameter, and the scenarios use a small registry holding the identifiers they mention.
- Lifetimes, borrowing and the `Debug`/`Clone`/`Copy` derives have no counterpart. Identifiers are owned strings.
- Rust's lazy iterators are modelled as whole sequences: `Words`, then `ClassifyAll`, then `Fold`. Laziness does not change the result, because the fold consumes every item.
- The `#[should_panic]` unit tests in src/lib.rs:56-70 panic at their first call, so only that first expression is reached. Those first expressions are the scenarios `InvalidLicenseScenario` and `LoneOperatorScenario`. The later expressions in those tests appear in tests/validate_license_expr.rs and have their own scenarios.
