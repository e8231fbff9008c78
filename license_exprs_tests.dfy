/**
  The crate's test scenarios (tests/validate_license_expr.rs and the unit
  tests in src/lib.rs), plus a few edge cases they do not exercise, over a
  registry holding the identifiers they use. The real `spdx` lists are
  longer; only the membership of these words matters to the outcomes.

  One-word scenarios are stated on the literal itself. A scenario of
  several words takes its expression as a parameter fixed by its
  precondition, and a small `...Spelled` lemma rewrites it as words joined
  by spaces: the verifier then splits it with the lemmas of
  SplitWhitespace instead of unfolding the tokenizer over the literal
  character by character, which is far more costly.
 */
module LicenseExprsTests {
  import opened SplitWhitespace
  import opened LicenseExprs

  const Registry := Spdx(["AAL", "GPL-3.0+", "MIT"], ["Classpath-exception-2.0"])

  /** The words of the scenarios are words: non-empty, no whitespace. */
  lemma TestWords()
    ensures IsWord("MIT") && IsWord("AAL") && IsWord("GPL-3.0+")
    ensures IsWord("AND") && IsWord("OR") && IsWord("WITH")
    ensures IsWord("qwerty") && IsWord("and") && IsWord("foo") && IsWord("bar")
  {
  }

  lemma ExceptionIsWord()
    ensures IsWord("Classpath-exception-2.0")
  {
  }

  /** Splitting an expression spelled out as words and single spaces. */
  lemma Splits2(e: string, a: string, b: string)
    requires IsWord(a) && IsWord(b) && e == a + " " + b
    ensures Words(e) == [a, b]
  {
    WordsOfPair(a, b);
  }

  lemma Splits3(e: string, a: string, b: string, c: string)
    requires IsWord(a) && IsWord(b) && IsWord(c) && e == a + " " + b + " " + c
    ensures Words(e) == [a, b, c]
  {
    WordsOfTriple(a, b, c);
  }

  lemma Splits4(e: string, a: string, b: string, c: string, d: string)
    requires IsWord(a) && IsWord(b) && IsWord(c) && IsWord(d)
    requires e == a + " " + b + " " + c + " " + d
    ensures Words(e) == [a, b, c, d]
  {
    WordsOfTriple(a, b, c);
    WordsOfWord(d);
    WordsAcrossSeparator(a + " " + b + " " + c, " ", d);
  }

  // ---------------------------------------------------------------------
  // tests/validate_license_expr.rs

  lemma SingleLicenseScenario()
    ensures ValidateLicenseExpr("MIT", Registry) == Ok("MIT")
  {
    TestWords();
    SingleLicense("MIT", Registry);
  }

  lemma LeftSpelled(e: string)
    requires e == "GPL-3.0+ WITH Classpath-exception-2.0"
    ensures e == "GPL-3.0+" + " " + "WITH" + " " + "Classpath-exception-2.0"
  {
  }

  lemma RightSpelled(e: string)
    requires e == "OR MIT AND AAL"
    ensures e == "OR" + " " + "MIT" + " " + "AND" + " " + "AAL"
  {
  }

  lemma LeftWords(e: string)
    requires e == "GPL-3.0+ WITH Classpath-exception-2.0"
    ensures Words(e) == ["GPL-3.0+", "WITH", "Classpath-exception-2.0"]
  {
    LeftSpelled(e);
    TestWords();
    ExceptionIsWord();
    Splits3(e, "GPL-3.0+", "WITH", "Classpath-exception-2.0");
  }

  lemma RightWords(e: string)
    requires e == "OR MIT AND AAL"
    ensures Words(e) == ["OR", "MIT", "AND", "AAL"]
  {
    RightSpelled(e);
    TestWords();
    Splits4(e, "OR", "MIT", "AND", "AAL");
  }

  /** The words of two halves joined by one space. */
  lemma SplitsAcross(e: string, l: string, r: string, wl: seq<string>, wr: seq<string>)
    requires Words(l) == wl && Words(r) == wr && e == l + " " + r
    ensures Words(e) == wl + wr
  {
    WordsAcrossSeparator(l, " ", r);
  }

  /** How the registry classifies the identifiers of the scenarios. */
  lemma RegistryClassifies()
    ensures Classify("GPL-3.0+", Registry) == Ok(License("GPL-3.0+"))
    ensures Classify("MIT", Registry) == Ok(License("MIT"))
    ensures Classify("AAL", Registry) == Ok(License("AAL"))
    ensures Classify("Classpath-exception-2.0", Registry) == Ok(Exception("Classpath-exception-2.0"))
  {
  }

  lemma CompoundTokens(ws: seq<string>, ts: seq<LicenseExpr>)
    requires ws == ["GPL-3.0+", "WITH", "Classpath-exception-2.0", "OR", "MIT", "AND", "AAL"]
    requires ts == [License("GPL-3.0+"), With, Exception("Classpath-exception-2.0"),
                    Or, License("MIT"), And, License("AAL")]
    ensures AllKnown(ws, Registry) && Tokens(ws, Registry) == ts
  {
    RegistryClassifies();
    TokensOf(ws, ts, Registry);
  }

  lemma CompoundWellFormed(ts: seq<LicenseExpr>)
    requires ts == [License("GPL-3.0+"), With, Exception("Classpath-exception-2.0"),
                    Or, License("MIT"), And, License("AAL")]
    ensures WellFormed(ts)
  {
  }

  /** Acceptance once the words of the input are known. */
  lemma AcceptedWords(e: string, ws: seq<string>, spdx: Spdx)
    requires Words(e) == ws && AllKnown(ws, spdx) && WellFormed(Tokens(ws, spdx))
    ensures ValidateLicenseExpr(e, spdx) == Ok(e)
  {
    ValidateAccepts(e, spdx);
  }

  /** "GPL-3.0+ WITH Classpath-exception-2.0 OR MIT AND AAL", given as its
      two halves around the space before `OR`. */
  lemma CompoundLicenseScenario(l: string, r: string, e: string)
    requires l == "GPL-3.0+ WITH Classpath-exception-2.0" && r == "OR MIT AND AAL"
    requires e == l + " " + r
    ensures ValidateLicenseExpr(e, Registry) == Ok(e)
  {
    var ws := ["GPL-3.0+", "WITH", "Classpath-exception-2.0", "OR", "MIT", "AND", "AAL"];
    LeftWords(l);
    RightWords(r);
    SplitsAcross(e, l, r, ["GPL-3.0+", "WITH", "Classpath-exception-2.0"], ["OR", "MIT", "AND", "AAL"]);
    assert Words(e) == ws;
    var ts := [License("GPL-3.0+"), With, Exception("Classpath-exception-2.0"),
               Or, License("MIT"), And, License("AAL")];
    CompoundTokens(ws, ts);
    CompoundWellFormed(ts);
    AcceptedWords(e, ws, Registry);
  }

  lemma InvalidLicenseScenario(e: string)
    requires e == "asdfghjkl"
    ensures ValidateLicenseExpr(e, Registry) == Err(UnknownLicenseId("asdfghjkl"))
  {
    WordsOfWord(e);
    assert !IsKnown(e, Registry);
    ValidateLastUnknown(e, Registry, 0);
  }

  lemma TrailingUnknownSpelled(e: string)
    requires e == "MIT AND qwerty"
    ensures e == "MIT" + " " + "AND" + " " + "qwerty"
  {
  }

  lemma TrailingUnknownScenario(e: string)
    requires e == "MIT AND qwerty"
    ensures ValidateLicenseExpr(e, Registry) == Err(UnknownLicenseId("qwerty"))
  {
    TrailingUnknownSpelled(e);
    TestWords();
    Splits3(e, "MIT", "AND", "qwerty");
    assert !IsKnown("qwerty", Registry);
    ValidateLastUnknown(e, Registry, 2);
  }

  lemma LoneOperatorScenario()
    ensures ValidateLicenseExpr("WITH", Registry) == Err(InvalidStructure(With))
  {
    TestWords();
    WordsOfWord("WITH");
    BadFirstToken("WITH", Registry);
  }

  lemma OperatorAfterOperatorSpelled(e: string)
    requires e == "MIT OR WITH"
    ensures e == "MIT" + " " + "OR" + " " + "WITH"
  {
  }

  /** A third token that may not follow the first two, which may stand. */
  lemma ThirdBreaks(ts: seq<LicenseExpr>)
    requires |ts| == 3 && ts[0].License? && Allowed(ts[0], ts[1]) && !Allowed(ts[1], ts[2])
    ensures forall j :: 0 <= j < 2 ==> Admits(ts, j)
    ensures !Admits(ts, 2)
  {
  }

  /** Rejection once the words of the input and their tokens are known. */
  lemma RejectedWords(e: string, ws: seq<string>, ts: seq<LicenseExpr>, spdx: Spdx, i: int)
    requires Words(e) == ws && AllKnown(ws, spdx) && Tokens(ws, spdx) == ts
    requires 0 <= i < |ts| && !Admits(ts, i)
    requires forall j :: 0 <= j < i ==> Admits(ts, j)
    ensures ValidateLicenseExpr(e, spdx) == Err(InvalidStructure(ts[i]))
  {
    ValidateFirstInvalid(e, spdx, i);
  }

  lemma OperatorAfterOperatorTokens(ws: seq<string>)
    requires ws == ["MIT", "OR", "WITH"]
    ensures AllKnown(ws, Registry)
    ensures Tokens(ws, Registry) == [License("MIT"), Or, With]
  {
    RegistryClassifies();
  }

  lemma OperatorAfterOperatorScenario(e: string)
    requires e == "MIT OR WITH"
    ensures ValidateLicenseExpr(e, Registry) == Err(InvalidStructure(With))
  {
    OperatorAfterOperatorSpelled(e);
    TestWords();
    Splits3(e, "MIT", "OR", "WITH");
    var ws, ts := ["MIT", "OR", "WITH"], [License("MIT"), Or, With];
    OperatorAfterOperatorTokens(ws);
    ThirdBreaks(ts);
    RejectedWords(e, ws, ts, Registry, 2);
  }

  lemma ExceptionWithoutWithSpelled(e: string)
    requires e == "MIT AND Classpath-exception-2.0"
    ensures e == "MIT" + " " + "AND" + " " + "Classpath-exception-2.0"
  {
  }

  lemma ExceptionWithoutWithTokens(ws: seq<string>)
    requires ws == ["MIT", "AND", "Classpath-exception-2.0"]
    ensures AllKnown(ws, Registry)
    ensures Tokens(ws, Registry) == [License("MIT"), And, Exception("Classpath-exception-2.0")]
  {
    RegistryClassifies();
  }

  lemma ExceptionWithoutWithScenario(e: string)
    requires e == "MIT AND Classpath-exception-2.0"
    ensures ValidateLicenseExpr(e, Registry) == Err(InvalidStructure(Exception("Classpath-exception-2.0")))
  {
    ExceptionWithoutWithSpelled(e);
    TestWords();
    ExceptionIsWord();
    Splits3(e, "MIT", "AND", "Classpath-exception-2.0");
    var ws, ts := ["MIT", "AND", "Classpath-exception-2.0"], [License("MIT"), And, Exception("Classpath-exception-2.0")];
    ExceptionWithoutWithTokens(ws);
    ThirdBreaks(ts);
    RejectedWords(e, ws, ts, Registry, 2);
  }

  lemma LoneExceptionScenario()
    ensures ValidateLicenseExpr("Classpath-exception-2.0", Registry)
              == Err(InvalidStructure(Exception("Classpath-exception-2.0")))
  {
    ExceptionIsWord();
    LoneException("Classpath-exception-2.0", Registry);
  }

  // ---------------------------------------------------------------------
  // Edge cases

  /** No end-state check: a dangling operator is accepted. */
  lemma DanglingOperatorScenario(e: string)
    requires e == "MIT AND"
    ensures ValidateLicenseExpr(e, Registry) == Ok(e)
  {
    TestWords();
    assert e == "MIT" + " " + "AND";
    DanglingOperator("MIT", "AND", Registry);
  }

  /** No end-state check: blank input is accepted. */
  lemma BlankScenario()
    ensures ValidateLicenseExpr(" \t\n", Registry) == Ok(" \t\n")
  {
    ValidateBlank(" \t\n", Registry);
  }

  lemma LowerCaseKeywordSpelled(e: string)
    requires e == "MIT and AAL"
    ensures e == "MIT" + " " + "and" + " " + "AAL"
  {
  }

  /** Keywords are case-sensitive: `and` is looked up as an identifier. */
  lemma LowerCaseKeywordScenario(e: string)
    requires e == "MIT and AAL"
    ensures ValidateLicenseExpr(e, Registry) == Err(UnknownLicenseId("and"))
  {
    LowerCaseKeywordSpelled(e);
    TestWords();
    Splits3(e, "MIT", "and", "AAL");
    assert !IsKnown("and", Registry);
    assert IsKnown("AAL", Registry);
    ValidateLastUnknown(e, Registry, 1);
  }

  lemma UnknownOverridesStructureSpelled(e: string)
    requires e == "WITH qwerty"
    ensures e == "WITH" + " " + "qwerty"
  {
  }

  /** The fold does not stop at a structural error: a later unknown word
      replaces it. */
  lemma UnknownOverridesStructureScenario(e: string)
    requires e == "WITH qwerty"
    ensures ValidateLicenseExpr(e, Registry) == Err(UnknownLicenseId("qwerty"))
  {
    UnknownOverridesStructureSpelled(e);
    TestWords();
    Splits2(e, "WITH", "qwerty");
    assert !IsKnown("qwerty", Registry);
    ValidateLastUnknown(e, Registry, 1);
  }

  lemma LastUnknownSpelled(e: string)
    requires e == "foo MIT bar"
    ensures e == "foo" + " " + "MIT" + " " + "bar"
  {
  }

  /** Of several unknown words, the last one is reported. */
  lemma LastUnknownScenario(e: string)
    requires e == "foo MIT bar"
    ensures ValidateLicenseExpr(e, Registry) == Err(UnknownLicenseId("bar"))
  {
    LastUnknownSpelled(e);
    TestWords();
    Splits3(e, "foo", "MIT", "bar");
    assert !IsKnown("bar", Registry);
    ValidateLastUnknown(e, Registry, 2);
  }

  lemma ParenthesizedSpelled(e: string)
    requires e == "(MIT AND MIT)"
    ensures e == "(MIT" + " " + "AND" + " " + "MIT)"
  {
  }

  lemma ParenthesesAreWords()
    ensures IsWord("(MIT") && IsWord("MIT)")
  {
  }

  /** Parentheses are not part of the grammar: they stick to the words
      next to them, and the last such word is the one reported. */
  lemma ParenthesizedScenario(e: string)
    requires e == "(MIT AND MIT)"
    ensures ValidateLicenseExpr(e, Registry) == Err(UnknownLicenseId("MIT)"))
  {
    ParenthesizedSpelled(e);
    TestWords();
    ParenthesesAreWords();
    Splits3(e, "(MIT", "AND", "MIT)");
    assert !IsKnown("MIT)", Registry);
    ValidateLastUnknown(e, Registry, 2);
  }
}
