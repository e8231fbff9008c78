/**
  `validate_license_expr` of the license-exprs crate: a check that a
  string is a flat SPDX license expression (identifiers joined by `AND`,
  `OR` and `WITH`, no parentheses).

  The Rust function is one iterator pipeline:
    split_whitespace()       -> SplitWhitespace.Words
    .map(classifier)         -> Classify, ClassifyAll
    .fold(Ok(Or), step)      -> Fold, Step
    .map(|_| license_expr)   -> ValidateLicenseExpr
  The identifier lists of the crate's `spdx` module are a parameter.
 */
module LicenseExprs {
  import opened SplitWhitespace

  /** A classified word (the Rust enum `LicenseExpr`). */
  datatype LicenseExpr = License(id: string) | Exception(id: string) | With | And | Or

  datatype ParseError =
    | UnknownLicenseId(word: string)
    | InvalidStructure(token: LicenseExpr)

  /** Rust's `Result<T, ParseError>`. */
  datatype Result<T> = Ok(value: T) | Err(error: ParseError)

  /** The two identifier lists `spdx::LICENSES` and `spdx::EXCEPTIONS`,
      searched with `contains`. */
  datatype Spdx = Spdx(licenses: seq<string>, exceptions: seq<string>)

  /** The three operator keywords, matched exactly and case-sensitively. */
  predicate IsKeyword(word: string) {
    word == "WITH" || word == "AND" || word == "OR"
  }

  /** A word the classifier accepts. */
  predicate IsKnown(word: string, spdx: Spdx) {
    IsKeyword(word) || word in spdx.licenses || word in spdx.exceptions
  }

  predicate AllKnown(ws: seq<string>, spdx: Spdx) {
    forall i :: 0 <= i < |ws| ==> IsKnown(ws[i], spdx)
  }

  /** The word a token stands for. */
  function Spelling(t: LicenseExpr): string {
    match t
    case License(id) => id
    case Exception(id) => id
    case With => "WITH"
    case And => "AND"
    case Or => "OR"
  }

  /** The classifier closure passed to `map`. The contract pins the result
      down completely: keywords win over both lists, and the license list
      wins over the exception list. */
  function Classify(word: string, spdx: Spdx): (r: Result<LicenseExpr>)
    ensures r.Ok? <==> IsKnown(word, spdx)
    ensures r.Ok? ==> Spelling(r.value) == word
    ensures r.Err? ==> r.error == UnknownLicenseId(word)
    ensures r.Ok? && r.value.License? ==> !IsKeyword(word) && word in spdx.licenses
    ensures r.Ok? && r.value.Exception? ==>
              !IsKeyword(word) && word !in spdx.licenses && word in spdx.exceptions
  {
    if word == "WITH" then Ok(With)
    else if word == "AND" then Ok(And)
    else if word == "OR" then Ok(Or)
    else if word in spdx.licenses then Ok(License(word))
    else if word in spdx.exceptions then Ok(Exception(word))
    else Err(UnknownLicenseId(word))
  }

  /** The words mapped through the classifier, one item per word. */
  function ClassifyAll(ws: seq<string>, spdx: Spdx): (items: seq<Result<LicenseExpr>>)
    ensures |items| == |ws|
    ensures forall i :: 0 <= i < |ws| ==> (items[i].Ok? <==> IsKnown(ws[i], spdx))
    ensures forall i :: 0 <= i < |ws| && items[i].Ok? ==> Spelling(items[i].value) == ws[i]
    ensures forall i :: 0 <= i < |ws| && items[i].Err? ==> items[i].error == UnknownLicenseId(ws[i])
  {
    seq(|ws|, i requires 0 <= i < |ws| => Classify(ws[i], spdx))
  }

  /** The tokens of words that are all known. */
  function Tokens(ws: seq<string>, spdx: Spdx): seq<LicenseExpr>
    requires AllKnown(ws, spdx)
  {
    seq(|ws|, i requires 0 <= i < |ws| => Classify(ws[i], spdx).value)
  }

  /** The eight (previous, next) pairs listed in the fold's accepting arm. */
  predicate Allowed(prev: LicenseExpr, next: LicenseExpr) {
    match (prev, next)
    case (License(_), With) => true
    case (License(_), And) => true
    case (License(_), Or) => true
    case (Exception(_), And) => true
    case (Exception(_), Or) => true
    case (With, Exception(_)) => true
    case (And, License(_)) => true
    case (Or, License(_)) => true
    case _ => false
  }

  /** The table read by the next token: a license follows `AND` or `OR`,
      an exception follows `WITH`, `WITH` follows a license, and `AND` and
      `OR` follow a license or an exception. */
  lemma AllowedPredecessors(prev: LicenseExpr, next: LicenseExpr)
    ensures next.License? ==> (Allowed(prev, next) <==> prev == And || prev == Or)
    ensures next.Exception? ==> (Allowed(prev, next) <==> prev == With)
    ensures next == With ==> (Allowed(prev, next) <==> prev.License?)
    ensures next == And || next == Or ==> (Allowed(prev, next) <==> prev.License? || prev.Exception?)
  {
  }

  /** The closure passed to `fold`, arm by arm: an unknown word replaces
      the accumulator, an earlier error is kept, an allowed pair moves on to
      the new token, anything else is an `InvalidStructure` of the new token. */
  function Step(prev: Result<LicenseExpr>, word: Result<LicenseExpr>): (r: Result<LicenseExpr>)
    ensures r.Ok? <==> prev.Ok? && word.Ok? && Allowed(prev.value, word.value)
    ensures r.Ok? ==> r == word
    ensures word.Err? ==> r == word
    ensures prev.Err? && word.Ok? ==> r == prev
    ensures prev.Ok? && word.Ok? && !Allowed(prev.value, word.value) ==>
              r == Err(InvalidStructure(word.value))
  {
    match (prev, word)
    case (_, Err(_)) => word
    case (Err(_), _) => prev
    case (Ok(p), Ok(t)) => if Allowed(p, t) then word else Err(InvalidStructure(t))
  }

  /** Where a fold result can come from: the initial accumulator, one of the
      items, or an `InvalidStructure` of one of the known items. */
  predicate FromFold(r: Result<LicenseExpr>, acc: Result<LicenseExpr>, items: seq<Result<LicenseExpr>>) {
    r == acc
    || (exists i :: 0 <= i < |items| && r == items[i])
    || (exists i :: 0 <= i < |items| && items[i].Ok? && r == Err(InvalidStructure(items[i].value)))
  }

  /** Rust's `Iterator::fold` with Step: a left fold that visits every
      item, with no early exit. */
  function Fold(acc: Result<LicenseExpr>, items: seq<Result<LicenseExpr>>): (r: Result<LicenseExpr>)
    ensures FromFold(r, acc, items)
    decreases |items|
  {
    if |items| == 0 then acc
    else
      var r := Fold(Step(acc, items[0]), items[1..]);
      assert forall i :: 0 <= i < |items| - 1 ==> items[1..][i] == items[i + 1];
      r
  }

  /** The function itself. On success it hands back its input untouched;
      an error names either an unknown word of the input or a token read
      from one of its words. */
  function ValidateLicenseExpr(licenseExpr: string, spdx: Spdx): (r: Result<string>)
    ensures r.Ok? ==> r.value == licenseExpr
    ensures r.Err? && r.error.UnknownLicenseId? ==>
              r.error.word in Words(licenseExpr) && !IsKnown(r.error.word, spdx)
    ensures r.Err? && r.error.InvalidStructure? ==>
              Spelling(r.error.token) in Words(licenseExpr)
  {
    var items := ClassifyAll(Words(licenseExpr), spdx);
    match Fold(Ok(Or), items)
    case Ok(_) => Ok(licenseExpr)
    case Err(e) => Err(e)
  }

  // ---------------------------------------------------------------------
  // The classifier

  /** The tokens the classifier can produce under a given registry. */
  predicate Registered(t: LicenseExpr, spdx: Spdx) {
    match t
    case License(id) => !IsKeyword(id) && id in spdx.licenses
    case Exception(id) => !IsKeyword(id) && id !in spdx.licenses && id in spdx.exceptions
    case _ => true
  }

  /** Round trip: classifying a token's spelling gives the token back exactly
      when the registry can produce it. */
  lemma ClassifySpelling(t: LicenseExpr, spdx: Spdx)
    ensures Classify(Spelling(t), spdx) == Ok(t) <==> Registered(t, spdx)
  {
  }

  // ---------------------------------------------------------------------
  // The fold

  /** Once the accumulator is an error it stays an error, and only an
      unknown word can replace it. */
  lemma {:induction false} FoldFromError(e: ParseError, items: seq<Result<LicenseExpr>>)
    ensures Fold(Err(e), items).Err?
    ensures (forall i :: 0 <= i < |items| ==> items[i].Ok?) ==> Fold(Err(e), items) == Err(e)
    decreases |items|
  {
    if |items| > 0 {
      FoldFromError(Step(Err(e), items[0]).error, items[1..]);
      assert forall i :: 0 <= i < |items| - 1 ==> items[1..][i] == items[i + 1];
    }
  }

  /** The fold never short-circuits: the last unknown word decides the
      result, whatever the accumulator held before it. */
  lemma {:induction false} FoldLastUnknown(acc: Result<LicenseExpr>, items: seq<Result<LicenseExpr>>, i: int)
    requires 0 <= i < |items| && items[i].Err?
    requires forall j :: i < j < |items| ==> items[j].Ok?
    ensures Fold(acc, items) == items[i]
    decreases |items|
  {
    assert forall j :: 0 <= j < |items| - 1 ==> items[1..][j] == items[j + 1];
    if i == 0 {
      FoldFromError(items[0].error, items[1..]);
    } else {
      FoldLastUnknown(Step(acc, items[0]), items[1..], i - 1);
    }
  }

  /** Any unknown word makes the fold fail. */
  lemma {:induction false} FoldUnknownFails(acc: Result<LicenseExpr>, items: seq<Result<LicenseExpr>>, i: int)
    requires 0 <= i < |items| && items[i].Err?
    ensures Fold(acc, items).Err?
    decreases |items|
  {
    if i == 0 {
      FoldFromError(items[0].error, items[1..]);
    } else {
      assert items[1..][i - 1] == items[i];
      FoldUnknownFails(Step(acc, items[0]), items[1..], i - 1);
    }
  }

  /** The token before position `i`, with `p` standing before the first. */
  function Before(p: LicenseExpr, ts: seq<LicenseExpr>, i: int): LicenseExpr
    requires 0 <= i < |ts|
  {
    if i == 0 then p else ts[i - 1]
  }

  /** Every token is allowed after the one before it, starting from `p`. */
  predicate Chained(p: LicenseExpr, ts: seq<LicenseExpr>) {
    forall i :: 0 <= i < |ts| ==> Allowed(Before(p, ts, i), ts[i])
  }

  function Oks(ts: seq<LicenseExpr>): seq<Result<LicenseExpr>> {
    seq(|ts|, i requires 0 <= i < |ts| => Ok(ts[i]))
  }

  /** Over known tokens the fold succeeds exactly when every adjacent pair
      is allowed, and then ends on the last token. */
  lemma {:induction false} FoldKnown(p: LicenseExpr, ts: seq<LicenseExpr>)
    ensures Fold(Ok(p), Oks(ts)).Ok? <==> Chained(p, ts)
    ensures Chained(p, ts) ==> Fold(Ok(p), Oks(ts)) == Ok(if ts == [] then p else ts[|ts| - 1])
    decreases |ts|
  {
    if ts != [] {
      var rest := ts[1..];
      assert Oks(ts)[1..] == Oks(rest);
      assert forall i :: 1 <= i < |ts| ==> Before(p, ts, i) == Before(ts[0], rest, i - 1);
      if Allowed(p, ts[0]) {
        FoldKnown(ts[0], rest);
        assert Chained(ts[0], rest) ==> Chained(p, ts) by {
          if Chained(ts[0], rest) {
            forall i | 1 <= i < |ts| ensures Allowed(Before(p, ts, i), ts[i]) {
              assert ts[i] == rest[i - 1];
            }
          }
        }
      } else {
        FoldFromError(InvalidStructure(ts[0]), Oks(rest));
      }
    }
  }

  /** A chained prefix of `ts` after `p` is a chained prefix of its tail
      after its head. */
  lemma ChainedTail(p: LicenseExpr, ts: seq<LicenseExpr>, i: int)
    requires 0 < i <= |ts|
    requires forall j :: 0 <= j < i ==> Allowed(Before(p, ts, j), ts[j])
    ensures forall j :: 0 <= j < i - 1 ==> Allowed(Before(ts[0], ts[1..], j), ts[1..][j])
  {
    forall j | 0 <= j < i - 1 ensures Allowed(Before(ts[0], ts[1..], j), ts[1..][j]) {
      assert Before(ts[0], ts[1..], j) == Before(p, ts, j + 1);
    }
  }

  /** Over known tokens a failing fold reports the first token that is not
      allowed after its predecessor, not the predecessor. */
  lemma {:induction false} FoldFirstBreak(p: LicenseExpr, ts: seq<LicenseExpr>, i: int)
    requires 0 <= i < |ts| && !Allowed(Before(p, ts, i), ts[i])
    requires forall j :: 0 <= j < i ==> Allowed(Before(p, ts, j), ts[j])
    ensures Fold(Ok(p), Oks(ts)) == Err(InvalidStructure(ts[i]))
    decreases |ts|
  {
    var rest := ts[1..];
    assert Oks(ts)[1..] == Oks(rest);
    assert Oks(ts)[0] == Ok(ts[0]);
    assert Fold(Ok(p), Oks(ts)) == Fold(Step(Ok(p), Ok(ts[0])), Oks(rest));
    if i == 0 {
      FoldFromError(InvalidStructure(ts[0]), Oks(rest));
    } else {
      assert Step(Ok(p), Ok(ts[0])) == Ok(ts[0]);
      ChainedTail(p, ts, i);
      assert rest[i - 1] == ts[i];
      assert Before(ts[0], rest, i - 1) == Before(p, ts, i);
      FoldFirstBreak(ts[0], rest, i - 1);
    }
  }

  // ---------------------------------------------------------------------
  // The whole function, stated without the fold

  /** Token `i` may stand where it stands: a `License` first, after that a
      token allowed after its predecessor. */
  predicate Admits(ts: seq<LicenseExpr>, i: int)
    requires 0 <= i < |ts|
  {
    if i == 0 then ts[0].License? else Allowed(ts[i - 1], ts[i])
  }

  /** The grammar the function accepts: every adjacent pair allowed and a
      `License` first. Nothing is required of the last token. */
  predicate WellFormed(ts: seq<LicenseExpr>) {
    forall i :: 0 <= i < |ts| ==> Admits(ts, i)
  }

  /** The `Ok(Or)` seed plays the start state: what may follow `Or` is
      exactly what may come first. */
  lemma OrActsAsStart(ts: seq<LicenseExpr>, i: int)
    requires 0 <= i < |ts|
    ensures Admits(ts, i) <==> Allowed(Before(Or, ts, i), ts[i])
  {
  }

  lemma ClassifiedTokens(ws: seq<string>, spdx: Spdx)
    requires AllKnown(ws, spdx)
    ensures ClassifyAll(ws, spdx) == Oks(Tokens(ws, spdx))
  {
  }

  /** Acceptance: the function succeeds exactly when every word is known and
      the tokens are well formed, and then returns its input. */
  lemma ValidateAccepts(licenseExpr: string, spdx: Spdx)
    ensures var ws := Words(licenseExpr);
            (ValidateLicenseExpr(licenseExpr, spdx).Ok?
             <==> AllKnown(ws, spdx) && WellFormed(Tokens(ws, spdx)))
    ensures ValidateLicenseExpr(licenseExpr, spdx).Ok? ==>
              ValidateLicenseExpr(licenseExpr, spdx) == Ok(licenseExpr)
  {
    var ws := Words(licenseExpr);
    var items := ClassifyAll(ws, spdx);
    if AllKnown(ws, spdx) {
      var ts := Tokens(ws, spdx);
      ClassifiedTokens(ws, spdx);
      FoldKnown(Or, ts);
      assert WellFormed(ts) <==> Chained(Or, ts) by {
        forall i | 0 <= i < |ts| ensures Admits(ts, i) <==> Allowed(Before(Or, ts, i), ts[i]) {
          OrActsAsStart(ts, i);
        }
      }
    } else {
      var i :| 0 <= i < |ws| && !IsKnown(ws[i], spdx);
      FoldUnknownFails(Ok(Or), items, i);
    }
  }

  /** Error precedence: if some word is unknown, the error names the LAST
      unknown word, whatever structural error came before it. */
  lemma ValidateLastUnknown(licenseExpr: string, spdx: Spdx, i: int)
    requires 0 <= i < |Words(licenseExpr)|
    requires !IsKnown(Words(licenseExpr)[i], spdx)
    requires forall j :: i < j < |Words(licenseExpr)| ==> IsKnown(Words(licenseExpr)[j], spdx)
    ensures ValidateLicenseExpr(licenseExpr, spdx) == Err(UnknownLicenseId(Words(licenseExpr)[i]))
  {
    var ws := Words(licenseExpr);
    var items := ClassifyAll(ws, spdx);
    FoldLastUnknown(Ok(Or), items, i);
  }

  /** With every word known, a failure names the first token that may not
      stand where it stands. */
  lemma ValidateFirstInvalid(licenseExpr: string, spdx: Spdx, i: int)
    requires AllKnown(Words(licenseExpr), spdx)
    requires 0 <= i < |Words(licenseExpr)|
    requires !Admits(Tokens(Words(licenseExpr), spdx), i)
    requires forall j :: 0 <= j < i ==> Admits(Tokens(Words(licenseExpr), spdx), j)
    ensures ValidateLicenseExpr(licenseExpr, spdx) ==
              Err(InvalidStructure(Tokens(Words(licenseExpr), spdx)[i]))
  {
    var ws := Words(licenseExpr);
    var ts := Tokens(ws, spdx);
    ClassifiedTokens(ws, spdx);
    forall j | 0 <= j <= i ensures Admits(ts, j) <==> Allowed(Before(Or, ts, j), ts[j]) {
      OrActsAsStart(ts, j);
    }
    FoldFirstBreak(Or, ts, i);
  }

  // ---------------------------------------------------------------------
  // Whitespace and the missing end-state check

  /** The verdict depends on the words alone. */
  lemma ValidateSameWords(a: string, b: string, spdx: Spdx)
    requires Words(a) == Words(b)
    ensures ValidateLicenseExpr(a, spdx).Ok? <==> ValidateLicenseExpr(b, spdx).Ok?
    ensures ValidateLicenseExpr(a, spdx).Err? ==> ValidateLicenseExpr(a, spdx) == ValidateLicenseExpr(b, spdx)
  {
  }

  /** Whitespace before or after the expression changes neither the verdict
      nor the error. */
  lemma ValidateIgnoresSurroundingWhitespace(g: string, s: string, h: string, spdx: Spdx)
    requires AllWhitespace(g) && AllWhitespace(h)
    ensures ValidateLicenseExpr(g + s + h, spdx).Ok? <==> ValidateLicenseExpr(s, spdx).Ok?
    ensures ValidateLicenseExpr(s, spdx).Err? ==> ValidateLicenseExpr(g + s + h, spdx) == ValidateLicenseExpr(s, spdx)
  {
    WordsIgnoresSurroundingWhitespace(g, s, h);
    ValidateSameWords(g + s + h, s, spdx);
  }

  /** Any run of whitespace between two parts acts like one space. */
  lemma ValidateIgnoresSeparatorRun(a: string, g: string, b: string, spdx: Spdx)
    requires |g| > 0 && AllWhitespace(g)
    ensures ValidateLicenseExpr(a + g + b, spdx).Ok? <==> ValidateLicenseExpr(a + " " + b, spdx).Ok?
    ensures ValidateLicenseExpr(a + " " + b, spdx).Err? ==>
              ValidateLicenseExpr(a + g + b, spdx) == ValidateLicenseExpr(a + " " + b, spdx)
  {
    WordsAcrossSeparator(a, g, b);
    WordsAcrossSeparator(a, " ", b);
    ValidateSameWords(a + g + b, a + " " + b, spdx);
  }

  /** No end-state check: an empty or whitespace-only expression is
      accepted (the fold returns its seed). */
  lemma ValidateBlank(licenseExpr: string, spdx: Spdx)
    requires AllWhitespace(licenseExpr)
    ensures ValidateLicenseExpr(licenseExpr, spdx) == Ok(licenseExpr)
  {
    WordsOfWhitespace(licenseExpr);
  }

  // ---------------------------------------------------------------------
  // Expressions built from given words

  /** A registered license alone is accepted. */
  lemma SingleLicense(l: string, spdx: Spdx)
    requires IsWord(l) && Registered(License(l), spdx)
    ensures ValidateLicenseExpr(l, spdx) == Ok(l)
  {
    WordsOfWord(l);
    ValidateAccepts(l, spdx);
    assert Tokens([l], spdx) == [License(l)];
  }

  /** The tokens of words whose classifications are given one by one. */
  lemma TokensOf(ws: seq<string>, ts: seq<LicenseExpr>, spdx: Spdx)
    requires |ws| == |ts|
    requires forall k :: 0 <= k < |ws| ==> Classify(ws[k], spdx) == Ok(ts[k])
    ensures AllKnown(ws, spdx) && Tokens(ws, spdx) == ts
  {
  }

  /** `L AND M` and `L OR M` are accepted for registered licenses. */
  lemma LicensePair(l: string, op: string, m: string, spdx: Spdx)
    requires IsWord(l) && Registered(License(l), spdx)
    requires IsWord(m) && Registered(License(m), spdx)
    requires op == "AND" || op == "OR"
    ensures ValidateLicenseExpr(l + " " + op + " " + m, spdx) == Ok(l + " " + op + " " + m)
  {
    var ws, ts := [l, op, m], [License(l), if op == "AND" then And else Or, License(m)];
    WordsOfTriple(l, op, m);
    TokensOf(ws, ts, spdx);
    assert WellFormed(ts);
    ValidateAccepts(l + " " + op + " " + m, spdx);
  }

  /** `L WITH E` is accepted exactly when `E` is classified as an exception. */
  lemma LicenseWith(l: string, e: string, spdx: Spdx)
    requires IsWord(l) && Registered(License(l), spdx)
    requires IsWord(e)
    ensures ValidateLicenseExpr(l + " WITH " + e, spdx).Ok? <==> Registered(Exception(e), spdx)
  {
    var ws := [l, "WITH", e];
    assert l + " WITH " + e == l + " " + "WITH" + " " + e;
    WordsOfTriple(l, "WITH", e);
    ValidateAccepts(l + " WITH " + e, spdx);
    if AllKnown(ws, spdx) {
      var ts := Tokens(ws, spdx);
      assert ts[0] == License(l) && ts[1] == With;
      assert Admits(ts, 2) <==> ts[2].Exception?;
    }
  }

  /** No end-state check: a license followed by a dangling operator is
      accepted. */
  lemma DanglingOperator(l: string, op: string, spdx: Spdx)
    requires IsWord(l) && Registered(License(l), spdx)
    requires IsKeyword(op)
    ensures ValidateLicenseExpr(l + " " + op, spdx) == Ok(l + " " + op)
  {
    var t := if op == "WITH" then With else if op == "AND" then And else Or;
    var ws, ts := [l, op], [License(l), t];
    WordsOfPair(l, op);
    TokensOf(ws, ts, spdx);
    assert WellFormed(ts);
    ValidateAccepts(l + " " + op, spdx);
  }

  /** An expression whose words are all known but whose first word is an
      operator or an exception fails on that first token. */
  lemma BadFirstToken(licenseExpr: string, spdx: Spdx)
    requires AllKnown(Words(licenseExpr), spdx) && |Words(licenseExpr)| > 0
    requires !Classify(Words(licenseExpr)[0], spdx).value.License?
    ensures ValidateLicenseExpr(licenseExpr, spdx) ==
              Err(InvalidStructure(Classify(Words(licenseExpr)[0], spdx).value))
  {
    ValidateFirstInvalid(licenseExpr, spdx, 0);
  }

  /** An exception on its own is a structural error carrying the exception. */
  lemma LoneException(e: string, spdx: Spdx)
    requires IsWord(e) && Registered(Exception(e), spdx)
    ensures ValidateLicenseExpr(e, spdx) == Err(InvalidStructure(Exception(e)))
  {
    WordsOfWord(e);
    BadFirstToken(e, spdx);
  }
}
