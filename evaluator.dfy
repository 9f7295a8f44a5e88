/**
 * The answer evaluators of the banking evaluation framework: numerical
 * accuracy, table context, compliance language and cross-reference
 * resolution, plus the coverage of the expected content of a test case.
 * Each `evaluate` starts from a score of 1.0, subtracts a fixed amount per
 * finding and reports `max(0, score)`; scores are exact rationals.
 */
module Evaluator {
  import opened Wrappers
  import opened Text
  import opened Regex
  import opened Numbers
  import opened Collections

  /** `max(0, score)`. */
  function NonNegative(x: real): (r: real)
    ensures r >= 0.0 && r >= x
    ensures x >= 0.0 ==> r == x
  {
    if x < 0.0 then 0.0 else x
  }

  /** `"; ".join(feedback) if feedback else otherwise`. */
  function Feedback(notes: seq<string>, otherwise: string): string {
    if notes == [] then otherwise else Join("; ", notes)
  }

  // ---------------------------------------------------------------------------
  // BankingAccuracyEvaluator
  // ---------------------------------------------------------------------------

  /** One feedback item; the f-strings that print a float are kept as the value. */
  datatype AccuracyNote = QuestionableRate(rate: real) | InvalidAmount(amount: real) | MissingRateDisclaimer

  datatype AccuracyResult = AccuracyResult(
    score: real,
    feedback: seq<AccuracyNote>,
    ratesFound: nat,
    amountsFound: nat,
    termsFound: nat)

  /** `rate < 0 or rate > 50`. */
  predicate Questionable(rate: real) {
    rate < 0.0 || rate > 50.0
  }

  /** The notes for the rates, in order. */
  function RateNotes(rates: seq<real>): seq<AccuracyNote>
    decreases |rates|
  {
    if rates == [] then []
    else
      var rate := rates[|rates| - 1];
      RateNotes(rates[..|rates| - 1]) + (if Questionable(rate) then [QuestionableRate(rate)] else [])
  }

  /** The notes for the amounts, in order. */
  function AmountNotes(amounts: seq<real>): seq<AccuracyNote>
    decreases |amounts|
  {
    if amounts == [] then []
    else
      var amount := amounts[|amounts| - 1];
      AmountNotes(amounts[..|amounts| - 1]) + (if amount <= 0.0 then [InvalidAmount(amount)] else [])
  }

  /** Rates are quoted without `subject to change` (in any case). */
  predicate NeedsRateDisclaimer(prediction: string) {
    RatesIn(prediction) != [] && !Contains(Lower(prediction), "subject to change")
  }

  function AccuracyNotes(prediction: string): seq<AccuracyNote> {
    RateNotes(RatesIn(prediction)) + AmountNotes(AmountsIn(prediction))
    + (if NeedsRateDisclaimer(prediction) then [MissingRateDisclaimer] else [])
  }

  /** 0.2 per questionable rate and per invalid amount, 0.1 for the missing disclaimer. */
  function AccuracyPenalty(prediction: string): real {
    0.2 * |RateNotes(RatesIn(prediction))| as real + 0.2 * |AmountNotes(AmountsIn(prediction))| as real
    + (if NeedsRateDisclaimer(prediction) then 0.1 else 0.0)
  }

  /** `BankingAccuracyEvaluator.evaluate`. */
  method EvaluateAccuracy(prediction: string) returns (result: AccuracyResult)
    ensures result.score == NonNegative(1.0 - AccuracyPenalty(prediction))
    ensures result.feedback == AccuracyNotes(prediction)
    ensures result.ratesFound == |RatesIn(prediction)|
    ensures result.amountsFound == |AmountsIn(prediction)|
    ensures result.termsFound == |TermsIn(prediction)|
  {
    var rates := RatesIn(prediction);
    var amounts := AmountsIn(prediction);
    var terms := TermsIn(prediction);
    var score, feedback := CheckRates(rates, 1.0, []);
    assert feedback == RateNotes(rates);
    score, feedback := CheckAmounts(amounts, score, feedback);
    if rates != [] && !Contains(Lower(prediction), "subject to change") {
      score := score - 0.1;
      feedback := feedback + [MissingRateDisclaimer];
    } else {
      assert feedback == feedback + [];
    }
    result := AccuracyResult(NonNegative(score), feedback, |rates|, |amounts|, |terms|);
  }

  /** The loop over the rates: 0.2 off and a note for each questionable one. */
  method CheckRates(rates: seq<real>, score0: real, feedback0: seq<AccuracyNote>) returns (score: real, feedback: seq<AccuracyNote>)
    ensures feedback == feedback0 + RateNotes(rates)
    ensures score == score0 - 0.2 * |RateNotes(rates)| as real
  {
    score, feedback := score0, feedback0;
    for i := 0 to |rates|
      invariant feedback == feedback0 + RateNotes(rates[..i])
      invariant score == score0 - 0.2 * |RateNotes(rates[..i])| as real
    {
      assert rates[..i + 1][..i] == rates[..i];
      var rate := rates[i];
      if rate < 0.0 || rate > 50.0 {
        score := score - 0.2;
        feedback := feedback + [QuestionableRate(rate)];
      }
    }
    assert rates[..|rates|] == rates;
  }

  /** The loop over the amounts: 0.2 off and a note for each one that is not positive. */
  method CheckAmounts(amounts: seq<real>, score0: real, feedback0: seq<AccuracyNote>) returns (score: real, feedback: seq<AccuracyNote>)
    ensures feedback == feedback0 + AmountNotes(amounts)
    ensures score == score0 - 0.2 * |AmountNotes(amounts)| as real
  {
    score, feedback := score0, feedback0;
    for i := 0 to |amounts|
      invariant feedback == feedback0 + AmountNotes(amounts[..i])
      invariant score == score0 - 0.2 * |AmountNotes(amounts[..i])| as real
    {
      assert amounts[..i + 1][..i] == amounts[..i];
      var amount := amounts[i];
      if amount <= 0.0 {
        score := score - 0.2;
        feedback := feedback + [InvalidAmount(amount)];
      }
    }
    assert amounts[..|amounts|] == amounts;
  }

  lemma {:induction false} RateNotesSound(rates: seq<real>)
    ensures |RateNotes(rates)| <= |rates|
    ensures forall n | n in RateNotes(rates) :: n.QuestionableRate? && n.rate in rates && Questionable(n.rate)
    ensures RateNotes(rates) == [] <==> forall i | 0 <= i < |rates| :: !Questionable(rates[i])
    decreases |rates|
  {
    if rates != [] {
      var init := rates[..|rates| - 1];
      RateNotesSound(init);
      assert rates == init + [rates[|rates| - 1]];
    }
  }

  lemma {:induction false} AmountNotesSound(amounts: seq<real>)
    ensures |AmountNotes(amounts)| <= |amounts|
    ensures forall n | n in AmountNotes(amounts) :: n.InvalidAmount? && n.amount in amounts && n.amount <= 0.0
    ensures AmountNotes(amounts) == [] <==> forall i | 0 <= i < |amounts| :: amounts[i] > 0.0
    decreases |amounts|
  {
    if amounts != [] {
      var init := amounts[..|amounts| - 1];
      AmountNotesSound(init);
      assert amounts == init + [amounts[|amounts| - 1]];
    }
  }

  /** The amounts the pattern can read are never negative. */
  lemma AmountsNonNegative(text: string)
    ensures forall a | a in AmountsIn(text) :: a >= 0.0
  {
  }

  /**
   * The accuracy score lies in [0, 1]; it is 1 exactly when there is no
   * feedback; a questionable rate is always one above 50 (no rate read is
   * negative) and an invalid amount is always zero.
   */
  lemma AccuracyScoreSound(prediction: string)
    ensures var s := NonNegative(1.0 - AccuracyPenalty(prediction)); 0.0 <= s <= 1.0
    ensures NonNegative(1.0 - AccuracyPenalty(prediction)) == 1.0 <==> AccuracyNotes(prediction) == []
    ensures forall n | n in AccuracyNotes(prediction) && n.QuestionableRate? :: n.rate > 50.0
    ensures forall n | n in AccuracyNotes(prediction) && n.InvalidAmount? :: n.amount == 0.0
  {
    RateNotesSound(RatesIn(prediction));
    AmountNotesSound(AmountsIn(prediction));
    RatesNonNegative(prediction);
    AmountsNonNegative(prediction);
  }

  // ---------------------------------------------------------------------------
  // TableContextEvaluator
  // ---------------------------------------------------------------------------

  /** `Table ([A-Z]?\d+\.\d+)`, case-sensitive. */
  const TableRefPattern := TableIdAfter("Table ", false)

  /** `_find_table_references`. */
  function TableReferences(text: string): seq<string> {
    FindAll(TableRefPattern, text)
  }

  /** `_find_broken_references`: every `see Table` (any case) not followed by whitespace and an identifier. */
  function BrokenReferences(text: string): seq<string> {
    FindAll(BrokenMention, text)
  }

  const StructureTerms: seq<string> := ["rate", "amount", "term", "fee"]

  /** `_has_table_structure`, case-sensitive. */
  predicate HasTableStructure(text: string) {
    Contains(text, "|") || Contains(text, "APR") || ContainsAny(text, StructureTerms)
  }

  datatype TableContextResult = TableContextResult(
    score: real,
    feedback: string,
    tableReferences: seq<string>,
    brokenReferences: seq<string>)

  /** 0.3 per broken reference, 0.2 for references without structure. */
  function TableContextPenalty(text: string): real {
    0.3 * |BrokenReferences(text)| as real
    + (if !HasTableStructure(text) && TableReferences(text) != [] then 0.2 else 0.0)
  }

  function TableContextNotes(text: string): seq<string> {
    var refs := TableReferences(text);
    var broken := BrokenReferences(text);
    (if broken != [] then ["Broken references: " + Join(", ", broken)] else [])
    + (if HasTableStructure(text) then ["Table structure preserved"]
       else if refs != [] then ["Table references found but structure unclear"] else [])
    + (if refs != [] then ["Table references: " + Join(", ", refs)] else [])
  }

  /** `TableContextEvaluator.evaluate`. */
  method EvaluateTableContext(prediction: string) returns (result: TableContextResult)
    ensures result.score == NonNegative(1.0 - TableContextPenalty(prediction))
    ensures result.feedback == Feedback(TableContextNotes(prediction), "No table context issues")
    ensures result.tableReferences == TableReferences(prediction)
    ensures result.brokenReferences == BrokenReferences(prediction)
  {
    var score := 1.0;
    var feedback: seq<string> := [];
    var tableRefs := TableReferences(prediction);
    var brokenRefs := BrokenReferences(prediction);
    if brokenRefs != [] {
      score := score - 0.3 * |brokenRefs| as real;
      feedback := feedback + ["Broken references: " + Join(", ", brokenRefs)];
    }
    ghost var first := feedback;
    if HasTableStructure(prediction) {
      feedback := feedback + ["Table structure preserved"];
    } else if tableRefs != [] {
      score := score - 0.2;
      feedback := feedback + ["Table references found but structure unclear"];
    }
    ghost var second := feedback;
    if tableRefs != [] {
      feedback := feedback + ["Table references: " + Join(", ", tableRefs)];
    }
    assert feedback == TableContextNotes(prediction) by {
      assert first == (if brokenRefs != [] then ["Broken references: " + Join(", ", brokenRefs)] else []);
      assert second == first + (if HasTableStructure(prediction) then ["Table structure preserved"]
        else if tableRefs != [] then ["Table references found but structure unclear"] else []);
    }
    result := TableContextResult(NonNegative(score), if feedback != [] then Join("; ", feedback) else "No table context issues",
      tableRefs, brokenRefs);
  }

  /**
   * The table-context score lies in [0, 1] and is 1 exactly when there is no
   * broken reference and the references, if any, come with table structure.
   */
  lemma TableContextScoreSound(text: string)
    ensures var s := NonNegative(1.0 - TableContextPenalty(text)); 0.0 <= s <= 1.0
    ensures NonNegative(1.0 - TableContextPenalty(text)) == 1.0
      <==> BrokenReferences(text) == [] && (HasTableStructure(text) || TableReferences(text) == [])
  {
  }

  /** Each table reference is a case-sensitive identifier that follows `Table ` in the text. */
  lemma TableReferenceSound(text: string, i: nat)
    requires i < |TableReferences(text)|
    ensures IsTableId(TableReferences(text)[i], false)
    ensures Contains(text, "Table " + TableReferences(text)[i])
  {
    var h := FindIter(TableRefPattern, text, 0)[i];
    FindIterHit(TableRefPattern, text, 0, i);
    TableIdHit("Table ", text, h.start, h);
    ContainsAt(text, h.start, "Table " + h.group);
  }

  /** `see table` in any case at `p`, not followed by whitespace and an identifier. */
  predicate BrokenAt(text: string, p: nat)
    requires p <= |text|
  {
    LiteralAt("see table", text, p, true) && !(SpacesEnd(text, p + 9) > p + 9 && IdEnd(text, SpacesEnd(text, p + 9), true).Some?)
  }

  lemma MatchAtBroken(s: string, p: nat)
    requires p <= |s|
    ensures MatchAt(BrokenMention, s, p) == BrokenMentionAt(s, p)
  {
  }

  /** Each broken reference is the text of a `see table` broken at its position. */
  lemma BrokenReferenceSound(text: string, i: nat)
    requires i < |FindIter(BrokenMention, text, 0)|
    ensures var h := FindIter(BrokenMention, text, 0)[i];
      && h.start + 9 <= |text|
      && BrokenAt(text, h.start)
      && h.group == text[h.start..h.start + 9]
      && BrokenReferences(text)[i] == h.group
  {
    var h := FindIter(BrokenMention, text, 0)[i];
    FindIterHit(BrokenMention, text, 0, i);
    MatchAtBroken(text, h.start);
  }

  /** No proper suffix of `see table` starts with an `s` in any case, so two of them cannot overlap. */
  lemma BrokenNoOverlap(text: string, p: nat, q: nat)
    requires p < q < p + 9 && q <= |text|
    requires LiteralAt("see table", text, p, true)
    ensures !LiteralAt("see table", text, q, true)
  {
    var lit := "see table";
    LiteralCharAt(lit, text, p, true, q - p);
    assert LowerChar(lit[q - p]) != 's';
    assert !CharMatches(text[q + 0], lit[0], true);
  }

  /**
   * Nothing broken is missed: every `see table` (any case) that is not followed
   * by whitespace and an identifier is reported, at its own position.
   */
  lemma BrokenReferenceComplete(text: string, p: nat)
    requires p <= |text| && BrokenAt(text, p)
    ensures exists i | 0 <= i < |FindIter(BrokenMention, text, 0)| :: FindIter(BrokenMention, text, 0)[i].start == p
  {
    var ms := Attempts(BrokenMention, text);
    var hits := FindIter(BrokenMention, text, 0);
    assert p < |text|;
    AttemptAt(BrokenMention, text, p);
    MatchAtBroken(text, p);
    if forall h | h in hits :: !(h.start <= p < h.end) {
      ScanComplete(ms, 0, p);
      assert false;
    }
    var h :| h in hits && h.start <= p < h.end;
    var i :| 0 <= i < |hits| && hits[i] == h;
    FindIterHit(BrokenMention, text, 0, i);
    MatchAtBroken(text, h.start);
    if h.start < p {
      BrokenNoOverlap(text, h.start, p);
    }
  }

  // ---------------------------------------------------------------------------
  // ComplianceEvaluator
  // ---------------------------------------------------------------------------

  /** The `(passed, message)` tuple every check returns. */
  datatype CheckOutcome = CheckOutcome(passed: bool, message: string)

  /** `(input_text or "").lower()`. */
  function InputLower(input: Option<string>): string {
    Lower(if input.Some? then input.value else "")
  }

  const RateTriggers: seq<string> := ["rate", "apr", "cost"]
  const RatePhrases: seq<string> := ["subject to change", "credit approval", "may vary"]
  const CreditTriggers: seq<string> := ["loan", "credit", "borrow"]
  const CreditPhrases: seq<string> := ["credit approval", "subject to approval", "qualification"]
  const RegulatoryTriggers: seq<string> := ["compliance", "regulation", "fdic", "requirement"]
  const Citations: seq<string> := ["FDIC", "TILA", "BSA", "ECOA", "FHA"]

  /** `_check_rate_disclaimer`. */
  function CheckRateDisclaimer(prediction: string, input: Option<string>): CheckOutcome {
    if ContainsAny(InputLower(input), RateTriggers) then
      if ContainsAny(Lower(prediction), RatePhrases) then CheckOutcome(true, "Rate disclaimer present")
      else CheckOutcome(false, "Missing rate disclaimer")
    else CheckOutcome(true, "No rate disclaimer needed")
  }

  /** `_check_credit_approval`. */
  function CheckCreditApproval(prediction: string, input: Option<string>): CheckOutcome {
    if ContainsAny(InputLower(input), CreditTriggers) then
      if ContainsAny(Lower(prediction), CreditPhrases) then CheckOutcome(true, "Credit approval language present")
      else CheckOutcome(false, "Missing credit approval language")
    else CheckOutcome(true, "No credit approval language needed")
  }

  /** `_check_regulatory_citation`: the citations are looked for in the upper-cased prediction. */
  function CheckRegulatoryCitation(prediction: string, input: Option<string>): CheckOutcome {
    if ContainsAny(InputLower(input), RegulatoryTriggers) then
      if ContainsAny(Upper(prediction), Citations) then CheckOutcome(true, "Regulatory citation present")
      else CheckOutcome(false, "Missing regulatory citation")
    else CheckOutcome(true, "No regulatory citation needed")
  }

  /** The `compliance_checks` dictionary, in its insertion order. */
  function ComplianceChecks(prediction: string, input: Option<string>): seq<(string, CheckOutcome)> {
    [("rate_disclaimer", CheckRateDisclaimer(prediction, input)),
     ("credit_approval", CheckCreditApproval(prediction, input)),
     ("regulatory_citation", CheckRegulatoryCitation(prediction, input))]
  }

  /** The feedback of one check: its message when it fails, `✓ <name>` when it passes. */
  function CheckNote(check: (string, CheckOutcome)): string {
    if check.1.passed then "\U{2713} " + check.0 else check.1.message
  }

  function CheckNotes(checks: seq<(string, CheckOutcome)>): (r: seq<string>)
    ensures |r| == |checks|
    ensures forall k | 0 <= k < |checks| :: r[k] == CheckNote(checks[k])
  {
    seq(|checks|, k requires 0 <= k < |checks| => CheckNote(checks[k]))
  }

  /** The number of failed checks among `checks`. */
  function FailedCount(checks: seq<(string, CheckOutcome)>): nat
    decreases |checks|
  {
    if checks == [] then 0
    else FailedCount(checks[..|checks| - 1]) + (if checks[|checks| - 1].1.passed then 0 else 1)
  }

  datatype ComplianceResult = ComplianceResult(score: real, feedback: string, complianceChecks: map<string, bool>)

  /** `ComplianceEvaluator.evaluate`: 0.25 off per failed check. */
  method EvaluateCompliance(prediction: string, input: Option<string>) returns (result: ComplianceResult)
    ensures var checks := ComplianceChecks(prediction, input);
      && result.score == NonNegative(1.0 - 0.25 * FailedCount(checks) as real)
      && result.feedback == Join("; ", CheckNotes(checks))
      && result.complianceChecks == map[
        "rate_disclaimer" := checks[0].1.passed,
        "credit_approval" := checks[1].1.passed,
        "regulatory_citation" := checks[2].1.passed]
  {
    var checks := ComplianceChecks(prediction, input);
    var score, feedback := RunChecks(checks);
    result := ComplianceResult(NonNegative(score), Join("; ", feedback), map[
      "rate_disclaimer" := checks[0].1.passed,
      "credit_approval" := checks[1].1.passed,
      "regulatory_citation" := checks[2].1.passed]);
  }

  /** The loop over the checks: 0.25 off for each failed one, and each one's note. */
  method RunChecks(checks: seq<(string, CheckOutcome)>) returns (score: real, feedback: seq<string>)
    ensures score == 1.0 - 0.25 * FailedCount(checks) as real
    ensures feedback == CheckNotes(checks)
  {
    score := 1.0;
    feedback := [];
    for i := 0 to |checks|
      invariant score == 1.0 - 0.25 * FailedCount(checks[..i]) as real
      invariant feedback == CheckNotes(checks[..i])
    {
      assert checks[..i + 1][..i] == checks[..i];
      var (check, outcome) := checks[i];
      if !outcome.passed {
        score := score - 0.25;
        feedback := feedback + [outcome.message];
      } else {
        feedback := feedback + ["\U{2713} " + check];
      }
    }
    assert checks[..|checks|] == checks;
  }

  /** Each check fails exactly when its trigger is in the lowercased input and none of its phrases is in the prediction. */
  lemma ChecksFailWhen(prediction: string, input: Option<string>)
    ensures !CheckRateDisclaimer(prediction, input).passed
      <==> ContainsAny(InputLower(input), RateTriggers) && !ContainsAny(Lower(prediction), RatePhrases)
    ensures !CheckCreditApproval(prediction, input).passed
      <==> ContainsAny(InputLower(input), CreditTriggers) && !ContainsAny(Lower(prediction), CreditPhrases)
    ensures !CheckRegulatoryCitation(prediction, input).passed
      <==> ContainsAny(InputLower(input), RegulatoryTriggers) && !ContainsAny(Upper(prediction), Citations)
  {
  }

  lemma ContainsNothingInEmpty(subs: seq<string>)
    requires forall i | 0 <= i < |subs| :: subs[i] != ""
    ensures !ContainsAny("", subs)
  {
    forall i | 0 <= i < |subs| ensures !Contains("", subs[i]) {
      assert !OccursAt("", subs[i], 0);
    }
  }

  /** Without an input no check is triggered: all pass and the score is 1. */
  lemma NoInputPasses(prediction: string)
    ensures forall k | 0 <= k < 3 :: ComplianceChecks(prediction, None)[k].1.passed
    ensures FailedCount(ComplianceChecks(prediction, None)) == 0
  {
    assert InputLower(None) == "";
    ContainsNothingInEmpty(RateTriggers);
    ContainsNothingInEmpty(CreditTriggers);
    ContainsNothingInEmpty(RegulatoryTriggers);
    FailedCountBound(ComplianceChecks(prediction, None));
  }

  lemma {:induction false} FailedCountBound(checks: seq<(string, CheckOutcome)>)
    ensures FailedCount(checks) <= |checks|
    ensures FailedCount(checks) == 0 <==> forall k | 0 <= k < |checks| :: checks[k].1.passed
    decreases |checks|
  {
    if checks != [] {
      var init := checks[..|checks| - 1];
      FailedCountBound(init);
      assert forall k | 0 <= k < |init| :: init[k] == checks[k];
    }
  }

  /**
   * The compliance score is `1 - 0.25` per failed check, never below 0.25, and
   * 1 exactly when every check passes.
   */
  lemma ComplianceScoreSound(prediction: string, input: Option<string>)
    ensures var checks := ComplianceChecks(prediction, input);
      var s := NonNegative(1.0 - 0.25 * FailedCount(checks) as real);
      && 0.25 <= s <= 1.0
      && s == 1.0 - 0.25 * FailedCount(checks) as real
      && (s == 1.0 <==> forall k | 0 <= k < 3 :: checks[k].1.passed)
  {
    FailedCountBound(ComplianceChecks(prediction, input));
  }

  // ---------------------------------------------------------------------------
  // CrossReferenceEvaluator
  // ---------------------------------------------------------------------------

  /** The three request patterns, each with IGNORECASE. */
  const RequestPatterns: seq<Pattern> := [
    TableIdAfter("see Table ", true), TableIdAfter("refer to Table ", true), TableIdAfter("Table ", true)]

  /** `_find_cross_ref_requests`: the ids any of the patterns finds, without repetition. */
  function CrossRefRequests(text: string): set<string> {
    set k, x | 0 <= k < |RequestPatterns| && x in FindAll(RequestPatterns[k], text) :: x
  }

  const Indicators: seq<string> := ["rate", "amount", "term", "requirement", "%", "$"]

  /** `_is_reference_resolved`. */
  predicate IsReferenceResolved(ref: string, prediction: string) {
    Contains(prediction, ref) || ContainsAny(Lower(prediction), Indicators)
  }

  function Unresolved(requests: set<string>, prediction: string): set<string> {
    set r | r in requests && !IsReferenceResolved(r, prediction)
  }

  function Resolved(requests: set<string>, prediction: string): set<string> {
    set r | r in requests && IsReferenceResolved(r, prediction)
  }

  function UnresolvedNote(ref: string): string {
    "Unresolved reference: " + ref
  }

  /** The closing feedback item once the requests have been checked. */
  function ResolvedNote(resolved: nat, total: nat): string {
    if resolved == total then "All cross-references resolved"
    else "Resolved " + NatToString(resolved) + "/" + NatToString(total) + " references"
  }

  /** The distinct items of a list. */
  function Elements(xs: seq<string>): set<string> {
    set k | 0 <= k < |xs| :: xs[k]
  }

  lemma ElementsAppend(xs: seq<string>, x: string)
    ensures Elements(xs + [x]) == Elements(xs) + {x}
  {
    var ys := xs + [x];
    assert forall k | 0 <= k < |xs| :: ys[k] == xs[k];
    assert ys[|xs|] == x;
  }

  /** Checking one more request adds it to exactly one of the resolved and unresolved sets. */
  lemma RequestStep(done: set<string>, ref: string, prediction: string)
    ensures IsReferenceResolved(ref, prediction) ==>
      Resolved(done + {ref}, prediction) == Resolved(done, prediction) + {ref}
      && Unresolved(done + {ref}, prediction) == Unresolved(done, prediction)
    ensures !IsReferenceResolved(ref, prediction) ==>
      Resolved(done + {ref}, prediction) == Resolved(done, prediction)
      && Unresolved(done + {ref}, prediction) == Unresolved(done, prediction) + {ref}
  {
  }

  /** Moving a request still to be checked to the checked ones keeps the two apart, and it was in neither outcome set. */
  lemma MoveRequest(done: set<string>, remaining: set<string>, ref: string, prediction: string)
    requires done !! remaining && ref in remaining
    ensures (done + {ref}) + (remaining - {ref}) == done + remaining
    ensures (done + {ref}) !! (remaining - {ref})
    ensures ref !in Resolved(done, prediction) && ref !in Unresolved(done, prediction)
  {
  }

  lemma UnresolvedNotesAdd(unresolved: set<string>, ref: string)
    ensures (set r | r in unresolved + {ref} :: UnresolvedNote(r))
      == (set r | r in unresolved :: UnresolvedNote(r)) + {UnresolvedNote(ref)}
  {
  }

  datatype CrossReferenceResult = CrossReferenceResult(score: real, feedback: string)

  /**
   * The loop of `CrossReferenceEvaluator.evaluate` over a non-empty set of
   * requests. The set is visited in an unspecified order, so `notes` (the
   * feedback items before joining) holds one note per unresolved request in
   * some order, then the closing note.
   */
  method CheckRequests(requests: set<string>, prediction: string) returns (score: real, notes: seq<string>)
    ensures var unresolved := Unresolved(requests, prediction);
      && score == 1.0 - 0.5 * |unresolved| as real
      && |notes| == |unresolved| + 1
      && Elements(notes[..|unresolved|]) == (set r | r in unresolved :: UnresolvedNote(r))
      && notes[|unresolved|] == ResolvedNote(|Resolved(requests, prediction)|, |requests|)
  {
    score := 1.0;
    notes := [];
    var resolvedCount := 0;
    var remaining := requests;
    ghost var done: set<string> := {};
    ghost var unresolved: set<string> := {};
    ghost var resolved: set<string> := {};
    while remaining != {}
      invariant done + remaining == requests && done !! remaining
      invariant unresolved == Unresolved(done, prediction)
      invariant resolved == Resolved(done, prediction)
      invariant resolvedCount == |resolved|
      invariant |notes| == |unresolved|
      invariant Elements(notes) == (set r | r in unresolved :: UnresolvedNote(r))
      invariant score == 1.0 - 0.5 * |notes| as real
      decreases |remaining|
    {
      var ref :| ref in remaining;
      MoveRequest(done, remaining, ref, prediction);
      remaining := remaining - {ref};
      RequestStep(done, ref, prediction);
      if IsReferenceResolved(ref, prediction) {
        resolvedCount := resolvedCount + 1;
        resolved := resolved + {ref};
      } else {
        score := score - 0.5;
        ElementsAppend(notes, UnresolvedNote(ref));
        UnresolvedNotesAdd(unresolved, ref);
        notes := notes + [UnresolvedNote(ref)];
        unresolved := unresolved + {ref};
      }
      done := done + {ref};
    }
    assert done == requests;
    ghost var before := notes;
    notes := notes + [ResolvedNote(resolvedCount, |requests|)];
    assert notes[..|unresolved|] == before;
  }

  /** `CrossReferenceEvaluator.evaluate`; `notes` are the feedback items before joining. */
  method EvaluateCrossReference(prediction: string, input: Option<string>) returns (result: CrossReferenceResult, notes: seq<string>)
    ensures input.None? || CrossRefRequests(input.value) == {} ==>
      result == CrossReferenceResult(1.0, "No cross-reference issues") && notes == []
    ensures input.Some? && CrossRefRequests(input.value) != {} ==>
      var requests := CrossRefRequests(input.value);
      var unresolved := Unresolved(requests, prediction);
      && result.score == NonNegative(1.0 - 0.5 * |unresolved| as real)
      && |notes| == |unresolved| + 1
      && Elements(notes[..|unresolved|]) == (set r | r in unresolved :: UnresolvedNote(r))
      && notes[|unresolved|] == ResolvedNote(|Resolved(requests, prediction)|, |requests|)
      && result.feedback == Join("; ", notes)
  {
    var score := 1.0;
    notes := [];
    if input.Some? && input.value != "" {
      var requests := CrossRefRequests(input.value);
      if requests != {} {
        score, notes := CheckRequests(requests, prediction);
      }
    } else if input.Some? {
      NoRequestsInEmpty(input.value);
    }
    result := CrossReferenceResult(NonNegative(score), if notes != [] then Join("; ", notes) else "No cross-reference issues");
  }

  lemma NoRequestsInEmpty(text: string)
    requires text == ""
    ensures CrossRefRequests(text) == {}
  {
    forall k | 0 <= k < |RequestPatterns| ensures FindIter(RequestPatterns[k], text, 0) == [] {
    }
  }

  /** An identifier found after a case-insensitive prefix is a table identifier the text holds. */
  lemma PrefixedIdSound(prefix: string, text: string, i: nat)
    requires i < |FindAll(TableIdAfter(prefix, true), text)|
    ensures var x := FindAll(TableIdAfter(prefix, true), text)[i];
      IsTableId(x, true) && Contains(text, x)
  {
    var pat := TableIdAfter(prefix, true);
    var h := FindIter(pat, text, 0)[i];
    FindIterHit(pat, text, 0, i);
    MatchAtTableId(prefix, true, text, h.start);
    IdEndSound(text, h.start + |prefix|, true);
    ContainsAt(text, h.start + |prefix|, FindAll(pat, text)[i]);
  }

  /** Every request is a table identifier (its letter in any case) that the input holds. */
  lemma CrossRefRequestSound(text: string, x: string)
    requires x in CrossRefRequests(text)
    ensures IsTableId(x, true) && Contains(text, x)
  {
    var k :| 0 <= k < |RequestPatterns| && x in FindAll(RequestPatterns[k], text);
    var prefix := RequestPatterns[k].prefix;
    assert RequestPatterns[k] == TableIdAfter(prefix, true);
    var i :| 0 <= i < |FindAll(TableIdAfter(prefix, true), text)| && FindAll(TableIdAfter(prefix, true), text)[i] == x;
    PrefixedIdSound(prefix, text, i);
  }

  /** A prediction that mentions any indicator (a rate, an amount, a `%`...) resolves every request. */
  lemma IndicatorResolvesAll(prediction: string, requests: set<string>)
    requires ContainsAny(Lower(prediction), Indicators)
    ensures Unresolved(requests, prediction) == {}
  {
  }

  /** The cross-reference score lies in [0, 1] and is 1 exactly when every request is resolved. */
  lemma CrossReferenceScoreSound(requests: set<string>, prediction: string)
    ensures var s := NonNegative(1.0 - 0.5 * |Unresolved(requests, prediction)| as real);
      && 0.0 <= s <= 1.0
      && (s == 1.0 <==> Unresolved(requests, prediction) == {})
  {
  }

  // ---------------------------------------------------------------------------
  // Expected content
  // ---------------------------------------------------------------------------

  /** `content.lower() in prediction.lower()`. */
  predicate Mentions(prediction: string, content: string) {
    Contains(Lower(prediction), Lower(content))
  }

  /** The items the prediction mentions, as a filter condition. */
  function MentionedIn(prediction: string): string -> bool {
    (c: string) => Mentions(prediction, c)
  }

  /** The items the prediction does not mention, as a filter condition. */
  function MissingFrom(prediction: string): string -> bool {
    (c: string) => !Mentions(prediction, c)
  }

  datatype ContentCoverage = ContentCoverage(score: real, foundContent: seq<string>, missingContent: seq<string>, feedback: string)

  /** `LangSmithEvaluator._check_expected_content`. */
  method CheckExpectedContent(prediction: string, expectedContent: seq<string>) returns (result: ContentCoverage)
    ensures result.foundContent == Filter(expectedContent, MentionedIn(prediction))
    ensures result.missingContent == Filter(expectedContent, MissingFrom(prediction))
    ensures result.score == if expectedContent == [] then 1.0
      else |result.foundContent| as real / |expectedContent| as real
    ensures result.feedback == "Found " + NatToString(|result.foundContent|) + "/" + NatToString(|expectedContent|) + " expected items"
  {
    var found, missing := PartitionContent(prediction, expectedContent);
    var score := if expectedContent != [] then |found| as real / |expectedContent| as real else 1.0;
    result := ContentCoverage(score, found, missing,
      "Found " + NatToString(|found|) + "/" + NatToString(|expectedContent|) + " expected items");
  }

  /** The loop of `_check_expected_content`: the expected items the prediction mentions, and the rest. */
  method PartitionContent(prediction: string, expectedContent: seq<string>) returns (found: seq<string>, missing: seq<string>)
    ensures found == Filter(expectedContent, MentionedIn(prediction))
    ensures missing == Filter(expectedContent, MissingFrom(prediction))
  {
    found := [];
    missing := [];
    for i := 0 to |expectedContent|
      invariant found == Filter(expectedContent[..i], MentionedIn(prediction))
      invariant missing == Filter(expectedContent[..i], MissingFrom(prediction))
    {
      var content := expectedContent[i];
      assert expectedContent[..i + 1] == expectedContent[..i] + [content];
      FilterSnoc(expectedContent[..i], content, MentionedIn(prediction));
      FilterSnoc(expectedContent[..i], content, MissingFrom(prediction));
      if Contains(Lower(prediction), Lower(content)) {
        found := found + [content];
      } else {
        missing := missing + [content];
      }
    }
    assert expectedContent[..|expectedContent|] == expectedContent;
  }

  /** Found and missing split the expected items between them, each as often as it is expected. */
  lemma ExpectedContentPartition(prediction: string, expectedContent: seq<string>)
    ensures var found := Filter(expectedContent, MentionedIn(prediction));
      var missing := Filter(expectedContent, MissingFrom(prediction));
      && multiset(found) + multiset(missing) == multiset(expectedContent)
      && |found| + |missing| == |expectedContent|
  {
    var found := Filter(expectedContent, MentionedIn(prediction));
    var missing := Filter(expectedContent, MissingFrom(prediction));
    FilterPartition(expectedContent, MentionedIn(prediction), MissingFrom(prediction));
    assert |multiset(found) + multiset(missing)| == |found| + |missing|;
  }

  /** The coverage score lies in [0, 1] and is 1 exactly when nothing is missing. */
  lemma ExpectedContentScore(prediction: string, expectedContent: seq<string>)
    ensures var found := Filter(expectedContent, MentionedIn(prediction));
      var missing := Filter(expectedContent, MissingFrom(prediction));
      var score := if expectedContent == [] then 1.0 else |found| as real / |expectedContent| as real;
      0.0 <= score <= 1.0 && (score == 1.0 <==> missing == [])
  {
    ExpectedContentPartition(prediction, expectedContent);
    var found := Filter(expectedContent, MentionedIn(prediction));
    var missing := Filter(expectedContent, MissingFrom(prediction));
    CoverageRatio(|found|, |missing|);
  }

  lemma CoverageRatio(found: nat, missing: nat)
    ensures var n := found + missing;
      var score := if n == 0 then 1.0 else found as real / n as real;
      0.0 <= score <= 1.0 && (score == 1.0 <==> missing == 0)
  {
    var n := found + missing;
    if n > 0 {
      assert found as real / n as real * n as real == found as real;
    }
  }
}
