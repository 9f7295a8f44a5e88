/**
 * The three text helpers of `BankingRAGSystem`: the question enhancer run before
 * retrieval, the answer post-processor that appends the banking disclaimers, and
 * the lookup that resolves a table reference to a loaded chunk.
 */
module Rag {
  import opened Wrappers
  import opened Text
  import opened Documents

  // ---------------------------------------------------------------------------
  // _enhance_question
  // ---------------------------------------------------------------------------

  /** The `banking_terms` dictionary, in its insertion order: term, then the context it adds. */
  const BankingTerms: seq<(string, string)> := [
    ("rate", "current interest rate"),
    ("apr", "Annual Percentage Rate"),
    ("mortgage", "home loan mortgage"),
    ("loan", "lending product"),
    ("compliance", "regulatory compliance requirement"),
    ("fdic", "FDIC regulatory requirement")]

  /**
   * The guard of the loop for term `k` on the lower-cased question: the term
   * occurs and its context does not. As written the context is compared
   * verbatim (`foldContext` false); the corrected guard lower-cases it first.
   */
  predicate Applies(lowered: string, k: nat, foldContext: bool)
    requires k < |BankingTerms|
  {
    var context := if foldContext then Lower(BankingTerms[k].1) else BankingTerms[k].1;
    Contains(lowered, BankingTerms[k].0) && !Contains(lowered, context)
  }

  /** The first term from index `k` on whose guard holds, if any. */
  function FirstApplicable(lowered: string, k: nat, foldContext: bool): (r: Option<nat>)
    requires k <= |BankingTerms|
    ensures r.Some? ==>
      && k <= r.value < |BankingTerms| && Applies(lowered, r.value, foldContext)
      && forall j | k <= j < r.value :: !Applies(lowered, j, foldContext)
    ensures r.None? ==> forall j | k <= j < |BankingTerms| :: !Applies(lowered, j, foldContext)
    decreases |BankingTerms| - k
  {
    if k == |BankingTerms| then None
    else if Applies(lowered, k, foldContext) then Some(k)
    else FirstApplicable(lowered, k + 1, foldContext)
  }

  /** `f"{question} (related to {context})"`. */
  function WithContext(question: string, k: nat): string
    requires k < |BankingTerms|
  {
    question + " (related to " + BankingTerms[k].1 + ")"
  }

  /** What `_enhance_question` returns, with its guard as written or corrected. */
  function EnhancedQuestion(question: string, foldContext: bool): string {
    match FirstApplicable(Lower(question), 0, foldContext)
    case None => question
    case Some(k) => WithContext(question, k)
  }

  /** `BankingRAGSystem._enhance_question`, as written. */
  method EnhanceQuestion(question: string) returns (enhancedQuestion: string)
    ensures enhancedQuestion == EnhancedQuestion(question, false)
  {
    var enhanced := Lower(question);
    var k := 0;
    while k < |BankingTerms|
      invariant 0 <= k <= |BankingTerms|
      invariant FirstApplicable(enhanced, 0, false) == FirstApplicable(enhanced, k, false)
    {
      var (term, context) := BankingTerms[k];
      if Contains(enhanced, term) && !Contains(enhanced, context) {
        return question + " (related to " + context + ")";
      }
      k := k + 1;
    }
    return question;
  }

  /**
   * The question is left alone exactly when no term's guard holds; otherwise
   * the context of the first term whose guard holds is appended, once.
   */
  lemma EnhancedQuestionSound(question: string, foldContext: bool)
    ensures EnhancedQuestion(question, foldContext) == question
      <==> forall k | 0 <= k < |BankingTerms| :: !Applies(Lower(question), k, foldContext)
    ensures forall k | 0 <= k < |BankingTerms| && Applies(Lower(question), k, foldContext)
        && (forall j | 0 <= j < k :: !Applies(Lower(question), j, foldContext)) ::
      EnhancedQuestion(question, foldContext) == WithContext(question, k)
    ensures StartsWith(EnhancedQuestion(question, foldContext), question)
  {
    match FirstApplicable(Lower(question), 0, foldContext)
    case None =>
    case Some(k) =>
      assert |WithContext(question, k)| > |question|;
      assert WithContext(question, k)[..|question|] == question;
  }

  /**
   * As written, the guard never looks at the contexts that hold capital
   * letters (`Annual Percentage Rate`, `FDIC regulatory requirement`): the
   * question is lower-cased, so for those terms only the term itself matters.
   */
  lemma CapitalisedContextIgnored(question: string, k: nat)
    requires k == 1 || k == 5
    ensures Applies(Lower(question), k, false) <==> Contains(Lower(question), BankingTerms[k].0)
  {
    LowerHasNoCapital(question, BankingTerms[k].1, 0);
  }

  /**
   * As written, a question that already carries the FDIC context, such as
   * `fdic regulatory requirement`, gets that same context appended again.
   */
  lemma RepeatedContextAsWritten(question: string)
    requires question == "fdic regulatory requirement"
    ensures Contains(Lower(question), Lower(BankingTerms[5].1))
    ensures EnhancedQuestion(question, false) == WithContext(question, 5)
  {
    FdicQuestion(question);
    LowerHasNoCapital(question, BankingTerms[5].1, 0);
    assert Applies(Lower(question), 5, false);
    assert forall j | 0 <= j < 5 :: !Applies(Lower(question), j, false);
    EnhancedQuestionSound(question, false);
  }

  /** The facts about `fdic regulatory requirement` that the lemmas on it rely on. */
  lemma FdicQuestion(question: string)
    requires question == "fdic regulatory requirement"
    ensures Lower(question) == question && Lower(BankingTerms[5].1) == question
    ensures forall j | 0 <= j < 5 :: !Contains(question, BankingTerms[j].0)
    ensures Contains(question, "fdic") && Contains(question, question)
  {
    FdicQuestionLower(question);
    FdicQuestionLacksTerms(question);
    ContainsAt(question, 0, "fdic");
    ContainsAt(question, 0, question);
  }

  lemma FdicQuestionLower(question: string)
    requires question == "fdic regulatory requirement"
    ensures Lower(question) == question && Lower(BankingTerms[5].1) == question
  {
    LowerFixed(question);
    FdicContextLower(BankingTerms[5].1, question);
  }

  lemma FdicContextLower(context: string, question: string)
    requires context == "FDIC regulatory requirement" && question == "fdic regulatory requirement"
    ensures Lower(context) == question
  {
    var rest := " regulatory requirement";
    FdicContextPieces(context, rest);
    FdicQuestionPieces(question, rest);
    LowerAppend("FDIC", rest);
    LowerFixed(rest);
    LowerFdic("FDIC");
  }

  lemma FdicContextPieces(context: string, rest: string)
    requires context == "FDIC regulatory requirement" && rest == " regulatory requirement"
    ensures context == "FDIC" + rest
  {
    assert context == "FDIC" + rest;
  }

  lemma FdicQuestionPieces(question: string, rest: string)
    requires question == "fdic regulatory requirement" && rest == " regulatory requirement"
    ensures question == "fdic" + rest
  {
    assert question == "fdic" + rest;
  }

  lemma LowerFdic(s: string)
    requires s == "FDIC"
    ensures Lower(s) == "fdic"
  {
    assert Lower(s) == "fdic";
  }

  lemma FdicQuestionLacksTerms(question: string)
    requires question == "fdic regulatory requirement"
    ensures forall j | 0 <= j < 5 :: !Contains(question, BankingTerms[j].0)
  {
    forall j | 0 <= j < 5 ensures !Contains(question, BankingTerms[j].0) {
      FdicQuestionLacks(question, BankingTerms[j].0);
    }
  }

  lemma FdicQuestionLacks(question: string, term: string)
    requires question == "fdic regulatory requirement"
    requires term in ["rate", "apr", "mortgage", "loan", "compliance"]
    ensures !Contains(question, term)
  {
    PairAbsent(question, term, 0);
  }

  /**
   * With the corrected guard, the appended context is never one the question
   * already holds, in any case.
   */
  lemma CorrectedNeverRepeatsContext(question: string)
    ensures forall k | 0 <= k < |BankingTerms| && EnhancedQuestion(question, true) == WithContext(question, k) ::
      !Contains(Lower(question), Lower(BankingTerms[k].1))
  {
    forall k | 0 <= k < |BankingTerms| && EnhancedQuestion(question, true) == WithContext(question, k)
      ensures !Contains(Lower(question), Lower(BankingTerms[k].1))
    {
      assert |WithContext(question, k)| > |question|;
      var m := FirstApplicable(Lower(question), 0, true).value;
      WithContextInjective(question, k, m);
    }
  }

  /** With the corrected guard, the question that already carries the FDIC context is left alone. */
  lemma CorrectedLeavesFdicQuestion(question: string)
    requires question == "fdic regulatory requirement"
    ensures EnhancedQuestion(question, true) == question
  {
    FdicQuestion(question);
    assert forall j | 0 <= j < |BankingTerms| :: !Applies(Lower(question), j, true);
    EnhancedQuestionSound(question, true);
  }

  /** Distinct terms append distinct contexts. */
  lemma WithContextInjective(question: string, k: nat, m: nat)
    requires k < |BankingTerms| && m < |BankingTerms|
    requires WithContext(question, k) == WithContext(question, m)
    ensures k == m
  {
    var a := WithContext(question, k);
    var n := |question| + |" (related to "|;
    assert a[n..|a| - 1] == BankingTerms[k].1;
    assert WithContext(question, m)[n..|a| - 1] == BankingTerms[m].1;
  }

  // ---------------------------------------------------------------------------
  // _post_process_answer
  // ---------------------------------------------------------------------------

  const RateQuestionTerms: seq<string> := ["rate", "apr", "cost", "fee"]
  const RegulatoryQuestionTerms: seq<string> := ["compliance", "regulation", "requirement"]

  /** The rate disclaimer, written in pieces that the proofs below take apart. */
  const RateDisclaimer: string :=
    "\n\n\U{26A0}\U{FE0F} Note: All rates and fees are" + " subject to" + " change and" + " credit approval."
  const ComplianceNote: string :=
    "\n\n\U{1F4CB} For specific compliance guidance, " + "consult" + " with the compliance department."

  predicate AsksAboutRates(question: string) {
    ContainsAny(Lower(question), RateQuestionTerms)
  }

  predicate AsksAboutRegulation(question: string) {
    ContainsAny(Lower(question), RegulatoryQuestionTerms)
  }

  /** The rate disclaimer is due: a rate question whose answer does not say `subject to change`. */
  predicate NeedsDisclaimer(answer: string, question: string) {
    AsksAboutRates(question) && !Contains(Lower(answer), "subject to change")
  }

  /** The compliance note is due: a regulatory question whose answer does not say `consult`. */
  predicate NeedsComplianceNote(answer: string, question: string) {
    AsksAboutRegulation(question) && !Contains(Lower(answer), "consult")
  }

  /**
   * `BankingRAGSystem._post_process_answer`: the second test looks at the
   * answer after the first note may have been appended.
   */
  function PostProcessAnswer(answer: string, question: string): string {
    var withDisclaimer := if NeedsDisclaimer(answer, question) then answer + RateDisclaimer else answer;
    if NeedsComplianceNote(withDisclaimer, question) then withDisclaimer + ComplianceNote else withDisclaimer
  }

  lemma DisclaimerSaysSubjectToChange(s: string)
    requires s == RateDisclaimer
    ensures Contains(Lower(s), "subject to change")
  {
    ContainsAtChars(Lower(s), 34, "subject to change");
  }

  /** An occurrence of `consult` cannot straddle a space, so the whole disclaimer lacks it too. */
  lemma DisclaimerNeverSaysConsult(p1: string, p2: string, p3: string, p4: string)
    requires p1 == "\n\n\U{26A0}\U{FE0F} Note: All rates and fees are" && p2 == " subject to"
    requires p3 == " change and" && p4 == " credit approval."
    ensures !Contains(Lower(RateDisclaimer), "consult")
  {
    DisclaimerPiecesLackConsult(p1, p2, p3, p4);
    NoConsultAcrossSpaces(Lower(p1), Lower(p2), Lower(p3), Lower(p4));
    LowerOfFour(p1, p2, p3, p4);
    assert RateDisclaimer == p1 + (p2 + (p3 + p4));
  }

  lemma LowerOfFour(p1: string, p2: string, p3: string, p4: string)
    ensures Lower(p1 + (p2 + (p3 + p4))) == Lower(p1) + (Lower(p2) + (Lower(p3) + Lower(p4)))
  {
    LowerAppend(p3, p4);
    LowerAppend(p2, p3 + p4);
    LowerAppend(p1, p2 + (p3 + p4));
  }

  lemma DisclaimerPiecesLackConsult(p1: string, p2: string, p3: string, p4: string)
    requires p1 == "\n\n\U{26A0}\U{FE0F} Note: All rates and fees are" && p2 == " subject to"
    requires p3 == " change and" && p4 == " credit approval."
    ensures !Contains(Lower(p1), "consult") && !Contains(Lower(p2), "consult")
    ensures !Contains(Lower(p3), "consult") && !Contains(Lower(p4), "consult")
  {
    LowerLacksLetter(p1, "consult", 0);
    LowerLacksLetter(p2, "consult", 2);
    LowerLacksLetter(p3, "consult", 1);
    LowerLacksLetter(p4, "consult", 2);
  }

  lemma NoConsultAcrossSpaces(a: string, b: string, c: string, d: string)
    requires !Contains(a, "consult") && !Contains(b, "consult") && !Contains(c, "consult") && !Contains(d, "consult")
    requires |b| > 0 && |c| > 0 && |d| > 0 && b[0] == ' ' && c[0] == ' ' && d[0] == ' '
    ensures !Contains(a + (b + (c + d)), "consult")
  {
    ContainsAcross(c, d, "consult");
    ContainsAcross(b, c + d, "consult");
    ContainsAcross(a, b + (c + d), "consult");
  }

  lemma NoteSaysConsult(s: string)
    requires s == ComplianceNote
    ensures Contains(Lower(s), "consult")
  {
    var a := "\n\n\U{1F4CB} For specific compliance guidance, ";
    var c := " with the compliance department.";
    LowerAppend(a, "consult");
    LowerAppend(a + "consult", c);
    LowerFixed("consult");
    ContainsMiddle(Lower(a), "consult", Lower(c));
  }

  /** Appending the disclaimer does not change whether the answer says `consult`. */
  lemma DisclaimerKeepsConsult(answer: string)
    ensures Contains(Lower(answer + RateDisclaimer), "consult") <==> Contains(Lower(answer), "consult")
  {
    LowerAppend(answer, RateDisclaimer);
    DisclaimerNeverSaysConsult("\n\n\U{26A0}\U{FE0F} Note: All rates and fees are", " subject to", " change and", " credit approval.");
    ContainsAcross(Lower(answer), Lower(RateDisclaimer), "consult");
  }

  /**
   * The answer is kept as a prefix and at most the two notes follow, in that
   * order; each is appended exactly when the question asks for it and the
   * ORIGINAL answer lacks its key phrase.
   */
  lemma PostProcessShape(answer: string, question: string)
    ensures PostProcessAnswer(answer, question)
      == answer + (if NeedsDisclaimer(answer, question) then RateDisclaimer else "")
        + (if NeedsComplianceNote(answer, question) then ComplianceNote else "")
  {
    var d := if NeedsDisclaimer(answer, question) then RateDisclaimer else "";
    var n := if NeedsComplianceNote(answer, question) then ComplianceNote else "";
    var withDisclaimer := answer + d;
    assert withDisclaimer == if NeedsDisclaimer(answer, question) then answer + RateDisclaimer else answer;
    NoteNeedUnchanged(answer, question, withDisclaimer);
    assert withDisclaimer + n == answer + d + n;
  }

  /** Whether the compliance note is due does not change when the rate disclaimer was appended first. */
  lemma NoteNeedUnchanged(answer: string, question: string, withDisclaimer: string)
    requires withDisclaimer == if NeedsDisclaimer(answer, question) then answer + RateDisclaimer else answer
    ensures NeedsComplianceNote(withDisclaimer, question) == NeedsComplianceNote(answer, question)
  {
    if NeedsDisclaimer(answer, question) {
      DisclaimerKeepsConsult(answer);
    }
  }

  /**
   * After post-processing, a rate question's answer always says `subject to
   * change` and a regulatory question's answer always says `consult`.
   */
  lemma PostProcessMentions(answer: string, question: string)
    ensures AsksAboutRates(question) ==> Contains(Lower(PostProcessAnswer(answer, question)), "subject to change")
    ensures AsksAboutRegulation(question) ==> Contains(Lower(PostProcessAnswer(answer, question)), "consult")
  {
    var withDisclaimer := if NeedsDisclaimer(answer, question) then answer + RateDisclaimer else answer;
    var r := PostProcessAnswer(answer, question);
    SubjectToChangeKept(answer, question, withDisclaimer);
    if NeedsComplianceNote(withDisclaimer, question) {
      assert r == withDisclaimer + ComplianceNote;
      LowerAppend(withDisclaimer, ComplianceNote);
      NoteSaysConsult(ComplianceNote);
      ContainsAppendRight(Lower(withDisclaimer), Lower(ComplianceNote), "consult");
      if Contains(Lower(withDisclaimer), "subject to change") {
        ContainsAppendLeft(Lower(withDisclaimer), Lower(ComplianceNote), "subject to change");
      }
    }
  }

  lemma SubjectToChangeKept(answer: string, question: string, withDisclaimer: string)
    requires withDisclaimer == if NeedsDisclaimer(answer, question) then answer + RateDisclaimer else answer
    ensures AsksAboutRates(question) ==> Contains(Lower(withDisclaimer), "subject to change")
  {
    if NeedsDisclaimer(answer, question) {
      LowerAppend(answer, RateDisclaimer);
      DisclaimerSaysSubjectToChange(RateDisclaimer);
      ContainsAppendRight(Lower(answer), Lower(RateDisclaimer), "subject to change");
    }
  }

  /** Post-processing an answer a second time changes nothing. */
  lemma PostProcessIdempotent(answer: string, question: string)
    ensures PostProcessAnswer(PostProcessAnswer(answer, question), question) == PostProcessAnswer(answer, question)
  {
    PostProcessMentions(answer, question);
  }

  // ---------------------------------------------------------------------------
  // resolve_cross_reference
  // ---------------------------------------------------------------------------

  /** The chunk's `table_id` is truthy and holds the reference as a substring. */
  predicate ResolvesTo(d: Document, tableReference: string) {
    HasTableId(d) && Contains(d.metadata.tableId.value, tableReference)
  }

  /** `BankingRAGSystem.resolve_cross_reference` over the loaded chunks, in order. */
  method ResolveCrossReference(documents: seq<Document>, tableReference: string) returns (found: Option<Document>)
    ensures found.None? <==> forall i | 0 <= i < |documents| :: !ResolvesTo(documents[i], tableReference)
    ensures found.Some? ==> exists i | 0 <= i < |documents| ::
      documents[i] == found.value && ResolvesTo(documents[i], tableReference)
      && forall j | 0 <= j < i :: !ResolvesTo(documents[j], tableReference)
  {
    for i := 0 to |documents|
      invariant forall j | 0 <= j < i :: !ResolvesTo(documents[j], tableReference)
    {
      var tableId := documents[i].metadata.tableId;
      if tableId.Some? && tableId.value != "" && Contains(tableId.value, tableReference) {
        return Some(documents[i]);
      }
    }
    return None;
  }

  /** An empty reference is held by every `table_id`, so it resolves to the first chunk that has one. */
  lemma EmptyReferenceResolvesAnyTable(d: Document)
    ensures ResolvesTo(d, "") <==> HasTableId(d)
  {
    if HasTableId(d) {
      ContainsAt(d.metadata.tableId.value, 0, "");
    }
  }
}
