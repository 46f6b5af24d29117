/**
 * The publish rules (hooks/useQuizValidation.ts): a pure function from a
 * quiz and a block list to a list of at most four fixed messages, in a
 * fixed order, and `isValid`, which holds when that list is empty.
 */
module QuizValidation {
  import opened Wrappers
  import opened QuizTypes

  const TitleRequired: string := "Quiz title is required"
  const NeedsQuestion: string := "Quiz must contain at least one question"
  const QuestionsNeedContent: string := "All questions must have content"
  const ChoicesNeedOptions: string := "Questions with choices must have at least one option"

  /** The position of each message in the fixed reporting order. */
  function Rank(message: string): nat {
    if message == TitleRequired then 0
    else if message == NeedsQuestion then 1
    else if message == QuestionsNeedContent then 2
    else 3
  }

  /** The four messages are distinct. */
  predicate IsMessage(message: string) {
    message == TitleRequired || message == NeedsQuestion
    || message == QuestionsNeedContent || message == ChoicesNeedOptions
  }

  /** `blocks.some(b => b.type === "question")`. */
  predicate HasQuestion(blocks: seq<Block>) {
    exists k :: 0 <= k < |blocks| && blocks[k].kind == Question
  }

  /** A question block whose content is empty or whitespace only. */
  predicate IsEmptyQuestion(b: Block) {
    b.kind == Question && IsBlank(b.content)
  }

  /** Every option is empty or whitespace (vacuously so for no options). */
  predicate AllBlank(options: seq<string>) {
    forall i :: 0 <= i < |options| ==> IsBlank(options[i])
  }

  /**
   * A single- or multi-choice question whose options are absent, empty or
   * all blank. A question without properties, or with type text or no type,
   * never qualifies.
   */
  predicate LacksOptions(b: Block) {
    && b.kind == Question
    && b.properties.Some?
    && (b.properties.value.questionType == Some(Single) || b.properties.value.questionType == Some(Multi))
    && (b.properties.value.options.None? || AllBlank(b.properties.value.options.value))
  }

  predicate HasEmptyQuestion(blocks: seq<Block>) {
    exists k :: 0 <= k < |blocks| && IsEmptyQuestion(blocks[k])
  }

  predicate HasQuestionWithoutOptions(blocks: seq<Block>) {
    exists k :: 0 <= k < |blocks| && LacksOptions(blocks[k])
  }

  /** `{ isValid, errors }`. */
  datatype ValidationResult = ValidationResult(isValid: bool, errors: seq<string>)

  /** A message list in the fixed order: each later message ranks higher. */
  predicate InReportingOrder(errors: seq<string>) {
    forall i, j :: 0 <= i < j < |errors| ==> Rank(errors[i]) < Rank(errors[j])
  }

  /**
   * `validateQuiz(quiz, blocks)`. Only the title is read from `quiz`; rules
   * two to four look at `blocks`, never at `quiz.blocks`.
   */
  function ValidateQuiz(quiz: Quiz, blocks: seq<Block>): (r: ValidationResult)
    ensures r.isValid <==> r.errors == []
    ensures |r.errors| <= 4
  {
    var errors :=
      (if IsBlank(quiz.title) then [TitleRequired] else [])
      + (if !HasQuestion(blocks) then [NeedsQuestion] else [])
      + (if HasEmptyQuestion(blocks) then [QuestionsNeedContent] else [])
      + (if HasQuestionWithoutOptions(blocks) then [ChoicesNeedOptions] else []);
    ValidationResult(|errors| == 0, errors)
  }

  /** The four messages are distinct, so each has its own rank. */
  lemma RanksOfMessages()
    ensures Rank(TitleRequired) == 0 && Rank(NeedsQuestion) == 1
    ensures Rank(QuestionsNeedContent) == 2 && Rank(ChoicesNeedOptions) == 3
  {
    assert TitleRequired[5] == 't' && NeedsQuestion[5] == 'm';
    assert |TitleRequired| == 22 && |NeedsQuestion| == 39;
    assert |QuestionsNeedContent| == 31 && |ChoicesNeedOptions| == 52;
  }

  /** `validateQuiz` reports only the four messages, in rule order. */
  lemma ValidateQuizOrdered(quiz: Quiz, blocks: seq<Block>)
    ensures var r := ValidateQuiz(quiz, blocks);
      && (forall i :: 0 <= i < |r.errors| ==> IsMessage(r.errors[i]))
      && InReportingOrder(r.errors)
  {
    RanksOfMessages();
  }

  /** `validateQuiz` reports each message exactly when its rule is broken. */
  lemma ValidateQuizReports(quiz: Quiz, blocks: seq<Block>)
    ensures var r := ValidateQuiz(quiz, blocks);
      && (TitleRequired in r.errors <==> IsBlank(quiz.title))
      && (NeedsQuestion in r.errors <==> !HasQuestion(blocks))
      && (QuestionsNeedContent in r.errors <==> HasEmptyQuestion(blocks))
      && (ChoicesNeedOptions in r.errors <==> HasQuestionWithoutOptions(blocks))
  {
    RanksOfMessages();
  }

  /** At most four errors, each reported once. */
  lemma ErrorsBounded(quiz: Quiz, blocks: seq<Block>)
    ensures var errors := ValidateQuiz(quiz, blocks).errors;
      |errors| <= 4 && forall i, j :: 0 <= i < j < |errors| ==> errors[i] != errors[j]
  {
  }

  /** Without any question block only the missing-question rule (and maybe the title rule) fires. */
  lemma NoQuestionRulesOut(quiz: Quiz, blocks: seq<Block>)
    requires !HasQuestion(blocks)
    ensures var errors := ValidateQuiz(quiz, blocks).errors;
      NeedsQuestion in errors && QuestionsNeedContent !in errors && ChoicesNeedOptions !in errors
  {
  }

  /** An empty title and no question: exactly the title and missing-question messages. */
  lemma BlankTitleNoQuestion(quiz: Quiz, blocks: seq<Block>)
    requires IsBlank(quiz.title) && !HasQuestion(blocks)
    ensures ValidateQuiz(quiz, blocks).errors == [TitleRequired, NeedsQuestion]
  {
  }

  /** Questions of type text, or without a type, never trigger the options rule. */
  lemma NonChoiceQuestionsNeedNoOptions(blocks: seq<Block>)
    requires forall k :: 0 <= k < |blocks| && blocks[k].properties.Some? ==>
      blocks[k].properties.value.questionType in {None, Some(Text)}
    ensures ChoicesNeedOptions !in ValidateQuiz(Quiz("", "", [], false, 0, 0), blocks).errors
  {
  }

  /** Only the title of `quiz` matters. */
  lemma OnlyTitleOfQuizMatters(q1: Quiz, q2: Quiz, blocks: seq<Block>)
    requires q1.title == q2.title
    ensures ValidateQuiz(q1, blocks) == ValidateQuiz(q2, blocks)
  {
  }

  /** One non-blank option is enough: "Quiz" with question "Q1", single, ["A", ""] is valid. */
  lemma OneNonBlankOptionSuffices()
    ensures ValidateQuiz(
      Quiz("q", "Quiz", [], false, 0, 0),
      [Block("b", Question, "Q1", Some(Properties(Some(Single), Some(["A", ""]))))]).isValid
  {
    var b := Block("b", Question, "Q1", Some(Properties(Some(Single), Some(["A", ""]))));
    assert !IsBlank("Quiz") by { assert !IsWhitespace("Quiz"[0]); }
    assert !IsBlank("Q1") by { assert !IsWhitespace("Q1"[0]); }
    assert !AllBlank(["A", ""]) by {
      assert !IsWhitespace("A"[0]);
      assert !IsBlank(["A", ""][0]);
    }
    assert HasQuestion([b]) by { assert [b][0].kind == Question; }
    assert !LacksOptions(b);
  }
}
