/**
 * The data model of the quiz builder (types/quiz.ts): blocks, quizzes and
 * the editor state record, plus the whitespace test behind JavaScript's
 * `String.prototype.trim`, which several rules use.
 */
module QuizTypes {
  import opened Wrappers

  /** `BlockType`. */
  datatype BlockType = Heading | Question | Button | Footer

  /** The `questionType` of a question block. */
  datatype QuestionType = Single | Multi | Text

  /** The optional `properties` record of a block; both fields may be absent. */
  datatype Properties = Properties(questionType: Option<QuestionType>, options: Option<seq<string>>)

  /** `QuizBlock`; the source's field `type` is called `kind` here. */
  datatype Block = Block(id: string, kind: BlockType, content: string, properties: Option<Properties>)

  /** `Quiz`; the two timestamps are instants as integers. */
  datatype Quiz = Quiz(
    id: string,
    title: string,
    blocks: seq<Block>,
    published: bool,
    createdAt: int,
    updatedAt: int)

  /** `EditorState`: the block list and the selected block id (null is None). */
  datatype EditorState = EditorState(blocks: seq<Block>, selectedBlockId: Option<string>)

  /** The properties a fresh question block gets: single choice with one option. */
  const DefaultQuestionProperties: Properties := Properties(Some(Single), Some(["Option 1"]))

  /**
   * The characters `trim()` removes: ECMAScript WhiteSpace and LineTerminator
   * (tab, vertical tab, form feed, space, no-break space, the byte order
   * mark, the Unicode space separators, line feed, carriage return and the
   * line and paragraph separators).
   */
  predicate IsWhitespace(c: char) {
    || c == '\t' || c == '\n' || c == '\U{000B}' || c == '\U{000C}' || c == '\r' || c == ' '
    || c == '\U{00A0}' || c == '\U{1680}' || ('\U{2000}' <= c <= '\U{200A}')
    || c == '\U{2028}' || c == '\U{2029}' || c == '\U{202F}' || c == '\U{205F}'
    || c == '\U{3000}' || c == '\U{FEFF}'
  }

  /** `!s || s.trim() === ""`: the string is empty or only whitespace. */
  predicate IsBlank(s: string) {
    forall i :: 0 <= i < |s| ==> IsWhitespace(s[i])
  }
}
