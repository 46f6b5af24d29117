/**
 * The option-list rules of the block properties panel
 * (components/PropertiesPanel.tsx): each handler computes the new
 * `properties` of the selected block from the old ones, and the panel hands
 * the result to `onUpdateBlock` as `{ properties }`.
 */
module PropertiesPanel {
  import opened Wrappers
  import opened QuizTypes
  import opened QuizEditorHook
  import opened QuizValidation

  /** `onUpdateBlock({ properties })`. */
  function PropertiesUpdate(p: Properties): BlockUpdate {
    BlockUpdate(None, None, None, Some(Some(p)))
  }

  /** `onUpdateBlock({ content })`. */
  function ContentUpdate(content: string): (u: BlockUpdate)
    ensures forall b :: Merge(b, u) == b.(content := content)
  {
    BlockUpdate(None, None, Some(content), None)
  }

  /**
   * The default-properties effect: a selected question block with no
   * properties gets single choice with one option; nothing else is updated.
   */
  function DefaultPropertiesUpdate(selected: Option<Block>): (u: Option<BlockUpdate>)
    ensures u.Some? <==> selected.Some? && selected.value.kind == Question && selected.value.properties.None?
    ensures u.Some? ==> Merge(selected.value, u.value) == selected.value.(properties := Some(DefaultQuestionProperties))
  {
    match selected
    case Some(b) =>
      if b.kind == Question && b.properties.None? then Some(PropertiesUpdate(DefaultQuestionProperties)) else None
    case None => None
  }

  /**
   * The effect settles: once its update is applied it does not fire again,
   * and the defaulted question passes the options rule of validation.
   */
  lemma DefaultPropertiesSettle(b: Block)
    requires DefaultPropertiesUpdate(Some(b)).Some?
    ensures var fixed := Merge(b, DefaultPropertiesUpdate(Some(b)).value);
      DefaultPropertiesUpdate(Some(fixed)).None? && !LacksOptions(fixed)
  {
    assert !IsBlank(DefaultQuestionProperties.options.value[0]) by {
      assert !IsWhitespace("Option 1"[0]);
    }
  }

  /** `getContentLabel`: the label of the content field for each block type. */
  function ContentLabel(kind: BlockType): (text: string)
    ensures text != ""
  {
    match kind
    case Heading => "Title"
    case Question => "Question"
    case Button => "Button Text"
    case Footer => "Footer Text"
  }

  /** Each block type has its own label. */
  lemma ContentLabelsDistinct(a: BlockType, b: BlockType)
    requires a != b
    ensures ContentLabel(a) != ContentLabel(b)
  {
    assert ContentLabel(Heading)[0] == 'T' && ContentLabel(Question)[0] == 'Q';
    assert ContentLabel(Button)[0] == 'B' && ContentLabel(Footer)[0] == 'F';
  }

  /** `selectedBlock?.properties?.options || []`. */
  function OptionsOf(props: Option<Properties>): seq<string> {
    if props.Some? && props.value.options.Some? then props.value.options.value else []
  }

  /** `selectedBlock?.properties?.questionType`, which every handler's spread keeps. */
  function QuestionTypeOf(props: Option<Properties>): Option<QuestionType> {
    if props.Some? then props.value.questionType else None
  }

  /** `options.filter((_, index) => index !== i)`. */
  function DropIndex(options: seq<string>, i: nat): (r: seq<string>)
    ensures i < |options| ==> r == options[..i] + options[i + 1..]
    ensures i >= |options| ==> r == options
    decreases |options|
  {
    if options == [] then []
    else if i == 0 then options[1..]
    else [options[0]] + DropIndex(options[1..], i - 1)
  }

  /**
   * The confirmed action of `handleRemoveOption(i)`: drop option `i`, and
   * put back one empty option if none is left. Without options there is
   * nothing to remove and no update.
   */
  function RemoveOption(props: Option<Properties>, i: nat): (r: Option<Properties>)
    ensures r.None? <==> props.None? || props.value.options.None?
    ensures r.Some? ==> r.value.questionType == props.value.questionType
    ensures r.Some? ==> r.value.options.Some? && r.value.options.value != []
    ensures r.Some? && i < |OptionsOf(props)| && |OptionsOf(props)| > 1 ==>
      r.value.options.value == OptionsOf(props)[..i] + OptionsOf(props)[i + 1..]
    ensures r.Some? && |OptionsOf(props)| <= 1 && i < |OptionsOf(props)| ==> r.value.options.value == [""]
  {
    if props.None? || props.value.options.None? then None
    else
      var kept := DropIndex(props.value.options.value, i);
      Some(props.value.(options := Some(if |kept| > 0 then kept else [""])))
  }

  /** The title and message of the removal prompt; a blank option is named by its position. */
  function RemoveOptionPrompt(props: Option<Properties>, i: nat): (r: Option<(string, string)>)
    ensures r.Some? <==> RemoveOption(props, i).Some?
    ensures r.Some? ==> r.value.0 == "Remove Option"
  {
    if props.None? || props.value.options.None? then None
    else
      var options := props.value.options.value;
      var optionText := if i < |options| && options[i] != "" then options[i] else "Option " + DecimalString(i + 1);
      Some(("Remove Option", "Are you sure you want to remove \"" + optionText + "\"?"))
  }

  /** The number a string of decimal digits denotes, most significant digit first. */
  function DigitsValue(s: string): nat
    requires forall k :: 0 <= k < |s| ==> '0' <= s[k] <= '9'
  {
    if s == [] then 0 else DigitsValue(s[..|s| - 1]) * 10 + (s[|s| - 1] as int - '0' as int)
  }

  /** The decimal digits of `n`, as a template literal prints a number: no leading zero. */
  function DecimalString(n: nat): (s: string)
    ensures s != []
    ensures forall k :: 0 <= k < |s| ==> '0' <= s[k] <= '9'
    ensures DigitsValue(s) == n
    ensures n > 0 ==> s[0] != '0'
  {
    var digit := ['0' + (n % 10) as char];
    if n < 10 then digit
    else
      var high := DecimalString(n / 10);
      assert (high + digit)[..|high|] == high;
      high + digit
  }

  /** `handleAddOption`: append one empty option; absent options count as none. */
  function AddOption(props: Option<Properties>): (r: Properties)
    ensures r.questionType == QuestionTypeOf(props)
    ensures r.options.Some? && |r.options.value| == |OptionsOf(props)| + 1
    ensures forall k :: 0 <= k < |OptionsOf(props)| ==> r.options.value[k] == OptionsOf(props)[k]
    ensures r.options.value[|OptionsOf(props)|] == ""
  {
    Properties(QuestionTypeOf(props), Some(OptionsOf(props) + [""]))
  }

  /** Removing the option just added gives back the options there were (an empty list excepted). */
  lemma AddThenRemove(props: Option<Properties>)
    requires OptionsOf(props) != []
    ensures RemoveOption(Some(AddOption(props)), |OptionsOf(props)|)
      == Some(Properties(QuestionTypeOf(props), Some(OptionsOf(props))))
  {
    var added := OptionsOf(props) + [""];
    assert added[..|OptionsOf(props)|] == OptionsOf(props);
    assert added[|OptionsOf(props)| + 1..] == [];
    assert AddOption(props).options.value == added;
    assert DropIndex(added, |OptionsOf(props)|) == OptionsOf(props);
  }

  /** `handleUpdateOption(i, value)`: replace option `i` only. */
  function UpdateOption(props: Option<Properties>, i: nat, value: string): (r: Properties)
    requires i < |OptionsOf(props)|
    ensures r.questionType == QuestionTypeOf(props)
    ensures r.options.Some? && |r.options.value| == |OptionsOf(props)| && r.options.value[i] == value
    ensures forall k :: 0 <= k < |OptionsOf(props)| && k != i ==> r.options.value[k] == OptionsOf(props)[k]
  {
    Properties(QuestionTypeOf(props), Some(OptionsOf(props)[i := value]))
  }

  /** Writing back the old text undoes an option edit. */
  lemma UpdateOptionUndone(props: Option<Properties>, i: nat, value: string)
    requires i < |OptionsOf(props)|
    ensures UpdateOption(Some(UpdateOption(props, i, value)), i, OptionsOf(props)[i])
      == Properties(QuestionTypeOf(props), Some(OptionsOf(props)))
  {
    assert OptionsOf(props)[i := value][i := OptionsOf(props)[i]] == OptionsOf(props);
  }

  /**
   * `handleChangeQuestionType(qt)`: text questions get no options; choice
   * questions keep the options they have (an empty list included, since an
   * empty array is truthy) and get one empty option only when there were none.
   */
  function ChangeQuestionType(props: Option<Properties>, qt: QuestionType): (r: Properties)
    ensures r.questionType == Some(qt) && r.options.Some?
    ensures qt == Text ==> r.options.value == []
    ensures qt != Text && props.Some? && props.value.options.Some? ==> r.options == props.value.options
    ensures qt != Text && (props.None? || props.value.options.None?) ==> r.options == Some([""])
  {
    var options :=
      if qt == Text then []
      else if props.Some? && props.value.options.Some? then props.value.options.value
      else [""];
    Properties(Some(qt), Some(options))
  }

  /** Choosing the same type twice is choosing it once. */
  lemma ChangeQuestionTypeIdempotent(props: Option<Properties>, qt: QuestionType)
    ensures ChangeQuestionType(Some(ChangeQuestionType(props, qt)), qt) == ChangeQuestionType(props, qt)
  {
  }

  /**
   * Switching a question to text and back to a choice type leaves it with no
   * options at all, which the publish rules then report.
   */
  lemma TextThenChoiceHasNoOptions(b: Block, qt: QuestionType)
    requires b.kind == Question && qt != Text
    ensures var viaText := Merge(b, PropertiesUpdate(ChangeQuestionType(b.properties, Text)));
      var back := Merge(viaText, PropertiesUpdate(ChangeQuestionType(viaText.properties, qt)));
      && back.properties == Some(Properties(Some(qt), Some([])))
      && LacksOptions(back)
  {
  }
}
