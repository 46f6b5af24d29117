/**
 * The editor screen's control logic (components/QuizEditor.tsx): the drag
 * dispatch, the selected-block lookup, the unsaved-changes test, save, the
 * validation gate in front of publishing and the confirmation that follows,
 * the title edit and the property-update wrapper. The quiz handed to
 * `onSave` and `onPublish` is the result of the corresponding method.
 */
module QuizEditorComponent {
  import opened Wrappers
  import opened QuizTypes
  import opened QuizEditorHook
  import opened QuizValidation
  import opened ConfirmationHook

  /** The `type` string of a block type, which is also its palette `draggableId`. */
  function TypeName(kind: BlockType): string {
    match kind
    case Heading => "heading"
    case Question => "question"
    case Button => "button"
    case Footer => "footer"
  }

  /** `draggableId as QuizBlock["type"]`: the block type a palette item names, if any. */
  function ParseBlockType(s: string): (r: Option<BlockType>)
    ensures r.Some? ==> TypeName(r.value) == s
  {
    if s == "heading" then Some(Heading)
    else if s == "question" then Some(Question)
    else if s == "button" then Some(Button)
    else if s == "footer" then Some(Footer)
    else None
  }

  /** Every block type's name parses back to it. */
  lemma ParseTypeName(kind: BlockType)
    ensures ParseBlockType(TypeName(kind)) == Some(kind)
  {
    match kind
    case Heading =>
    case Question =>
      assert TypeName(Question)[0] != "heading"[0];
    case Button =>
      assert TypeName(Button)[0] != "heading"[0] && TypeName(Button)[0] != "question"[0];
    case Footer =>
      assert TypeName(Footer)[0] != "heading"[0] && TypeName(Footer)[0] != "question"[0];
      assert TypeName(Footer)[0] != "button"[0];
  }

  /** A drop position: a list and an index in it. */
  datatype Location = Location(droppableId: string, index: nat)

  /** The drag library's `DropResult`, reduced to the fields the handler reads. */
  datatype DropResult = DropResult(draggableId: string, source: Location, destination: Option<Location>)

  /** What `handleDragEnd` does with a drop. */
  datatype DragAction = NoDrop | InsertDragged(kind: BlockType, index: nat) | MoveDragged(from: nat, to: nat)

  /**
   * Drops across lists only come from the palette, whose items are named by
   * block type.
   */
  predicate FromPalette(result: DropResult) {
    result.destination.Some? && result.source.droppableId != result.destination.value.droppableId ==>
      ParseBlockType(result.draggableId).Some?
  }

  /**
   * `handleDragEnd`'s dispatch: nothing without a destination; a palette
   * item dropped on the canvas is inserted at the drop index; a drop within
   * one list moves the block from the source index to the drop index.
   */
  function DragEndAction(result: DropResult): (a: DragAction)
    requires FromPalette(result)
    ensures a.NoDrop? <==> result.destination.None?
    ensures a.InsertDragged? <==>
      result.destination.Some? && result.source.droppableId != result.destination.value.droppableId
    ensures a.InsertDragged? ==>
      TypeName(a.kind) == result.draggableId && a.index == result.destination.value.index
    ensures a.MoveDragged? ==> a.from == result.source.index && a.to == result.destination.value.index
  {
    match result.destination
    case None => NoDrop
    case Some(destination) =>
      if result.source.droppableId != destination.droppableId then
        InsertDragged(ParseBlockType(result.draggableId).value, destination.index)
      else
        MoveDragged(result.source.index, destination.index)
  }

  /** The action's indices are in range for a list of `n` blocks (`splice` clamping is not modelled). */
  predicate Fits(a: DragAction, n: nat) {
    match a
    case NoDrop => true
    case InsertDragged(_, index) => index <= n
    case MoveDragged(from, to) => from < n && to < n
  }

  /** `blocks.find(block => block.id === id) || null`: the first block with the id. */
  function FindBlock(blocks: seq<Block>, id: Option<string>): (r: Option<Block>)
    ensures r.Some? <==> id.Some? && exists k :: 0 <= k < |blocks| && blocks[k].id == id.value
    ensures r.Some? ==> r.value.id == id.value
    ensures r.Some? ==> exists k :: 0 <= k < |blocks| && blocks[k] == r.value && (forall j :: 0 <= j < k ==> blocks[j].id != id.value)
  {
    if id.None? || blocks == [] then None
    else if blocks[0].id == id.value then Some(blocks[0])
    else
      var rest := FindBlock(blocks[1..], id);
      assert forall k :: 0 < k < |blocks| ==> blocks[k] == blocks[1..][k - 1];
      rest
  }

  /** After a selecting insert, the lookup finds exactly the new block. */
  lemma {:induction false} FindInserted(blocks: seq<Block>, i: nat, b: Block)
    requires i <= |blocks|
    requires forall k :: 0 <= k < |blocks| ==> blocks[k].id != b.id
    ensures FindBlock(InsertAt(blocks, i, b), Some(b.id)) == Some(b)
  {
    var inserted := InsertAt(blocks, i, b);
    var r := FindBlock(inserted, Some(b.id));
    var k :| 0 <= k < |inserted| && inserted[k] == r.value && (forall j :: 0 <= j < k ==> inserted[j].id != b.id);
    assert k == i;
  }

  /** `{ title, blocks, published }` as last saved. */
  datatype SavedState = SavedState(title: string, blocks: seq<Block>, published: bool)

  /** The validation banner: shown with the errors, or hidden. */
  datatype Banner = Banner(show: bool, errors: seq<string>)

  /**
   * The action a confirmation carries: publishing (or unpublishing) the quiz
   * as it was when the dialog opened, or deleting a block.
   */
  datatype EditorAction =
    | TogglePublished(base: Quiz, title: string, blocks: seq<Block>)
    | DeleteBlockAction(blockId: string)

  /** The quiz the publish confirmation hands to `onPublish`, stamped at confirm time. */
  function Toggled(base: Quiz, title: string, blocks: seq<Block>, now: int): (q: Quiz)
    ensures q.published == !base.published
    ensures q.id == base.id && q.createdAt == base.createdAt
    ensures q.title == title && q.blocks == blocks && q.updatedAt == now
  {
    base.(title := title, blocks := blocks, published := !base.published, updatedAt := now)
  }

  /** Publishing and then unpublishing with the same title and blocks changes only the time stamp. */
  lemma ToggleTwice(base: Quiz, title: string, blocks: seq<Block>, first: int, second: int)
    ensures Toggled(Toggled(base, title, blocks, first), title, blocks, second)
      == base.(title := title, blocks := blocks, updatedAt := second)
  {
  }

  /** The confirmation texts of `handlePublish`. */
  function PublishPrompt(published: bool, title: string): (r: (string, string))
    ensures r.0 == if published then "Unpublish Quiz" else "Publish Quiz"
  {
    var action := if published then "unpublish" else "publish";
    var actionText := if published then "Unpublish" else "Publish";
    (actionText + " Quiz", "Are you sure you want to " + action + " \"" + title + "\"?")
  }

  /** The confirmation message of `handleDeleteBlock`; a missing block prints as `undefined`. */
  function DeleteBlockMessage(block: Option<Block>): string {
    var typeText := if block.Some? then TypeName(block.value.kind) else "undefined";
    "Are you sure you want to delete this " + typeText + " block?"
  }

  /** The editor screen for one quiz. */
  class QuizEditor {
    var quiz: Quiz
    var pendingTitle: string
    var lastSaved: SavedState
    var banner: Banner
    const editor: Editor
    const confirmation: Confirmation<EditorAction>

    /** The initial state for `quiz`: its title pending, its contents saved, nothing selected. */
    constructor (quiz: Quiz)
      ensures this.quiz == quiz && pendingTitle == quiz.title
      ensures lastSaved == SavedState(quiz.title, quiz.blocks, quiz.published)
      ensures banner == Banner(false, [])
      ensures fresh(editor) && editor.state == EditorState(quiz.blocks, None)
      ensures fresh(confirmation) && !confirmation.isOpen && confirmation.onConfirm.None?
      ensures confirmation.title == "" && confirmation.message == "" && confirmation.kind.None?
    {
      this.quiz := quiz;
      pendingTitle := quiz.title;
      lastSaved := SavedState(quiz.title, quiz.blocks, quiz.published);
      banner := Banner(false, []);
      editor := new Editor(quiz.blocks);
      confirmation := new Confirmation();
    }

    /** The `hasChanges` effect: the blocks or the pending title differ from the last save. */
    predicate HasUnsavedChanges()
      reads this, editor
    {
      editor.state.blocks != lastSaved.blocks || pendingTitle != lastSaved.title
    }

    /** `selectedBlock`. */
    function SelectedBlock(): (r: Option<Block>)
      reads editor
      ensures r.Some? ==> r.value in editor.state.blocks && Some(r.value.id) == editor.state.selectedBlockId
    {
      FindBlock(editor.state.blocks, editor.state.selectedBlockId)
    }

    /**
     * The effect that follows a new `quiz` prop: load its blocks and title
     * and count them as saved.
     */
    method SyncWithQuiz(q: Quiz)
      modifies this, editor
      ensures quiz == q && pendingTitle == q.title
      ensures lastSaved == SavedState(q.title, q.blocks, q.published)
      ensures editor.state == old(editor.state).(blocks := q.blocks)
      ensures banner == old(banner)
      ensures !HasUnsavedChanges()
    {
      quiz := q;
      editor.SetBlocks(q.blocks);
      pendingTitle := q.title;
      lastSaved := SavedState(q.title, q.blocks, q.published);
    }

    /** `handleDragEnd`; `freshId` is the id an inserted block gets. */
    method HandleDragEnd(result: DropResult, freshId: string)
      requires FromPalette(result)
      requires Fits(DragEndAction(result), |editor.state.blocks|)
      requires forall k :: 0 <= k < |editor.state.blocks| ==> editor.state.blocks[k].id != freshId
      modifies editor
      ensures match DragEndAction(result)
        case NoDrop => editor.state == old(editor.state)
        case InsertDragged(kind, index) =>
          editor.state == EditorState(InsertAt(old(editor.state.blocks), index, NewBlock(kind, freshId)), Some(freshId))
          && SelectedBlock() == Some(NewBlock(kind, freshId))
        case MoveDragged(from, to) =>
          editor.state == old(editor.state).(blocks := Moved(old(editor.state.blocks), from, to))
          && multiset(editor.state.blocks) == multiset(old(editor.state.blocks))
    {
      if result.destination.None? {
        return;
      }
      if result.source.droppableId != result.destination.value.droppableId {
        var kind := ParseBlockType(result.draggableId).value;
        editor.InsertBlock(kind, result.destination.value.index, freshId);
        FindInserted(old(editor.state.blocks), result.destination.value.index, NewBlock(kind, freshId));
      } else {
        editor.MoveBlock(result.source.index, result.destination.value.index);
      }
    }

    /**
     * `handleSave`: the quiz with the pending title, the current blocks and
     * the time `now` goes to `onSave`, and becomes the last-saved state.
     */
    method HandleSave(now: int) returns (saved: Quiz)
      modifies this
      ensures saved == old(quiz).(title := old(pendingTitle), blocks := editor.state.blocks, updatedAt := now)
      ensures lastSaved == SavedState(old(pendingTitle), editor.state.blocks, old(quiz).published)
      ensures quiz == old(quiz) && pendingTitle == old(pendingTitle) && banner == old(banner)
      ensures !HasUnsavedChanges()
    {
      saved := quiz.(title := pendingTitle, blocks := editor.state.blocks, updatedAt := now);
      lastSaved := SavedState(pendingTitle, editor.state.blocks, quiz.published);
    }

    /**
     * `handlePublish`: validate the quiz with the pending title against the
     * current blocks. If that fails, show the errors and stop; otherwise ask
     * to toggle publication of the quiz as it is now.
     */
    method HandlePublish()
      modifies this, confirmation
      ensures var validation := ValidateQuiz(old(quiz).(title := old(pendingTitle)), editor.state.blocks);
        && (!validation.isValid ==>
              banner == Banner(true, validation.errors)
              && confirmation.isOpen == old(confirmation.isOpen)
              && confirmation.onConfirm == old(confirmation.onConfirm)
              && confirmation.title == old(confirmation.title)
              && confirmation.message == old(confirmation.message)
              && confirmation.kind == old(confirmation.kind))
        && (validation.isValid ==>
              banner == old(banner)
              && confirmation.isOpen
              && (confirmation.title, confirmation.message) == PublishPrompt(quiz.published, pendingTitle)
              && confirmation.onConfirm == Some(TogglePublished(quiz, pendingTitle, editor.state.blocks))
              && confirmation.kind.None?)
      ensures quiz == old(quiz) && pendingTitle == old(pendingTitle) && lastSaved == old(lastSaved)
    {
      var validation := ValidateQuiz(quiz.(title := pendingTitle), editor.state.blocks);
      if !validation.isValid {
        banner := Banner(true, validation.errors);
        return;
      }
      var prompt := PublishPrompt(quiz.published, pendingTitle);
      confirmation.Show(prompt.0, prompt.1, TogglePublished(quiz, pendingTitle, editor.state.blocks), None);
    }

    /** `handleDeleteBlock`: ask before deleting block `blockId`. */
    method HandleDeleteBlock(blockId: string)
      modifies confirmation
      ensures confirmation.isOpen && confirmation.title == "Delete Block"
      ensures confirmation.message == DeleteBlockMessage(FindBlock(editor.state.blocks, Some(blockId)))
      ensures confirmation.onConfirm == Some(DeleteBlockAction(blockId)) && confirmation.kind.None?
    {
      var blockToDelete := FindBlock(editor.state.blocks, Some(blockId));
      confirmation.Show("Delete Block", DeleteBlockMessage(blockToDelete), DeleteBlockAction(blockId), None);
    }

    /**
     * The dialog's confirm button: run the pending action. A publish toggle
     * returns the quiz for `onPublish` and records it as saved; a block
     * deletion goes to the block editor.
     */
    method HandleConfirm(now: int) returns (published: Option<Quiz>)
      modifies this, editor, confirmation
      ensures !confirmation.isOpen && confirmation.onConfirm.None?
      ensures match old(confirmation.onConfirm)
        case None =>
          published.None? && lastSaved == old(lastSaved) && editor.state == old(editor.state)
        case Some(TogglePublished(base, title, blocks)) =>
          published == Some(Toggled(base, title, blocks, now))
          && lastSaved == SavedState(title, blocks, !base.published)
          && editor.state == old(editor.state)
        case Some(DeleteBlockAction(blockId)) =>
          published.None? && lastSaved == old(lastSaved)
          && editor.state.blocks == RemoveMatching(old(editor.state.blocks), blockId)
          && editor.state.selectedBlockId ==
               if old(editor.state.selectedBlockId) == Some(blockId) then None else old(editor.state.selectedBlockId)
      ensures confirmation.title == old(confirmation.title) && confirmation.message == old(confirmation.message)
      ensures confirmation.kind == old(confirmation.kind)
      ensures quiz == old(quiz) && pendingTitle == old(pendingTitle) && banner == old(banner)
    {
      var action := confirmation.Confirm();
      published := None;
      match action
      case None =>
      case Some(TogglePublished(base, title, blocks)) =>
        var updated := Toggled(base, title, blocks, now);
        lastSaved := SavedState(title, blocks, updated.published);
        published := Some(updated);
      case Some(DeleteBlockAction(blockId)) =>
        editor.DeleteBlock(blockId);
    }

    /** `handleUpdateQuiz`: only a title in the update is taken, as the pending title. */
    method HandleUpdateQuiz(title: Option<string>)
      modifies this
      ensures pendingTitle == if title.Some? then title.value else old(pendingTitle)
      ensures quiz == old(quiz) && lastSaved == old(lastSaved) && banner == old(banner)
    {
      if title.Some? {
        pendingTitle := title.value;
      }
    }

    /** `handleCloseValidationError`. */
    method CloseBanner()
      modifies this
      ensures banner == Banner(false, [])
      ensures quiz == old(quiz) && pendingTitle == old(pendingTitle) && lastSaved == old(lastSaved)
    {
      banner := Banner(false, []);
    }

    /**
     * The panel's `onUpdateBlock`: apply the update to the selected block;
     * with no selection (or an empty id, which is falsy) nothing happens.
     */
    method UpdateSelectedBlock(u: BlockUpdate)
      modifies editor
      ensures var selected := old(editor.state.selectedBlockId);
        editor.state == if selected.Some? && selected.value != "" then
          old(editor.state).(blocks := UpdateMatching(old(editor.state.blocks), selected.value, u))
        else old(editor.state)
    {
      var selected := editor.state.selectedBlockId;
      if selected.Some? && selected.value != "" {
        editor.UpdateBlock(selected.value, u);
      }
    }
  }
}
