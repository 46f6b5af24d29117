/**
 * The confirmation dialog hook (hooks/useConfirmation.ts): an open flag, a
 * title and message, the pending action and an optional kind. The action
 * is a value of type `A`; confirming hands it back to the caller to run.
 */
module ConfirmationHook {
  import opened Wrappers

  class Confirmation<A> {
    var isOpen: bool
    var title: string
    var message: string
    var onConfirm: Option<A>
    var kind: Option<string>

    /** The initial state: closed, empty texts, no action. */
    constructor ()
      ensures !isOpen && title == "" && message == "" && onConfirm.None? && kind.None?
    {
      isOpen := false;
      title := "";
      message := "";
      onConfirm := None;
      kind := None;
    }

    /** `showConfirmation`: open with new texts and action, replacing any pending one. */
    method Show(title: string, message: string, action: A, kind: Option<string>)
      modifies this
      ensures isOpen && this.title == title && this.message == message
      ensures onConfirm == Some(action) && this.kind == kind
    {
      isOpen := true;
      this.title := title;
      this.message := message;
      onConfirm := Some(action);
      this.kind := kind;
    }

    /** `hideConfirmation`: close and drop the action; the texts and kind stay. */
    method Hide()
      modifies this
      ensures !isOpen && onConfirm.None?
      ensures title == old(title) && message == old(message) && kind == old(kind)
    {
      isOpen := false;
      onConfirm := None;
    }

    /**
     * `handleConfirm`: run the pending action, if any, then hide. `ran` is
     * the action the caller runs. Since the action is dropped, a second
     * confirm right after finds none, so an action runs at most once.
     */
    method Confirm() returns (ran: Option<A>)
      modifies this
      ensures ran == old(onConfirm)
      ensures !isOpen && onConfirm.None?
      ensures title == old(title) && message == old(message) && kind == old(kind)
    {
      ran := onConfirm;
      Hide();
    }
  }
}
