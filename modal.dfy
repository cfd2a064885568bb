/**
 * The confirmation dialog (Modal): an `isOpen` flag that starts false and is
 * driven by the parent's imperative handle (`open`/`close`), the close button,
 * the negative button, the Escape key and clicks on the backdrop. The same
 * machine, without the action buttons, drives CreateModal.
 */
module Modal {
  import opened Wrappers

  /** The things that can happen to a dialog. */
  datatype Event =
    | OpenCall                 // ref.open()
    | CloseCall                // ref.close()
    | CloseButton              // the header's close button, or the negative button: handleClose
    | PositiveButton           // handlePositive
    | Key(key: string)         // a document keydown
    | Click(onBackdrop: bool)  // a click reaching the backdrop's handler; `onBackdrop` is target == currentTarget

  /** The value of `isOpen` after `e`. */
  function Next(isOpen: bool, e: Event): (r: bool)
    ensures e.OpenCall? ==> r
    ensures e.CloseCall? || e.CloseButton? || e == Click(true) ==> !r
    ensures e.PositiveButton? || e == Click(false) ==> r == isOpen
    ensures e.Key? ==> (r <==> isOpen && e.key != "Escape")
  {
    match e
    case OpenCall => true
    case CloseCall => false
    case CloseButton => false
    case PositiveButton => isOpen
    case Key(key) => if key == "Escape" && isOpen then false else isOpen
    case Click(onBackdrop) => if onBackdrop then false else isOpen
  }

  /** Whether `e` runs `handleClose`, and so calls the optional `onClose`. */
  predicate RunsHandleClose(isOpen: bool, e: Event) {
    match e
    case CloseButton => true
    case Key(key) => key == "Escape" && isOpen
    case Click(onBackdrop) => onBackdrop
    case _ => false
  }

  /** Every way `handleClose` runs leaves the dialog closed. */
  lemma HandleCloseCloses(isOpen: bool, e: Event)
    requires RunsHandleClose(isOpen, e)
    ensures !Next(isOpen, e)
  {
  }

  /** `isOpen` after a sequence of events. */
  function Run(isOpen: bool, es: seq<Event>): bool
    decreases |es|
  {
    if es == [] then isOpen else Run(Next(isOpen, es[0]), es[1..])
  }

  /** A closed dialog opens only through `open()`: no key, click or button reopens it. */
  lemma {:induction false} StaysClosedWithoutOpen(es: seq<Event>)
    requires forall i :: 0 <= i < |es| ==> !es[i].OpenCall?
    ensures !Run(false, es)
    decreases |es|
  {
    if es != [] {
      assert !Next(false, es[0]);
      StaysClosedWithoutOpen(es[1..]);
    }
  }

  /** An open dialog stays open through any events that are neither a close nor Escape nor a backdrop click. */
  lemma {:induction false} StaysOpenWithoutClose(es: seq<Event>)
    requires forall i :: 0 <= i < |es| ==> !RunsHandleClose(true, es[i]) && !es[i].CloseCall?
    ensures Run(true, es)
    decreases |es|
  {
    if es != [] {
      assert Next(true, es[0]);
      StaysOpenWithoutClose(es[1..]);
    }
  }

  /** What an open Modal shows: the title, the two buttons, and the children's wrapper if there are children. */
  datatype ModalView = ModalView(
    title: string, positiveText: string, positiveDisabled: bool, negativeText: string, showsChildren: bool)

  /** The positive text every page's delete dialog passes: "Deleting" while the delete runs, "Yes" otherwise. */
  function DeletePositiveText(isDeleting: bool): (text: string)
    ensures isDeleting ==> text == "Deleting"
    ensures !isDeleting ==> text == "Yes"
  {
    if isDeleting then "Deleting" else "Yes"
  }

  class ModalDialog {
    var isOpen: bool
    const title: string
    const positiveText: string
    const negativeText: string
    const isDisabled: bool
    const hasOnClose: bool
    const hasChildren: bool

    /** A fresh dialog: closed, with `negativeText` "Cancel" and `isDisabled` false unless given. */
    constructor (title: string, positiveText: string, negativeText: Option<string>, isDisabled: Option<bool>,
                 hasOnClose: bool, hasChildren: bool)
      ensures !isOpen
      ensures this.title == title && this.positiveText == positiveText
      ensures this.negativeText == negativeText.GetOr("Cancel") && this.isDisabled == isDisabled.GetOr(false)
      ensures this.hasOnClose == hasOnClose && this.hasChildren == hasChildren
    {
      isOpen := false;
      this.title := title;
      this.positiveText := positiveText;
      this.negativeText := negativeText.GetOr("Cancel");
      this.isDisabled := isDisabled.GetOr(false);
      this.hasOnClose := hasOnClose;
      this.hasChildren := hasChildren;
    }

    /** The render: nothing while closed. */
    function View(): (v: Option<ModalView>)
      reads this
      ensures v.None? <==> !isOpen
      ensures v.Some? ==> v.value.positiveDisabled == isDisabled && v.value.negativeText == negativeText
    {
      if isOpen then Some(ModalView(title, positiveText, isDisabled, negativeText, hasChildren)) else None
    }

    /** `ref.open()` */
    method Open()
      modifies this
      ensures isOpen == Next(old(isOpen), OpenCall)
    {
      isOpen := true;
    }

    /** `ref.close()`; `onClose` is not called. */
    method Close()
      modifies this
      ensures isOpen == Next(old(isOpen), CloseCall)
    {
      isOpen := false;
    }

    /** `handleClose`, behind the close and negative buttons: closes, then calls `onClose` if given. */
    method HandleClose() returns (onCloseCalled: bool)
      modifies this
      ensures isOpen == Next(old(isOpen), CloseButton)
      ensures onCloseCalled == hasOnClose
    {
      isOpen := false;
      onCloseCalled := hasOnClose;
    }

    /** `handlePositive`: calls `onPositive` and leaves closing to the parent. Only an enabled, shown button can be clicked. */
    method HandlePositive() returns (onPositiveCalled: bool)
      requires isOpen && !isDisabled
      ensures isOpen == Next(old(isOpen), PositiveButton)
      ensures onPositiveCalled
    {
      onPositiveCalled := true;
    }

    /** A document keydown: Escape runs `handleClose`, but only while the dialog is open. */
    method KeyDown(key: string) returns (onCloseCalled: bool)
      modifies this
      ensures isOpen == Next(old(isOpen), Key(key))
      ensures onCloseCalled <==> RunsHandleClose(old(isOpen), Key(key)) && hasOnClose
    {
      onCloseCalled := false;
      if key == "Escape" && isOpen {
        onCloseCalled := HandleClose();
      }
    }

    /**
     * A click that reaches the backdrop's handler, which exists only while open.
     * Clicks inside the dialog stop propagating, so only a click on the backdrop itself closes.
     */
    method BackdropClick(onBackdrop: bool) returns (onCloseCalled: bool)
      requires isOpen
      modifies this
      ensures isOpen == Next(old(isOpen), Click(onBackdrop))
      ensures onCloseCalled <==> onBackdrop && hasOnClose
    {
      onCloseCalled := false;
      if onBackdrop {
        onCloseCalled := HandleClose();
      }
    }
  }
}
