/**
 * The form dialog (CreateModal): the same `isOpen` machine as the confirmation
 * dialog, without a title or action buttons; it only wraps its children.
 */
module CreateModal {
  import opened Modal

  class CreateDialog {
    var isOpen: bool
    const hasOnClose: bool
    const hasChildren: bool

    /** A fresh dialog is closed. */
    constructor (hasOnClose: bool, hasChildren: bool)
      ensures !isOpen && this.hasOnClose == hasOnClose && this.hasChildren == hasChildren
    {
      isOpen := false;
      this.hasOnClose := hasOnClose;
      this.hasChildren := hasChildren;
    }

    /** Whether the render produces anything: it is null while closed. */
    predicate Rendered()
      reads this
    {
      isOpen
    }

    /** Whether the children's wrapper is on screen: only inside a rendered dialog that has children. */
    predicate ShowsChildrenWrapper()
      reads this
    {
      Rendered() && hasChildren
    }

    /** `ref.open()` */
    method Open()
      modifies this
      ensures isOpen == Next(old(isOpen), OpenCall)
      ensures Rendered() && (ShowsChildrenWrapper() <==> hasChildren)
    {
      isOpen := true;
    }

    /** `ref.close()` */
    method Close()
      modifies this
      ensures isOpen == Next(old(isOpen), CloseCall)
      ensures !Rendered() && !ShowsChildrenWrapper()
    {
      isOpen := false;
    }

    /** `handleClose`: closes, then calls `onClose` if given. */
    method HandleClose() returns (onCloseCalled: bool)
      modifies this
      ensures isOpen == Next(old(isOpen), CloseButton)
      ensures !Rendered() && !ShowsChildrenWrapper()
      ensures onCloseCalled == hasOnClose
    {
      isOpen := false;
      onCloseCalled := hasOnClose;
    }

    /** A document keydown: Escape closes only while the dialog is open. */
    method KeyDown(key: string) returns (onCloseCalled: bool)
      modifies this
      ensures isOpen == Next(old(isOpen), Key(key))
      ensures Rendered() <==> old(isOpen) && key != "Escape"
      ensures onCloseCalled <==> RunsHandleClose(old(isOpen), Key(key)) && hasOnClose
    {
      onCloseCalled := false;
      if key == "Escape" && isOpen {
        onCloseCalled := HandleClose();
      }
    }

    /** A click reaching the backdrop's handler: only one on the backdrop itself closes. */
    method BackdropClick(onBackdrop: bool) returns (onCloseCalled: bool)
      requires isOpen
      modifies this
      ensures isOpen == Next(old(isOpen), Click(onBackdrop))
      ensures Rendered() <==> !onBackdrop
      ensures onCloseCalled <==> onBackdrop && hasOnClose
    {
      onCloseCalled := false;
      if onBackdrop {
        onCloseCalled := HandleClose();
      }
    }
  }
}
