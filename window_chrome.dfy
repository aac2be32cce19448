/**
 * The HildonWindow chrome (hildon-widgets/hildon-window.c): the size a
 * window asks for and gives its child and toolbar box, given its theme
 * borders; the topmost and fullscreen flags it tracks; the title it shows;
 * and which menu the menu key pops up, and where.
 */
module WindowChrome {

  import opened Optional

  /** A GtkBorder. */
  datatype Border = Border(left: int, right: int, top: int, bottom: int)

  /** A GtkRequisition. */
  datatype Requisition = Requisition(width: int, height: int)

  /** A GtkAllocation. */
  datatype Allocation = Allocation(x: int, y: int, width: int, height: int)

  function IMax(a: int, b: int): int { if a < b then b else a }
  function IMin(a: int, b: int): int { if a < b then a else b }

  /**
   * hildon_window_size_request: `base` is the requisition as passed in,
   * replaced by the child's request when there is a child; `box` is the
   * toolbar box's request and `bw` the container border width. The
   * height stacks the child over the box, the width is the wider of the
   * two; both get the border width on each side and, out of fullscreen,
   * the theme borders, the bottom one only when the box is empty.
   */
  function SizeRequest(base: Requisition, child: Option<Requisition>, box: Requisition, bw: int,
                       b: Border, fullscreen: bool): (r: Requisition)
    ensures var c := if child.Some? then child.value else base;
            && r.width == IMax(c.width, box.width) + 2 * bw + (if fullscreen then 0 else b.left + b.right)
            && r.height == c.height + box.height + 2 * bw
                           + (if fullscreen then 0 else b.top + (if box.height == 0 then b.bottom else 0))
    ensures var c := if child.Some? then child.value else base;
            var side := if fullscreen then 0 else b.left + b.right;
            r.width >= c.width + 2 * bw + side && r.width >= box.width + 2 * bw + side
  {
    var c := if child.Some? then child.value else base;
    var w := (if c.width < box.width then box.width else c.width) + 2 * bw;
    var h := c.height + box.height + 2 * bw;
    if fullscreen then Requisition(w, h)
    else Requisition(w + b.left + b.right, h + b.top + (if box.height == 0 then b.bottom else 0))
  }

  /** The toolbar box's allocation: the full width inside the toolbar
      borders, as tall as it asks but no taller than the window, at the
      bottom of the window above the bottom toolbar border. */
  function BoxAllocation(a: Allocation, req: Requisition, tb: Border): (r: Allocation)
    ensures r.x == a.x + tb.left && r.x + r.width == a.x + a.width - tb.right
    ensures r.height == IMin(req.height, a.height)
    ensures r.y + r.height + tb.bottom == a.y + a.height
  {
    var height := if req.height < a.height then req.height else a.height;
    Allocation(a.x + tb.left, a.y + a.height - height - tb.bottom, a.width - tb.left - tb.right, height)
  }

  /**
   * The child's allocation in hildon_window_size_allocate, below the
   * toolbar box `bx`: inset by the border width and, out of fullscreen,
   * by the theme borders at the left, right and top; at the bottom it
   * loses the box and, out of fullscreen, the theme's bottom border when
   * the box is empty and the toolbar's top and bottom borders when not.
   */
  function ChildAllocation(a: Allocation, bx: Allocation, bw: int, b: Border, tb: Border,
                           fullscreen: bool): (r: Allocation)
    ensures r.x == a.x + bw + (if fullscreen then 0 else b.left)
    ensures r.y == a.y + bw + (if fullscreen then 0 else b.top)
    ensures r.x + r.width == a.x + a.width - bw - (if fullscreen then 0 else b.right)
    ensures r.y + r.height
            == a.y + a.height - bw - bx.height
               - (if fullscreen then 0 else if bx.height <= 0 then b.bottom else tb.top + tb.bottom)
  {
    var x := a.x + bw;
    var y := a.y + bw;
    var w := a.width - bw * 2;
    var h := a.height - (bw * 2 + bx.height);
    if fullscreen then Allocation(x, y, w, h)
    else
      Allocation(x + b.left, y + b.top, w - (b.left + b.right),
                 h - b.top - (if bx.height <= 0 then b.bottom else tb.top + tb.bottom))
  }

  /** hildon_window_size_allocate: the child's allocation, when there is
      a child, and the toolbar box's. */
  function SizeAllocate(a: Allocation, hasChild: bool, boxReq: Requisition, bw: int, b: Border, tb: Border,
                        fullscreen: bool): (r: (Option<Allocation>, Allocation))
    ensures r.1 == BoxAllocation(a, boxReq, tb)
    ensures r.0.Some? <==> hasChild
    ensures hasChild ==> r.0.value == ChildAllocation(a, r.1, bw, b, tb, fullscreen)
  {
    var bx := BoxAllocation(a, boxReq, tb);
    (if hasChild then Some(ChildAllocation(a, bx, bw, b, tb, fullscreen)) else None, bx)
  }

  /** Out of fullscreen, the child's bottom edge lies the border width
      plus the toolbar's top border above a non-empty toolbar box. In
      fullscreen the toolbar's borders are not subtracted, so the child's
      bottom edge plus the border width lies the toolbar's bottom border
      below the box's top edge. */
  lemma ChildAboveBox(a: Allocation, hasChild: bool, boxReq: Requisition, bw: int, b: Border, tb: Border,
                      fullscreen: bool)
    requires hasChild
    ensures var r := SizeAllocate(a, hasChild, boxReq, bw, b, tb, fullscreen);
            var c := r.0.value;
            && (!fullscreen && r.1.height > 0 ==> c.y + c.height + bw + tb.top == r.1.y)
            && (fullscreen ==> c.y + c.height + bw == r.1.y + tb.bottom)
  {
    var r := SizeAllocate(a, hasChild, boxReq, bw, b, tb, fullscreen);
    assert r.1.y + r.1.height + tb.bottom == a.y + a.height;
  }

  /**
   * A window given exactly the size it requested, with a box that asks the
   * same in both calls, gives its child at least the width the child asked
   * for; the child gets its height exactly in fullscreen and with an empty
   * box, and is short by the toolbar's top and bottom borders otherwise,
   * which the request does not count.
   */
  lemma {:induction false} RequestThenAllocate(cr: Requisition, box: Requisition, bw: int, b: Border, tb: Border,
                                               fullscreen: bool, x: int, y: int)
    requires 0 <= box.height
    ensures var q := SizeRequest(cr, Some(cr), box, bw, b, fullscreen);
            var r := SizeAllocate(Allocation(x, y, q.width, q.height), true, box, bw, b, tb, fullscreen);
            box.height <= q.height ==>
              && r.0.value.width >= cr.width
              && r.0.value.height == cr.height - (if fullscreen || box.height == 0 then 0 else tb.top + tb.bottom)
  {
    var q := SizeRequest(cr, Some(cr), box, bw, b, fullscreen);
    var a := Allocation(x, y, q.width, q.height);
    var bx := BoxAllocation(a, box, tb);
    if box.height <= q.height {
      assert bx.height == box.height;
    }
  }

  /** The GdkWindowState bit for fullscreen (GDK_WINDOW_STATE_FULLSCREEN). */
  const WindowStateFullscreen: bv32 := 0x10

  /** What a one-bit unsigned bitfield keeps of a value stored in it. */
  function BitField1(v: nat): (r: nat)
    ensures r < 2
    ensures r == 1 <==> v % 2 == 1
  {
    v % 2
  }

  /** The fullscreen flag as the state event stores it: the FULLSCREEN
      bit of the new state, 16 or 0, put into the one-bit field. */
  function FullscreenBitAsWritten(newState: bv32): (r: bool)
  {
    BitField1((newState & WindowStateFullscreen) as nat) == 1
  }

  /** Whatever the new state, the stored flag is off: 16 and 0 both have
      a zero lowest bit. */
  lemma FullscreenBitLost(newState: bv32)
    ensures !FullscreenBitAsWritten(newState)
  {
    var m := newState & WindowStateFullscreen;
    assert m == 0 || m == WindowStateFullscreen by {
      assert m & !WindowStateFullscreen == 0;
    }
  }

  /** A state that enters fullscreen leaves the flag off as written. */
  lemma FullscreenEnterLost()
    ensures WindowStateFullscreen & WindowStateFullscreen != 0
    ensures !FullscreenBitAsWritten(WindowStateFullscreen)
  {
    FullscreenBitLost(WindowStateFullscreen);
  }

  /** The widget that has the focus when the window stops being topmost. */
  datatype Focus = NoFocus | FocusEntry | FocusTextView | FocusOther

  /** The side effects of update_topmost: the focused entry's or text
      view's input method loses focus; "is-topmost" is notified. */
  datatype TopmostEffect = ImFocusOut | NotifyIsTopmost

  /** The popup position function the menu is shown with. */
  datatype Positioner = ClientArea | FullScreen

  /** What toggle_menu does with the menu it chose. */
  datatype MenuAction = NoAction | Popdown | Popup(pos: Positioner)

  /** A GtkMenu as toggle_menu looks at it. */
  datatype Menu = Menu(id: nat, visible: bool, hasItems: bool, attachedHere: bool)

  /** The choice of toggle_menu: which menu, whether the program's common
      menu is first attached to this window, and what happens to it. */
  datatype Toggle = Toggle(menu: Option<nat>, attach: bool, action: MenuAction)

  /**
   * hildon_window_toggle_menu: the window's own menu wins over the
   * program's common menu, which is attached to this window when it is
   * not already; a visible menu is popped down; one with items pops up,
   * with the full-screen positioner in fullscreen; otherwise nothing.
   */
  function ToggleMenu(own: Option<Menu>, hasProgram: bool, common: Option<Menu>, fullscreen: bool): (r: Toggle)
    ensures own.Some? ==> r.menu == Some(own.value.id) && !r.attach
    ensures own.None? && hasProgram && common.Some? ==>
              r.menu == Some(common.value.id) && (r.attach <==> !common.value.attachedHere)
    ensures own.None? && !(hasProgram && common.Some?) ==> r == Toggle(None, false, NoAction)
    ensures r.action.Popup? ==> r.action.pos == (if fullscreen then FullScreen else ClientArea)
    ensures var m := if own.Some? then own else if hasProgram then common else None;
            && (r.action == Popdown <==> m.Some? && m.value.visible)
            && (r.action.Popup? <==> m.Some? && !m.value.visible && m.value.hasItems)
  {
    var m := if own.Some? then own else if hasProgram then common else None;
    var attach := own.None? && hasProgram && common.Some? && !common.value.attachedHere;
    if m.None? then Toggle(None, false, NoAction)
    else if m.value.visible then Toggle(Some(m.value.id), attach, Popdown)
    else if m.value.hasItems then Toggle(Some(m.value.id), attach, Popup(if fullscreen then FullScreen else ClientArea))
    else Toggle(Some(m.value.id), attach, NoAction)
  }

  /** hildon_window_menupopupfuncfull: the menu's style offsets, moved
      onto the screen. */
  function MenuPopupPositionFull(hoffset: int, voffset: int): (r: (int, int))
    ensures r.0 >= 0 && r.1 >= 0
    ensures hoffset >= 0 ==> r.0 == hoffset
    ensures voffset >= 0 ==> r.1 == voffset
    ensures hoffset < 0 ==> r.0 == 0
    ensures voffset < 0 ==> r.1 == 0
  {
    (IMax(0, hoffset), IMax(0, voffset))
  }

  /** hildon_window_menupopupfunc: the style offsets from the origin of
      the window's client area, or from (0, 0) without a GdkWindow. */
  function MenuPopupPosition(hoffset: int, voffset: int, origin: Option<(int, int)>): (r: (int, int))
    ensures origin.None? ==> r == (hoffset, voffset)
    ensures origin.Some? ==> r.0 - origin.value.0 == hoffset && r.1 - origin.value.1 == voffset
  {
    var o := if origin.Some? then origin.value else (0, 0);
    (hoffset + o.0, voffset + o.1)
  }

  /** The separator between the application name and the window title. */
  const TitleSeparator: string := " - "

  /** g_strjoin of the separator, the application name and the window's
      own title: a missing title ends the list, leaving the name alone. */
  function JoinTitle(app: string, title: Option<string>): (r: string)
    ensures title.None? ==> r == app
    ensures title.Some? ==> |r| == |app| + 3 + |title.value|
    ensures title.Some? ==> r[..|app|] == app && r[|app|..|app| + 3] == TitleSeparator
                            && r[|app| + 3..] == title.value
  {
    if title.Some? then app + TitleSeparator + title.value else app
  }

  /**
   * The HildonWindowPrivate flags the window keeps (fullscreen,
   * is_topmost), its own title, the title shown on its GdkWindow, and its
   * X window id.
   */
  class HildonWindow {
    const xid: nat
    var fullscreen: bool
    var isTopmost: bool
    var title: Option<string>
    var shownTitle: Option<string>

    /** A new window: neither fullscreen nor topmost, without a title. */
    constructor (xid: nat)
      ensures this.xid == xid && !fullscreen && !isTopmost && title == None && shownTitle == None
    {
      this.xid := xid;
      fullscreen := false;
      isTopmost := false;
      title := None;
      shownTitle := None;
    }

    /** hildon_window_get_is_topmost. */
    function GetIsTopmost(): (r: bool)
      reads this`isTopmost
      ensures r == isTopmost
    {
      isTopmost
    }

    /**
     * hildon_window_update_topmost with the id of the window now on top
     * and the window's focus widget: the flag becomes whether that is
     * this window, with a notification only when it changes; on losing
     * the top, a focused entry or text view loses input-method focus
     * first. Repeating the same id changes nothing.
     */
    method UpdateTopmost(windowId: nat, focus: Focus) returns (effects: seq<TopmostEffect>)
      modifies this`isTopmost
      ensures isTopmost == (windowId == xid)
      ensures NotifyIsTopmost in effects <==> isTopmost != old(isTopmost)
      ensures effects == [] <==> isTopmost == old(isTopmost)
      ensures ImFocusOut in effects <==> old(isTopmost) && !isTopmost && (focus == FocusEntry || focus == FocusTextView)
      ensures |effects| > 0 ==> effects[|effects| - 1] == NotifyIsTopmost
    {
      effects := [];
      if windowId == xid {
        if !isTopmost {
          isTopmost := true;
          effects := [NotifyIsTopmost];
        }
      } else if isTopmost {
        if focus == FocusEntry || focus == FocusTextView {
          effects := [ImFocusOut];
        }
        isTopmost := false;
        effects := effects + [NotifyIsTopmost];
      }
    }

    /** hildon_window_window_state_event as written: the FULLSCREEN bit
        of the new state goes into the one-bit field only when it
        changed, so the flag is cleared on entering fullscreen too. The
        handler lets the event propagate. */
    method WindowStateEventAsWritten(changedMask: bv32, newState: bv32) returns (handled: bool)
      modifies this`fullscreen
      ensures !handled
      ensures changedMask & WindowStateFullscreen != 0 ==> fullscreen == FullscreenBitAsWritten(newState)
      ensures changedMask & WindowStateFullscreen != 0 ==> !fullscreen
      ensures changedMask & WindowStateFullscreen == 0 ==> fullscreen == old(fullscreen)
    {
      if changedMask & WindowStateFullscreen != 0 {
        FullscreenBitLost(newState);
        fullscreen := FullscreenBitAsWritten(newState);
      }
      handled := false;
    }

    /** The state event as intended: when the FULLSCREEN bit changed, the
        flag follows it. */
    method WindowStateEvent(changedMask: bv32, newState: bv32) returns (handled: bool)
      modifies this`fullscreen
      ensures !handled
      ensures changedMask & WindowStateFullscreen != 0 ==>
                (fullscreen <==> newState & WindowStateFullscreen != 0)
      ensures changedMask & WindowStateFullscreen == 0 ==> fullscreen == old(fullscreen)
    {
      if changedMask & WindowStateFullscreen != 0 {
        fullscreen := newState & WindowStateFullscreen != 0;
      }
      handled := false;
    }

    /**
     * hildon_window_update_title with the application name
     * (g_get_application_name): nothing happens for a window that is not
     * realized or without a non-empty name; otherwise the GdkWindow shows
     * the name, the separator and the window's title.
     */
    method UpdateTitle(realized: bool, appName: Option<string>)
      modifies this`shownTitle
      ensures !realized || appName.None? || appName.value == "" ==> shownTitle == old(shownTitle)
      ensures realized && appName.Some? && appName.value != "" ==>
                shownTitle == Some(JoinTitle(appName.value, title))
    {
      if !realized {
        return;
      }
      if appName.Some? && |appName.value| > 0 {
        shownTitle := Some(JoinTitle(appName.value, title));
      }
    }
  }
}
