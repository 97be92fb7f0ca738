/** view/Menu.java: a pop-up list of items anchored under a view. The
    popup window itself is Android's; the model records the anchors it is
    shown at, how often it is dismissed, and the calls the menu listener
    receives, in order. */
module Menus {
  import opened JavaLang
  import opened Views

  /** A MenuListener, by identity. */
  type Listener = nat

  /** The calls a MenuListener receives: onMenuShow, onMenuDismiss and
      onItemClick(position). */
  datatype MenuEvent = MenuShown | MenuDismissed | ItemClicked(position: int)

  /** A Menu.Item: its title, icon and subtitle text, the check box
      (visible by default, invisible when the item is not checkable) and the
      subtitle line, which is shown only while isSubtitleDisplayed. */
  class Item {
    var title: string
    var icon: Option<Drawable>
    var subtitle: string
    var checkVisibility: Visibility
    var checked: bool
    var isSubtitleDisplayed: bool
    var subtitleVisibility: Visibility

    /** The subtitle view is visible exactly while it is meant to be
        displayed. */
    ghost predicate Valid()
      reads this
    {
      subtitleVisibility == (if isSubtitleDisplayed then Visible else Gone)
    }

    constructor ()
      ensures Valid()
      ensures title == "" && subtitle == "" && icon == None
      ensures checkVisibility == Visible && !checked && !isSubtitleDisplayed
    {
      title := "";
      icon := None;
      subtitle := "";
      checkVisibility := Visible;
      checked := false;
      isSubtitleDisplayed := false;
      subtitleVisibility := Gone;
    }

    /** isCheckable(): the check box is not INVISIBLE. */
    predicate IsCheckable()
      reads this
    {
      checkVisibility != Invisible
    }

    /** isChecked(): only a checkable item can report being checked. */
    predicate IsChecked()
      reads this
      ensures IsChecked() ==> IsCheckable()
    {
      IsCheckable() && checked
    }

    method SetCheckable(checkable: bool)
      modifies this
      ensures IsCheckable() == checkable && checkVisibility != Gone
      ensures checked == old(checked)
      ensures title == old(title) && icon == old(icon) && subtitle == old(subtitle)
      ensures isSubtitleDisplayed == old(isSubtitleDisplayed) && subtitleVisibility == old(subtitleVisibility)
    {
      checkVisibility := if checkable then Visible else Invisible;
    }

    /** The check box keeps its state while hidden: an item made checkable
        again reports the state set before. */
    method SetChecked(c: bool)
      modifies this
      ensures checked == c && IsChecked() == (IsCheckable() && c)
      ensures checkVisibility == old(checkVisibility)
      ensures title == old(title) && icon == old(icon) && subtitle == old(subtitle)
      ensures isSubtitleDisplayed == old(isSubtitleDisplayed) && subtitleVisibility == old(subtitleVisibility)
    {
      checked := c;
    }

    /** setDisplaySubtitle and invalidateTitles: the subtitle is VISIBLE
        when shown and GONE otherwise. */
    method SetDisplaySubtitle(show: bool)
      modifies this
      ensures Valid() && isSubtitleDisplayed == show
      ensures subtitleVisibility == (if show then Visible else Gone)
      ensures title == old(title) && icon == old(icon) && subtitle == old(subtitle)
      ensures checkVisibility == old(checkVisibility) && checked == old(checked)
    {
      isSubtitleDisplayed := show;
      subtitleVisibility := if show then Visible else Gone;
    }

    method SetIcon(newIcon: Option<Drawable>)
      modifies this
      ensures icon == newIcon
      ensures title == old(title) && subtitle == old(subtitle) && checked == old(checked)
      ensures checkVisibility == old(checkVisibility)
      ensures isSubtitleDisplayed == old(isSubtitleDisplayed) && subtitleVisibility == old(subtitleVisibility)
    {
      icon := newIcon;
    }

    method SetTitle(text: string)
      modifies this
      ensures title == text
      ensures icon == old(icon) && subtitle == old(subtitle) && checked == old(checked)
      ensures checkVisibility == old(checkVisibility)
      ensures isSubtitleDisplayed == old(isSubtitleDisplayed) && subtitleVisibility == old(subtitleVisibility)
    {
      title := text;
    }

    method SetSubtitle(text: string)
      modifies this
      ensures subtitle == text
      ensures title == old(title) && icon == old(icon) && checked == old(checked)
      ensures checkVisibility == old(checkVisibility)
      ensures isSubtitleDisplayed == old(isSubtitleDisplayed) && subtitleVisibility == old(subtitleVisibility)
    {
      subtitle := text;
    }
  }

  /** The menu. staticAnchor and lastAnchor are null until set (None). */
  class Menu {
    var listener: Option<Listener>
    var staticAnchor: Option<ViewId>
    var lastAnchor: Option<ViewId>
    var items: seq<Item>
    /** The anchors the window has dropped down under, in order. */
    var dropDowns: seq<ViewId>
    /** How many times window.dismiss() was called. */
    var dismissals: nat
    /** The calls the listener received, in order. */
    var events: seq<MenuEvent>

    constructor ()
      ensures listener == None && staticAnchor == None && lastAnchor == None
      ensures items == [] && dropDowns == [] && dismissals == 0 && events == []
    {
      listener := None;
      staticAnchor := None;
      lastAnchor := None;
      items := [];
      dropDowns := [];
      dismissals := 0;
      events := [];
    }

    /** The events after e is reported: the listener hears of it only when
        one is set. */
    function Notify(e: MenuEvent): seq<MenuEvent>
      reads this
    {
      if listener.Some? then events + [e] else events
    }

    /** The adapter's getCount(). */
    function Count(): nat
      reads this
    {
      |items|
    }

    /** addItem(name, icon, checkable): a new item with that title, the
        icon when one is given, checkable as asked and unchecked, appended
        as the last row. The other overloads pass checkable false and, when
        they have none, no icon. */
    method AddItem(name: string, icon: Option<Drawable>, checkable: bool) returns (item: Item)
      modifies this
      ensures fresh(item) && items == old(items) + [item] && Count() == old(Count()) + 1
      ensures item.title == name && item.icon == icon && item.subtitle == ""
      ensures item.IsCheckable() == checkable && !item.IsChecked()
      ensures item.Valid() && !item.isSubtitleDisplayed
      ensures listener == old(listener) && staticAnchor == old(staticAnchor) && lastAnchor == old(lastAnchor)
      ensures dropDowns == old(dropDowns) && dismissals == old(dismissals) && events == old(events)
    {
      item := new Item();
      item.SetTitle(name);
      if icon.Some? {
        item.SetIcon(icon);
      }
      item.SetCheckable(checkable);
      items := items + [item];
    }

    method SetMenuListener(l: Option<Listener>)
      modifies this
      ensures listener == l
      ensures staticAnchor == old(staticAnchor) && lastAnchor == old(lastAnchor) && items == old(items)
      ensures dropDowns == old(dropDowns) && dismissals == old(dismissals) && events == old(events)
    {
      listener := l;
    }

    method SetStaticAnchor(anchor: Option<ViewId>)
      modifies this
      ensures staticAnchor == anchor
      ensures listener == old(listener) && lastAnchor == old(lastAnchor) && items == old(items)
      ensures dropDowns == old(dropDowns) && dismissals == old(dismissals) && events == old(events)
    {
      staticAnchor := anchor;
    }

    /** dismiss(): closes the window, then tells the listener if there is one. */
    method Dismiss()
      modifies this
      ensures dismissals == old(dismissals) + 1
      ensures events == old(Notify(MenuDismissed))
      ensures listener == old(listener) && staticAnchor == old(staticAnchor) && lastAnchor == old(lastAnchor)
      ensures items == old(items) && dropDowns == old(dropDowns)
    {
      dismissals := dismissals + 1;
      events := Notify(MenuDismissed);
    }

    /** The view show() drops the window under: the static anchor when one
        is set, else where the menu was last shown. */
    function ShowAnchor(): (a: Option<ViewId>)
      reads this
      ensures a == None <==> staticAnchor == None && lastAnchor == None
      ensures staticAnchor.Some? ==> a == staticAnchor
      ensures a == staticAnchor || a == lastAnchor
    {
      if staticAnchor.Some? then staticAnchor else lastAnchor
    }

    /** show(anchor): drops the window down under the anchor, remembers it
        as the last anchor and tells the listener if there is one. A null
        anchor makes showAsDropDown throw NullPointerException before
        anything is remembered or reported. */
    method ShowAt(anchor: Option<ViewId>) returns (r: Result<()>)
      modifies this
      ensures r == Throws(NullPointer) <==> anchor == None
      ensures r.Ok? || r == Throws(NullPointer)
      ensures anchor == None ==> dropDowns == old(dropDowns) && lastAnchor == old(lastAnchor) && events == old(events)
      ensures anchor.Some? ==> && dropDowns == old(dropDowns) + [anchor.value] && lastAnchor == anchor
                               && events == old(Notify(MenuShown))
      ensures listener == old(listener) && staticAnchor == old(staticAnchor)
      ensures items == old(items) && dismissals == old(dismissals)
    {
      if anchor == None {
        return Throws(NullPointer);
      }
      dropDowns := dropDowns + [anchor.value];
      lastAnchor := anchor;
      events := Notify(MenuShown);
      r := Ok(());
    }

    /** show(): at the static anchor when one is set, else where the menu
        was last shown; with neither it throws. */
    method Show() returns (r: Result<()>)
      modifies this
      ensures r == Throws(NullPointer) <==> old(staticAnchor) == None && old(lastAnchor) == None
      ensures r.Ok? || r == Throws(NullPointer)
      ensures r.Throws? ==> dropDowns == old(dropDowns) && lastAnchor == old(lastAnchor) && events == old(events)
      ensures r.Ok? ==> && old(ShowAnchor()).Some?
                        && dropDowns == old(dropDowns) + [old(ShowAnchor()).value]
                        && lastAnchor == old(ShowAnchor()) && events == old(Notify(MenuShown))
      ensures listener == old(listener) && staticAnchor == old(staticAnchor)
      ensures items == old(items) && dismissals == old(dismissals)
    {
      r := ShowAt(ShowAnchor());
    }

    /** showAsLast(): where the menu was last shown, whatever the static
        anchor; before the first show it throws. */
    method ShowAsLast() returns (r: Result<()>)
      modifies this
      ensures r == Throws(NullPointer) <==> old(lastAnchor) == None
      ensures r.Ok? || r == Throws(NullPointer)
      ensures r.Throws? ==> dropDowns == old(dropDowns) && events == old(events)
      ensures r.Ok? ==> dropDowns == old(dropDowns) + [old(lastAnchor).value] && events == old(Notify(MenuShown))
      ensures lastAnchor == old(lastAnchor)
      ensures listener == old(listener) && staticAnchor == old(staticAnchor)
      ensures items == old(items) && dismissals == old(dismissals)
    {
      r := ShowAt(lastAnchor);
    }

    /** A click on row position is passed on only when a listener is set. */
    method OnItemClick(position: int)
      modifies this
      ensures events == old(Notify(ItemClicked(position)))
      ensures listener == old(listener) && staticAnchor == old(staticAnchor) && lastAnchor == old(lastAnchor)
      ensures items == old(items) && dropDowns == old(dropDowns) && dismissals == old(dismissals)
    {
      events := Notify(ItemClicked(position));
    }
  }
}
