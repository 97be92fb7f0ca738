/** app/ActionBarDrawer.java: the action bar drawn over an activity. It
    shows an up button, the activity's icon or logo, a title and an
    optional subtitle, a row of tools, a "more" button opening a context
    menu and a thin progress bar; one fading animation hides and shows it. */
module ActionBarDrawers {
  import opened JavaLang
  import opened Views
  import Menus
  import opened MathUtils

  /** The colour attributes a ResourcesDelegate is asked for. */
  const ATTR_BACKGROUND_COLOR: int := 0x000
  const ATTR_DEFAULT_ITEM_COLOR: int := 0x001
  const ATTR_PRESSED_ITEM_COLOR: int := 0x002
  const ATTR_TITLE_COLOR: int := 0x003
  const ATTR_SUBTITLE_COLOR: int := 0x004

  // ------------------------------------------------------------ progress bar

  /** MyProgressBar: a maximum of 100 and no progress to start with; the
      setters store what they are given. */
  class ProgressBar {
    var max: int32
    var currentProgress: int32

    constructor ()
      ensures max == 100 && currentProgress == 0
    {
      max := 100;
      currentProgress := 0;
    }

    method SetMax(newMax: int32)
      modifies this
      ensures max == newMax && currentProgress == old(currentProgress)
    {
      max := newMax;
    }

    method SetProgress(newProgress: int32)
      modifies this
      ensures currentProgress == newProgress && max == old(max)
    {
      currentProgress := newProgress;
    }
  }

  /** The width onDraw gives the progress drawable on a canvas of the given
      width: currentProgress * width / max in int arithmetic, so the product
      wraps around and a zero maximum throws ArithmeticException. */
  function ProgressWidth(progress: int32, width: int32, max: int32): (r: Result<int32>)
    ensures r.Throws? <==> max == 0
    ensures r.Throws? ==> r.exc == ArithmeticDivideByZero
    ensures progress == 0 && max != 0 ==> r == Ok(0)
  {
    if max == 0 then Throws(ArithmeticDivideByZero)
    else Ok(Wrap32(JavaDiv(Wrap32(progress * width), max)))
  }

  /** Euclidean division by a positive number keeps the order. */
  lemma DivMonotone(a: int, b: int, m: int)
    requires 0 <= a <= b && m > 0
    ensures a / m <= b / m
  {
    var qa, qb := a / m, b / m;
    assert (qa - qb) * m == (a - a % m) - (b - b % m);
    if qa - qb >= 1 {
      AtLeastOnce(qa - qb, m);
    }
  }

  /** For progress between 0 and the maximum, and no overflow in
      max * width, the bar fills proportionally: nothing at 0, the whole
      width at the maximum, never more than the width. A zero maximum
      throws. */
  lemma ProgressWidthBounds(progress: int32, width: int32, max: int32)
    requires 0 <= progress <= max && 0 <= width && IsInt(max * width)
    ensures max == 0 ==> ProgressWidth(progress, width, max) == Throws(ArithmeticDivideByZero)
    ensures max > 0 ==> && ProgressWidth(progress, width, max).Ok?
                        && 0 <= ProgressWidth(progress, width, max).value <= width
                        && ProgressWidth(progress, width, max).value == progress * width / max
                        && (progress == 0 ==> ProgressWidth(progress, width, max).value == 0)
                        && (progress == max ==> ProgressWidth(progress, width, max).value == width)
  {
    if max > 0 {
      MulMonotone(progress, max, width);
      DivMonotone(progress * width, max * width, max);
      assert max * width / max == width;
    }
  }

  /** More progress never draws a narrower bar. */
  lemma ProgressWidthMonotone(p1: int32, p2: int32, width: int32, max: int32)
    requires 0 <= p1 <= p2 <= max && max > 0 && 0 <= width && IsInt(max * width)
    ensures ProgressWidth(p1, width, max).value <= ProgressWidth(p2, width, max).value
  {
    ProgressWidthBounds(p1, width, max);
    ProgressWidthBounds(p2, width, max);
    MulMonotone(p1, p2, width);
    DivMonotone(p1 * width, p2 * width, max);
  }

  lemma MulMonotone(a: int, b: int, w: int)
    requires 0 <= a <= b && 0 <= w
    ensures 0 <= a * w <= b * w
  {
    assert (b - a) * w >= 0;
  }

  // ------------------------------------------------------------ more image

  /** The pixels generateMoreImage paints in its 10 x 10 bitmap: columns 4
      and 5 of rows 1, 2, 4, 5, 7 and 8, three 2 x 2 dots one above the
      other. */
  predicate MoreDot(x: int, y: int)
  {
    (x == 4 || x == 5) && 1 <= y <= 8 && y % 3 != 0
  }

  /** The 10 x 10 image with the three dots in colour c on transparent. */
  function DotsImage(c: int): seq<seq<int>>
  {
    seq(10, x => seq(10, y => if MoreDot(x, y) then c else TRANSPARENT))
  }

  /** The dots are twelve pixels, all inside the 10 x 10 bitmap, so no
      setPixel of generateMoreImage throws. */
  lemma MoreDotsInside()
    ensures forall x, y :: MoreDot(x, y) ==> 0 <= x < 10 && 0 <= y < 10
    ensures forall y :: MoreDot(4, y) <==> y in {1, 2, 4, 5, 7, 8}
    ensures forall y :: MoreDot(5, y) <==> MoreDot(4, y)
  {
  }

  /** A 10 x 10 image with colour c exactly at the dots is DotsImage(c). */
  lemma DotsImageExtensional(image: seq<seq<int>>, c: int)
    requires |image| == 10 && forall x :: 0 <= x < 10 ==> |image[x]| == 10
    requires forall x, y :: 0 <= x < 10 && 0 <= y < 10 ==>
               image[x][y] == if MoreDot(x, y) then c else TRANSPARENT
    ensures image == DotsImage(c)
  {
    var d := DotsImage(c);
    forall x | 0 <= x < 10
      ensures image[x] == d[x]
    {
      assert |d[x]| == 10;
      forall y | 0 <= y < 10
        ensures image[x][y] == d[x][y]
      {
      }
    }
  }

  /** One step of generateMoreImage's loop: rows i + 1 and i + 2 of
      columns 4 and 5 take colour c. */
  method PaintDot(bitmap: Bitmap, i: int, c: int)
    requires bitmap.Valid() && bitmap.width == 10 && bitmap.height == 10 && 0 <= i <= 7
    modifies bitmap.pixels
    ensures forall x, y :: 0 <= x < 10 && 0 <= y < 10 ==>
              bitmap.pixels[x, y] == if (x == 4 || x == 5) && (y == i + 1 || y == i + 2) then c
                                     else old(bitmap.pixels[x, y])
  {
    var r := bitmap.SetPixel(4, i + 1, c);
    r := bitmap.SetPixel(4, i + 2, c);
    r := bitmap.SetPixel(5, i + 1, c);
    r := bitmap.SetPixel(5, i + 2, c);
  }

  /** generateMoreImage: the dots are painted in the pressed colour and the
      bitmap is copied for the pressed state, then painted over in the
      default colour and copied for every other state. The two results are
      the images the scaled copies are made from. */
  method GenerateMoreImage(pressedColor: int, defaultColor: int)
    returns (pressedImage: seq<seq<int>>, defaultImage: seq<seq<int>>)
    ensures pressedImage == DotsImage(pressedColor)
    ensures defaultImage == DotsImage(defaultColor)
  {
    var bitmap := new Bitmap(10, 10);
    var i := 0;
    while i < 9
      invariant 0 <= i <= 9 && i % 3 == 0
      invariant bitmap.Valid() && bitmap.width == 10 && bitmap.height == 10
      invariant forall x, y :: 0 <= x < 10 && 0 <= y < 10 ==>
                  bitmap.pixels[x, y] == if MoreDot(x, y) && y < i then pressedColor else TRANSPARENT
    {
      PaintDot(bitmap, i, pressedColor);
      i := i + 3;
    }
    pressedImage := bitmap.Snapshot();
    DotsImageExtensional(pressedImage, pressedColor);
    i := 0;
    while i < 9
      invariant 0 <= i <= 9 && i % 3 == 0
      invariant bitmap.Valid() && bitmap.width == 10 && bitmap.height == 10
      invariant forall x, y :: 0 <= x < 10 && 0 <= y < 10 ==>
                  bitmap.pixels[x, y] == if !MoreDot(x, y) then TRANSPARENT
                                         else if y < i then defaultColor else pressedColor
    {
      PaintDot(bitmap, i, defaultColor);
      i := i + 3;
    }
    defaultImage := bitmap.Snapshot();
    DotsImageExtensional(defaultImage, defaultColor);
  }

  // ------------------------------------------------------------ the bar

  /** A Tool, by identity. */
  type Tool = nat

  /** An ImageView addTool creates: serial is its identity (the number of
      tool views created before it), id the id it was given. */
  datatype ToolView = ToolView(serial: nat, id: int)

  /** The views onClick tells apart. */
  datatype DrawerView = UpButton | IconView | MoreButton | ToolButton(view: ToolView) | OtherDrawerView

  /** Every tool's view is in the layout and no two tools share a view;
      the layout holds each view once, all created so far. */
  ghost predicate ToolViewsLaidOut(tools: map<Tool, ToolView>, layout: seq<ToolView>, created: nat)
  {
    && (forall t :: t in tools ==> tools[t] in layout)
    && (forall t1, t2 :: t1 in tools && t2 in tools && t1 != t2 ==> tools[t1] != tools[t2])
    && NoRepeats(layout)
    && (forall v :: v in layout ==> v.serial < created)
  }

  /** addTool appends a view never created before and maps the tool to it:
      the layout still holds every tool's view once. A tool added twice
      leaves its earlier view in the layout, owned by no tool. */
  lemma AddedToolLaidOut(tools: map<Tool, ToolView>, layout: seq<ToolView>, created: nat, tool: Tool, id: int)
    requires ToolViewsLaidOut(tools, layout, created)
    ensures ToolViewsLaidOut(tools[tool := ToolView(created, id)], layout + [ToolView(created, id)], created + 1)
    ensures tool in tools ==>
              tools[tool] in layout + [ToolView(created, id)] && tools[tool] !in tools[tool := ToolView(created, id)].Values
  {
    var view := ToolView(created, id);
    assert view !in layout;
  }

  /** What the icon view shows after invalidateIconView: the logo when it
      is used, else the icon. */
  function ChosenIcon(isLogoUsed: bool, lastIcon: Option<Drawable>, lastLogo: Option<Drawable>): Option<Drawable>
  {
    if isLogoUsed then lastLogo else lastIcon
  }

  class ActionBarDrawer {
    const moreButton: ViewId
    const progressBar: ProgressBar
    var visibility: Visibility
    var upButtonVisibility: Visibility
    var isLogoUsed: bool
    var lastIcon: Option<Drawable>
    var lastLogo: Option<Drawable>
    /** The drawable the icon view shows. */
    var iconShown: Option<Drawable>
    var isSubtitleDisplayed: bool
    var subtitleVisibility: Visibility
    var title: string
    var subtitle: string
    var moreButtonVisibility: Visibility
    var progressVisibility: Visibility
    var menu: Menus.Menu?
    /** toolsArray: each tool's current view. */
    var tools: map<Tool, ToolView>
    /** The views in toolsLayout, in order. */
    var toolsLayout: seq<ToolView>
    var viewsCreated: nat
    /** Whether activity.finish() has been called. */
    var finishRequested: bool

    /** The subtitle is visible exactly while it is displayed; every tool's
        view is in the layout and no two tools share a view; the layout
        holds each view once, all created by addTool. */
    ghost predicate Valid()
      reads this
    {
      && subtitleVisibility == (if isSubtitleDisplayed then Visible else Gone)
      && ToolViewsLaidOut(tools, toolsLayout, viewsCreated)
    }

    /** The constructor, given the up arrow it draws and the activity's icon
        and logo. The icon view shows the activity's icon, but the icon
        kept for later is the up arrow's drawable; the up button, the
        subtitle, the more button and the progress bar start hidden. */
    constructor (moreButton: ViewId, upImage: Drawable, activityIcon: Option<Drawable>, activityLogo: Option<Drawable>)
      ensures Valid() && fresh(progressBar)
      ensures progressBar.max == 100 && progressBar.currentProgress == 0
      ensures this.moreButton == moreButton
      ensures visibility == Visible && upButtonVisibility == Invisible
      ensures !isLogoUsed && lastIcon == Some(upImage) && lastLogo == activityLogo && iconShown == activityIcon
      ensures !isSubtitleDisplayed && title == "" && subtitle == ""
      ensures moreButtonVisibility == Gone && progressVisibility == Invisible
      ensures menu == null && tools == map[] && toolsLayout == [] && viewsCreated == 0 && !finishRequested
    {
      this.moreButton := moreButton;
      progressBar := new ProgressBar();
      visibility := Visible;
      upButtonVisibility := Invisible;
      isLogoUsed := false;
      lastIcon := Some(upImage);
      lastLogo := activityLogo;
      iconShown := activityIcon;
      isSubtitleDisplayed := false;
      subtitleVisibility := Gone;
      title := "";
      subtitle := "";
      moreButtonVisibility := Gone;
      progressVisibility := Invisible;
      menu := null;
      tools := map[];
      toolsLayout := [];
      viewsCreated := 0;
      finishRequested := false;
    }

    /** isShowing(): the bar is not GONE. */
    predicate IsShowing()
      reads this
    {
      visibility != Gone
    }

    /** addTool: a new view whose id is the number of tools before it, added
        at the end of the layout and mapped to the tool. A tool added again
        gets a new view; its old one stays in the layout. */
    method AddTool(tool: Tool) returns (view: ToolView)
      requires Valid()
      modifies this
      ensures Valid()
      ensures view == ToolView(old(viewsCreated), |old(tools)|)
      ensures tools == old(tools)[tool := view] && toolsLayout == old(toolsLayout) + [view]
      ensures viewsCreated == old(viewsCreated) + 1
      ensures tool in old(tools) ==> old(tools)[tool] in toolsLayout && old(tools)[tool] !in tools.Values
      ensures visibility == old(visibility) && isLogoUsed == old(isLogoUsed) && iconShown == old(iconShown)
      ensures lastIcon == old(lastIcon) && lastLogo == old(lastLogo) && menu == old(menu)
      ensures isSubtitleDisplayed == old(isSubtitleDisplayed) && moreButtonVisibility == old(moreButtonVisibility)
      ensures title == old(title) && subtitle == old(subtitle) && finishRequested == old(finishRequested)
      ensures upButtonVisibility == old(upButtonVisibility) && progressVisibility == old(progressVisibility)
    {
      view := ToolView(viewsCreated, |tools|);
      AddedToolLaidOut(tools, toolsLayout, viewsCreated, tool, |tools|);
      toolsLayout := toolsLayout + [view];
      tools := tools[tool := view];
      viewsCreated := viewsCreated + 1;
    }

    /** removeTool: a tool that is present loses its view from the layout
        and from the map; any other tool is ignored. */
    method RemoveTool(tool: Tool)
      requires Valid()
      modifies this
      ensures Valid()
      ensures tool !in old(tools) ==> tools == old(tools) && toolsLayout == old(toolsLayout)
      ensures tool in old(tools) ==>
                && tools == old(tools) - {tool}
                && toolsLayout == Without(old(toolsLayout), old(tools)[tool])
                && |toolsLayout| == |old(toolsLayout)| - 1
                && old(tools)[tool] !in toolsLayout
      ensures viewsCreated == old(viewsCreated)
      ensures visibility == old(visibility) && isLogoUsed == old(isLogoUsed) && iconShown == old(iconShown)
      ensures lastIcon == old(lastIcon) && lastLogo == old(lastLogo) && menu == old(menu)
      ensures isSubtitleDisplayed == old(isSubtitleDisplayed) && moreButtonVisibility == old(moreButtonVisibility)
      ensures title == old(title) && subtitle == old(subtitle) && finishRequested == old(finishRequested)
      ensures upButtonVisibility == old(upButtonVisibility) && progressVisibility == old(progressVisibility)
    {
      if tool in tools {
        var v := tools[tool];
        WithoutNoRepeats(toolsLayout, v);
        toolsLayout := Without(toolsLayout, v);
        tools := tools - {tool};
      }
    }

    /** createContextMenu: the menu is created once, anchored at the more
        button; every call shows the more button and returns that menu. */
    method CreateContextMenu() returns (m: Menus.Menu)
      requires Valid()
      modifies this
      ensures Valid()
      ensures old(menu) != null ==> m == old(menu)
      ensures old(menu) == null ==> fresh(m) && m.staticAnchor == Some(moreButton) && m.items == []
                                    && m.listener == None && m.lastAnchor == None
      ensures menu == m && moreButtonVisibility == Visible
      ensures tools == old(tools) && toolsLayout == old(toolsLayout) && viewsCreated == old(viewsCreated)
      ensures visibility == old(visibility) && isLogoUsed == old(isLogoUsed) && iconShown == old(iconShown)
      ensures lastIcon == old(lastIcon) && lastLogo == old(lastLogo)
      ensures isSubtitleDisplayed == old(isSubtitleDisplayed)
      ensures title == old(title) && subtitle == old(subtitle) && finishRequested == old(finishRequested)
      ensures upButtonVisibility == old(upButtonVisibility) && progressVisibility == old(progressVisibility)
    {
      if menu == null {
        var created := new Menus.Menu();
        created.SetStaticAnchor(Some(moreButton));
        menu := created;
      }
      moreButtonVisibility := Visible;
      m := menu;
    }

    /** onClick: the up button and the icon finish the activity; the more
        button shows the menu once there is one, which throws when the menu
        has no anchor. A tool view's click goes to the tool at position
        view.getId() of keySet().toArray(): that position is returned, and
        an id at or beyond the number of tools throws. */
    method OnClick(view: DrawerView) returns (r: Result<Option<int>>)
      requires Valid()
      modifies this, menu
      ensures Valid() && menu == old(menu)
      ensures finishRequested == (old(finishRequested) || view == UpButton || view == IconView)
      ensures view == MoreButton && menu != null ==>
                && (r == Throws(NullPointer) <==> old(menu.ShowAnchor()) == None)
                && (r.Ok? ==> r.value == None && menu.dropDowns == old(menu.dropDowns) + [old(menu.ShowAnchor()).value])
                && (r.Throws? ==> r == Throws(NullPointer) && menu.dropDowns == old(menu.dropDowns))
      ensures view != MoreButton && menu != null ==> menu.dropDowns == old(menu.dropDowns)
      ensures view.ToolButton? && view.view in tools.Values ==>
                r == if 0 <= view.view.id < |tools| then Ok(Some(view.view.id)) else Throws(IndexOutOfBounds)
      ensures !(view == MoreButton && menu != null) && !(view.ToolButton? && view.view in tools.Values) ==> r == Ok(None)
      ensures tools == old(tools) && toolsLayout == old(toolsLayout) && viewsCreated == old(viewsCreated)
      ensures visibility == old(visibility) && iconShown == old(iconShown) && moreButtonVisibility == old(moreButtonVisibility)
    {
      r := Ok(None);
      if view == UpButton || view == IconView {
        finishRequested := true;
      } else if view == MoreButton && menu != null {
        var shown := menu.Show();
        if shown.Throws? {
          r := Throws(shown.exc);
        }
      } else if view.ToolButton? && view.view in tools.Values {
        r := if 0 <= view.view.id < |tools| then Ok(Some(view.view.id)) else Throws(IndexOutOfBounds);
      }
    }

    /** setDisplayLogo: the icon view shows the logo when it is used, else
        the icon. */
    method SetDisplayLogo(useLogo: bool)
      requires Valid()
      modifies this
      ensures Valid()
      ensures isLogoUsed == useLogo && iconShown == ChosenIcon(isLogoUsed, lastIcon, lastLogo)
      ensures lastIcon == old(lastIcon) && lastLogo == old(lastLogo)
      ensures visibility == old(visibility) && tools == old(tools) && toolsLayout == old(toolsLayout)
      ensures isSubtitleDisplayed == old(isSubtitleDisplayed) && menu == old(menu)
    {
      isLogoUsed := useLogo;
      iconShown := ChosenIcon(isLogoUsed, lastIcon, lastLogo);
    }

    /** setIcon: the icon is kept, and shown unless the logo is used. */
    method SetIcon(newIcon: Option<Drawable>)
      requires Valid()
      modifies this
      ensures Valid()
      ensures lastIcon == newIcon && iconShown == ChosenIcon(isLogoUsed, lastIcon, lastLogo)
      ensures isLogoUsed ==> iconShown == old(lastLogo)
      ensures isLogoUsed == old(isLogoUsed) && lastLogo == old(lastLogo)
      ensures visibility == old(visibility) && tools == old(tools) && toolsLayout == old(toolsLayout)
      ensures isSubtitleDisplayed == old(isSubtitleDisplayed) && menu == old(menu)
    {
      lastIcon := newIcon;
      iconShown := ChosenIcon(isLogoUsed, lastIcon, lastLogo);
    }

    /** setLogo: the logo is kept, and shown only when it is used. */
    method SetLogo(newLogo: Option<Drawable>)
      requires Valid()
      modifies this
      ensures Valid()
      ensures lastLogo == newLogo && iconShown == ChosenIcon(isLogoUsed, lastIcon, lastLogo)
      ensures !isLogoUsed ==> iconShown == old(lastIcon)
      ensures isLogoUsed == old(isLogoUsed) && lastIcon == old(lastIcon)
      ensures visibility == old(visibility) && tools == old(tools) && toolsLayout == old(toolsLayout)
      ensures isSubtitleDisplayed == old(isSubtitleDisplayed) && menu == old(menu)
    {
      lastLogo := newLogo;
      iconShown := ChosenIcon(isLogoUsed, lastIcon, lastLogo);
    }

    /** setDisplayUpButton: VISIBLE or INVISIBLE (the space stays). */
    method SetDisplayUpButton(showUp: bool)
      requires Valid()
      modifies this
      ensures Valid()
      ensures upButtonVisibility == (if showUp then Visible else Invisible)
      ensures visibility == old(visibility) && iconShown == old(iconShown) && tools == old(tools)
      ensures toolsLayout == old(toolsLayout) && isSubtitleDisplayed == old(isSubtitleDisplayed) && menu == old(menu)
    {
      upButtonVisibility := if showUp then Visible else Invisible;
    }

    /** setDisplaySubtitle and invalidateTitles: the subtitle is VISIBLE
        when displayed, GONE otherwise. */
    method SetDisplaySubtitle(showSubtitle: bool)
      requires Valid()
      modifies this
      ensures Valid()
      ensures isSubtitleDisplayed == showSubtitle && subtitleVisibility == ShownOrGone(showSubtitle)
      ensures visibility == old(visibility) && iconShown == old(iconShown) && tools == old(tools)
      ensures toolsLayout == old(toolsLayout) && upButtonVisibility == old(upButtonVisibility) && menu == old(menu)
      ensures title == old(title) && subtitle == old(subtitle)
    {
      isSubtitleDisplayed := showSubtitle;
      subtitleVisibility := ShownOrGone(showSubtitle);
    }

    method SetTitle(text: string)
      requires Valid()
      modifies this
      ensures Valid()
      ensures title == text && subtitle == old(subtitle) && subtitleVisibility == old(subtitleVisibility)
      ensures visibility == old(visibility) && iconShown == old(iconShown) && tools == old(tools)
      ensures toolsLayout == old(toolsLayout) && menu == old(menu)
    {
      title := text;
    }

    method SetSubtitle(text: string)
      requires Valid()
      modifies this
      ensures Valid()
      ensures subtitle == text && title == old(title) && subtitleVisibility == old(subtitleVisibility)
      ensures visibility == old(visibility) && iconShown == old(iconShown) && tools == old(tools)
      ensures toolsLayout == old(toolsLayout) && menu == old(menu)
    {
      subtitle := text;
    }

    /** setMaxProgress and getMaxProgress: the bar's maximum reads back. */
    method SetMaxProgress(max: int32)
      modifies progressBar
      ensures progressBar.max == max && progressBar.currentProgress == old(progressBar.currentProgress)
    {
      progressBar.SetMax(max);
    }

    /** setProgress and getProgress: the progress reads back. */
    method SetProgress(progress: int32)
      modifies progressBar
      ensures progressBar.currentProgress == progress && progressBar.max == old(progressBar.max)
    {
      progressBar.SetProgress(progress);
    }

    /** The end of the fading animation, which hide() and show() both
        start: a bar that is showing becomes GONE, any other VISIBLE. */
    method OnAnimationEnd()
      requires Valid()
      modifies this
      ensures Valid()
      ensures IsShowing() == !old(IsShowing())
      ensures visibility == (if old(IsShowing()) then Gone else Visible)
      ensures iconShown == old(iconShown) && tools == old(tools) && toolsLayout == old(toolsLayout)
      ensures isSubtitleDisplayed == old(isSubtitleDisplayed) && menu == old(menu)
    {
      visibility := if IsShowing() then Gone else Visible;
    }
  }

  /** The first setLogo on a new bar, while the logo is not used, replaces
      the activity's icon in the icon view by the up arrow. */
  method SetLogoShowsUpArrow(moreButton: ViewId, upImage: Drawable, activityIcon: Drawable, logo: Drawable)
    returns (shown: Option<Drawable>)
    requires upImage != activityIcon
    ensures shown == Some(upImage) && shown != Some(activityIcon)
  {
    var bar := new ActionBarDrawer(moreButton, upImage, Some(activityIcon), None);
    assert bar.iconShown == Some(activityIcon);
    bar.SetLogo(Some(logo));
    shown := bar.iconShown;
  }

  // ------------------------------------------------------------ tool clicks

  /** A tool's view keeps the id addTool gave it, the number of tools at
      the time, while removeTool shrinks the map: once the first of two
      tools is removed, a click on the second one's view asks for
      position 1 of a one-element key array and throws. */
  method ClickAfterRemovalThrows() returns (r: Result<Option<int>>)
    ensures r == Throws(IndexOutOfBounds)
  {
    var bar := new ActionBarDrawer(0, 0, None, None);
    var first := bar.AddTool(0);
    var second := bar.AddTool(1);
    bar.RemoveTool(0);
    r := bar.OnClick(ToolButton(second));
  }

  /** The tool whose view was clicked: what onClick evidently means to
      call, found by the view rather than by its id. */
  ghost function ClickedTool(tools: map<Tool, ToolView>, view: ToolView): (r: Option<Tool>)
    ensures r.Some? <==> view in tools.Values
    ensures r.Some? ==> r.value in tools && tools[r.value] == view
  {
    if view in tools.Values then
      var t :| t in tools && tools[t] == view; Some(t)
    else None
  }

  /** With no two tools sharing a view, the clicked view names one tool;
      removing any other tool, or adding one, leaves that tool the one a
      click on the view reaches. */
  lemma ClickedToolSurvivesChanges(tools: map<Tool, ToolView>, layout: seq<ToolView>, created: nat,
                                   view: ToolView, t: Tool, other: Tool)
    requires ToolViewsLaidOut(tools, layout, created)
    requires t in tools && tools[t] == view && other != t
    ensures ClickedTool(tools, view) == Some(t)
    ensures ClickedTool(tools - {other}, view) == Some(t)
    ensures ClickedTool(tools[other := ToolView(created, |tools|)], view) == Some(t)
  {
    var removed := tools - {other};
    assert tools[t] == removed[t];
    var added := tools[other := ToolView(created, |tools|)];
    assert view in layout && view.serial < created;
    assert added[t] == view;
  }

}
