/** app/ActionBar.java: the second action bar, added as content view of an
    activity. An up button group (up arrow, icon, title and subtitle) that
    finishes the activity when touched, a tool container, a progress view,
    and a show and a hide animation. */
module ActionBars {
  import opened JavaLang
  import opened Views
  import opened Colors
  import ActionBarDrawers

  /** The four colours of an ActionBar.Style. */
  datatype BarStyle = BarStyle(background: Color, divider: Color, defaultItem: Color, pressedItem: Color)

  /** The alpha TouchController gives the pressed colour. */
  const PRESSED_ALPHA: Channel := 0x40

  // ------------------------------------------------------------ touch feedback

  /** TouchController.onStateChange: the up button group is pressed when
      state_pressed is among the states, and then takes the pressed item
      colour at alpha 0x40 as background, else transparent. */
  method OnStateChange(stateSet: seq<int>, style: BarStyle) returns (isPressed: bool, background: Color)
    ensures isPressed <==> STATE_PRESSED in stateSet
    ensures isPressed ==> && Alpha(background) == PRESSED_ALPHA
                          && Red(background) == Red(style.pressedItem)
                          && Green(background) == Green(style.pressedItem)
                          && Blue(background) == Blue(style.pressedItem)
    ensures !isPressed ==> background == TRANSPARENT
  {
    isPressed := false;
    var i := 0;
    while i < |stateSet|
      invariant 0 <= i <= |stateSet|
      invariant !isPressed ==> STATE_PRESSED !in stateSet[..i]
      invariant isPressed ==> STATE_PRESSED in stateSet
    {
      if stateSet[i] == STATE_PRESSED {
        isPressed := true;
        break;
      }
      i := i + 1;
    }
    assert !isPressed ==> stateSet[..i] == stateSet;
    if isPressed {
      background := SetAlpha(style.pressedItem, PRESSED_ALPHA);
    } else {
      background := TRANSPARENT;
    }
  }

  // ------------------------------------------------------------ more drawable

  /** generateMoreDrawable as written: its loops step by one, so at i = 8
      the second setPixel asks for row 10 of the 10 x 10 bitmap and throws
      IllegalArgumentException. The constructor calls it, so no ActionBar
      can be built. The drawer's three-dot loop, stepping by three, is
      ActionBarDrawers.GenerateMoreImage. */
  method GenerateMoreDrawable(style: BarStyle) returns (r: Result<(seq<seq<int>>, seq<seq<int>>)>)
    ensures r == Throws(IllegalArgument)
  {
    var bitmap := new Bitmap(10, 10);
    // Write j is statement j % 4 of iteration i = j / 4 of the first loop:
    // (4, i + 1), (4, i + 2), (5, i + 1), (5, i + 2).
    var j := 0;
    while j < 36
      invariant 0 <= j <= 33
      invariant bitmap.Valid() && bitmap.width == 10 && bitmap.height == 10
      modifies bitmap.pixels
    {
      var i := j / 4;
      var x := if j % 4 < 2 then 4 else 5;
      var y := i + 1 + j % 2;
      var p := bitmap.SetPixel(x, y, style.pressedItem);
      if p.Throws? {
        return Throws(p.exc);
      }
      j := j + 1;
    }
    assert false;
    r := Throws(IllegalArgument);
  }

  /** The three-dot image the drawer paints fits its bitmap: with the step
      of three, every row the loop writes is below 10. */
  lemma DrawerDotsFit(i: int)
    requires 0 <= i < 9 && i % 3 == 0
    ensures i + 2 < 10
    ensures ActionBarDrawers.MoreDot(4, i + 1) && ActionBarDrawers.MoreDot(4, i + 2)
  {
  }

  // ------------------------------------------------------------ progress

  /** The width update() draws the progress with: the view's width, or the
      screen's while the view has none yet. */
  function UpdateWidth(viewWidth: int32, screenWidth: int32): int32
  {
    if viewWidth == 0 then screenWidth else viewWidth
  }

  /** update()'s progress width as written: width * (current / max), the
      quotient taken first in int arithmetic; a zero maximum throws
      ArithmeticException. */
  function ProgressViewWidth(width: int32, current: int32, max: int32): (r: Result<int32>)
    ensures r.Throws? <==> max == 0
    ensures r.Throws? ==> r.exc == ArithmeticDivideByZero
    ensures 0 <= current < max ==> r == Ok(0)
  {
    if max == 0 then Throws(ArithmeticDivideByZero)
    else if 0 <= current < max then
      EmptyBelowMax(width, current, max);
      Ok(Wrap32(width * Wrap32(JavaDiv(current, max))))
    else Ok(Wrap32(width * Wrap32(JavaDiv(current, max))))
  }

  lemma EmptyBelowMax(width: int32, current: int32, max: int32)
    requires 0 <= current < max
    ensures Wrap32(width * Wrap32(JavaDiv(current, max))) == 0
  {
    assert JavaDiv(current, max) == 0;
    assert Wrap32(0) == 0;
  }

  /** Dividing first makes the bar all or nothing: empty for any progress
      below the maximum, full at it; a zero maximum throws. */
  lemma ProgressViewAllOrNothing(width: int32, current: int32, max: int32)
    requires 0 <= current <= max
    ensures max == 0 ==> ProgressViewWidth(width, current, max) == Throws(ArithmeticDivideByZero)
    ensures current < max ==> ProgressViewWidth(width, current, max) == Ok(0)
    ensures 0 < current == max ==> ProgressViewWidth(width, current, max) == Ok(width)
  {
    if 0 < max {
      var q := JavaDiv(current, max);
      assert q == current / max;
      if current < max {
        assert q == 0;
        assert width * q == 0;
      } else {
        assert q == 1;
        assert width * q == width;
      }
    }
  }

  /** Half-way, the action bar's progress view is empty while the
      drawer's own progress bar (ActionBarDrawers.ProgressWidth) is half
      full. */
  lemma ProgressViewHalfWay()
    ensures ProgressViewWidth(100, 50, 100) == Ok(0)
    ensures ActionBarDrawers.ProgressWidth(50, 100, 100) == Ok(50)
  {
    assert JavaDiv(50, 100) == 0;
    assert JavaDiv(5000, 100) == 50;
  }


  /** ProgressView: a maximum of 1 and no progress to start with; each
      setter stores its value and redraws, which throws on a zero maximum
      after the value is stored. */
  class ProgressView {
    var max: int32
    var current: int32
    /** The right edge of the progress drawable after the last update. */
    var drawnWidth: int32

    constructor (viewWidth: int32, screenWidth: int32)
      ensures max == 1 && current == 0 && drawnWidth == 0
    {
      max := 1;
      current := 0;
      drawnWidth := 0;
      assert ProgressViewWidth(UpdateWidth(viewWidth, screenWidth), 0, 1) == Ok(0);
    }

    method Update(viewWidth: int32, screenWidth: int32) returns (r: Result<()>)
      modifies this
      ensures max == old(max) && current == old(current)
      ensures var w := ProgressViewWidth(UpdateWidth(viewWidth, screenWidth), current, max);
              && (w.Throws? ==> r == Throws(w.exc) && drawnWidth == old(drawnWidth))
              && (w.Ok? ==> r == Ok(()) && drawnWidth == w.value)
    {
      var w := ProgressViewWidth(UpdateWidth(viewWidth, screenWidth), current, max);
      if w.Throws? {
        return Throws(w.exc);
      }
      drawnWidth := w.value;
      r := Ok(());
    }

    /** setMax: the maximum reads back even when the redraw throws. */
    method SetMax(newMax: int32, viewWidth: int32, screenWidth: int32) returns (r: Result<()>)
      modifies this
      ensures max == newMax && current == old(current)
      ensures newMax == 0 <==> r == Throws(ArithmeticDivideByZero)
      ensures newMax == 0 ==> drawnWidth == old(drawnWidth)
      ensures newMax != 0 ==> drawnWidth == ProgressViewWidth(UpdateWidth(viewWidth, screenWidth), current, newMax).value
    {
      max := newMax;
      r := Update(viewWidth, screenWidth);
    }

    /** setProgress: the progress reads back even when the redraw throws. */
    method SetProgress(progress: int32, viewWidth: int32, screenWidth: int32) returns (r: Result<()>)
      modifies this
      ensures current == progress && max == old(max)
      ensures max == 0 <==> r == Throws(ArithmeticDivideByZero)
      ensures max == 0 ==> drawnWidth == old(drawnWidth)
      ensures max != 0 ==> drawnWidth == ProgressViewWidth(UpdateWidth(viewWidth, screenWidth), progress, max).value
    {
      current := progress;
      r := Update(viewWidth, screenWidth);
    }
  }

  // ------------------------------------------------------------ the bar

  /** A Tool, by identity. */
  type Tool = nat

  /** The two animation sets the fading listener tells apart. */
  datatype Animation = ShowAnimation | HideAnimation

  /** The tool container shows exactly the tools' views, each once and
      one per tool, all of them created so far. */
  ghost predicate ToolsShown(tools: map<Tool, nat>, layout: seq<nat>, created: nat)
  {
    && (forall v :: v in layout <==> v in tools.Values)
    && (forall t1, t2 :: t1 in tools && t2 in tools && t1 != t2 ==> tools[t1] != tools[t2])
    && NoRepeats(layout)
    && |layout| == |tools|
    && (forall v :: v in layout ==> v < created)
  }

  /** addTool of a new tool, with a view never created before, keeps the
      container showing exactly the tools. */
  lemma AddedToolShown(tools: map<Tool, nat>, layout: seq<nat>, created: nat, tool: Tool)
    requires ToolsShown(tools, layout, created) && tool !in tools
    ensures ToolsShown(tools[tool := created], layout + [created], created + 1)
  {
    var grown := tools[tool := created];
    assert created !in layout;
    assert grown.Keys == tools.Keys + {tool};
    forall v
      ensures v in layout + [created] <==> v in grown.Values
    {
      if v in tools.Values {
        var t :| t in tools && tools[t] == v;
        assert t != tool && grown[t] == v;
      }
    }
  }

  /** removeTool of a present tool keeps the container showing exactly the
      tools, one fewer. */
  lemma RemovedToolShown(tools: map<Tool, nat>, layout: seq<nat>, created: nat, tool: Tool)
    requires ToolsShown(tools, layout, created) && tool in tools
    ensures ToolsShown(tools - {tool}, Without(layout, tools[tool]), created)
    ensures |tools - {tool}| == |tools| - 1
  {
    var view := tools[tool];
    WithoutNoRepeats(layout, view);
    var remaining := tools - {tool};
    assert remaining.Keys == tools.Keys - {tool};
    forall v
      ensures v in Without(layout, view) <==> v in remaining.Values
    {
      if v in remaining.Values {
        var t :| t in remaining && remaining[t] == v;
        assert tools[t] == v && t != tool;
      }
      if v in layout && v != view {
        var t :| t in tools && tools[t] == v;
        assert t in remaining;
      }
    }
  }

  class ActionBar {
    const style: BarStyle
    const progress: ProgressView
    /** The images of the more button's pressed and default states. */
    const moreImages: (seq<seq<int>>, seq<seq<int>>)
    var rootVisibility: Visibility
    var upButtonVisibility: Visibility
    var upIndicator: Option<Drawable>
    var iconShown: Option<Drawable>
    var appIcon: Option<Drawable>
    var appLogo: Option<Drawable>
    var useLogo: bool
    var title: string
    var subtitle: string
    var subtitleVisibility: Visibility
    /** The title's text size in sp. */
    var titleSize: int
    var progressVisibility: Visibility
    var moreIndicator: Option<Drawable>
    /** tools: each tool's ToolView, by creation number. */
    var tools: map<Tool, nat>
    /** The ToolViews in the tool container, in order. */
    var toolsLayout: seq<nat>
    var viewsCreated: nat
    /** Whether the up button group has finished the activity. */
    var finishRequested: bool

    /** The container shows exactly the tools' views, each once, one per
        tool; the title is large and centred exactly while the subtitle is
        gone. */
    ghost predicate Valid()
      reads this
    {
      && ToolsShown(tools, toolsLayout, viewsCreated)
      && ((subtitleVisibility == Visible && titleSize == 22) || (subtitleVisibility == Gone && titleSize == 25))
    }

    /** The bar the class describes once built. As written the constructor
        stops at generateMoreDrawable (see GenerateMoreDrawable); here the
        more button gets the drawer's three-dot images instead. The up
        arrow is hidden but keeps its space, the icon view shows the
        activity's icon while the kept icon and logo are null, and the
        subtitle is shown under a 22 sp title. */
    constructor (style: BarStyle, upImage: Drawable, activityIcon: Option<Drawable>, viewWidth: int32, screenWidth: int32)
      ensures Valid() && this.style == style && fresh(progress)
      ensures moreImages == (ActionBarDrawers.DotsImage(style.pressedItem), ActionBarDrawers.DotsImage(style.defaultItem))
      ensures progress.max == 1 && progress.current == 0 && progress.drawnWidth == 0
      ensures rootVisibility == Visible && upButtonVisibility == Invisible && upIndicator == Some(upImage)
      ensures iconShown == activityIcon && appIcon == None && appLogo == None && !useLogo
      ensures title == "" && subtitle == "" && subtitleVisibility == Visible && titleSize == 22
      ensures progressVisibility == Visible
      ensures moreIndicator == None && tools == map[] && toolsLayout == [] && viewsCreated == 0
      ensures !finishRequested
    {
      this.style := style;
      var pressedImage, defaultImage := ActionBarDrawers.GenerateMoreImage(style.pressedItem, style.defaultItem);
      moreImages := (pressedImage, defaultImage);
      progress := new ProgressView(viewWidth, screenWidth);
      rootVisibility := Visible;
      upButtonVisibility := Invisible;
      upIndicator := Some(upImage);
      iconShown := activityIcon;
      appIcon := None;
      appLogo := None;
      useLogo := false;
      title := "";
      subtitle := "";
      subtitleVisibility := Visible;
      titleSize := 22;
      progressVisibility := Visible;
      moreIndicator := None;
      tools := map[];
      toolsLayout := [];
      viewsCreated := 0;
      finishRequested := false;
    }

    /** isShowing(): the root is VISIBLE. */
    predicate IsShowing()
      reads this
    {
      rootVisibility == Visible
    }

    /** getToolsCount(). */
    function ToolsCount(): (n: nat)
      requires Valid()
      reads this
      ensures n == |toolsLayout|
    {
      |tools|
    }

    /** addTool: false and nothing changes when the tool is already there;
        otherwise a new view for it goes at the end of the container. */
    method AddTool(tool: Tool) returns (added: bool)
      requires Valid()
      modifies this
      ensures Valid()
      ensures added <==> tool !in old(tools)
      ensures !added ==> tools == old(tools) && toolsLayout == old(toolsLayout)
      ensures added ==> && tools == old(tools)[tool := old(viewsCreated)]
                        && toolsLayout == old(toolsLayout) + [old(viewsCreated)]
                        && ToolsCount() == old(|tools|) + 1
      ensures rootVisibility == old(rootVisibility) && iconShown == old(iconShown) && useLogo == old(useLogo)
      ensures appIcon == old(appIcon) && appLogo == old(appLogo) && title == old(title) && subtitle == old(subtitle)
      ensures subtitleVisibility == old(subtitleVisibility) && titleSize == old(titleSize)
      ensures finishRequested == old(finishRequested)
    {
      if tool in tools {
        return false;
      }
      var view := viewsCreated;
      var grown := tools[tool := view];
      AddedToolShown(tools, toolsLayout, viewsCreated, tool);
      tools := grown;
      toolsLayout := toolsLayout + [view];
      viewsCreated := viewsCreated + 1;
      added := true;
    }

    /** removeTool: false and nothing changes when the tool is absent;
        otherwise its view leaves the container and the tool the map. */
    method RemoveTool(tool: Tool) returns (removed: bool)
      requires Valid()
      modifies this
      ensures Valid()
      ensures removed <==> tool in old(tools)
      ensures !removed ==> tools == old(tools) && toolsLayout == old(toolsLayout)
      ensures removed ==> && tools == old(tools) - {tool}
                          && toolsLayout == Without(old(toolsLayout), old(tools)[tool])
                          && |tools| == old(|tools|) - 1
      ensures viewsCreated == old(viewsCreated)
      ensures rootVisibility == old(rootVisibility) && iconShown == old(iconShown) && useLogo == old(useLogo)
      ensures appIcon == old(appIcon) && appLogo == old(appLogo) && title == old(title) && subtitle == old(subtitle)
      ensures subtitleVisibility == old(subtitleVisibility) && titleSize == old(titleSize)
      ensures finishRequested == old(finishRequested)
    {
      removed := tool in tools;
      if removed {
        var view := tools[tool];
        RemovedToolShown(tools, toolsLayout, viewsCreated, tool);
        toolsLayout := Without(toolsLayout, view);
        tools := tools - {tool};
      }
    }

    /** setDisplayUseLogo: the icon view shows the kept logo or icon. */
    method SetDisplayUseLogo(logo: bool)
      requires Valid()
      modifies this
      ensures Valid()
      ensures useLogo == logo && iconShown == (if logo then appLogo else appIcon)
      ensures appIcon == old(appIcon) && appLogo == old(appLogo)
      ensures rootVisibility == old(rootVisibility) && tools == old(tools) && toolsLayout == old(toolsLayout)
    {
      useLogo := logo;
      iconShown := if logo then appLogo else appIcon;
    }

    /** setIcon: kept, and shown unless the logo is in use. */
    method SetIcon(icon: Option<Drawable>)
      requires Valid()
      modifies this
      ensures Valid()
      ensures appIcon == icon && iconShown == (if useLogo then old(iconShown) else icon)
      ensures useLogo == old(useLogo) && appLogo == old(appLogo)
      ensures rootVisibility == old(rootVisibility) && tools == old(tools) && toolsLayout == old(toolsLayout)
    {
      appIcon := icon;
      if !useLogo {
        iconShown := appIcon;
      }
    }

    /** setLogo: kept, and shown only while the logo is in use. */
    method SetLogo(logo: Option<Drawable>)
      requires Valid()
      modifies this
      ensures Valid()
      ensures appLogo == logo && iconShown == (if useLogo then logo else old(iconShown))
      ensures useLogo == old(useLogo) && appIcon == old(appIcon)
      ensures rootVisibility == old(rootVisibility) && tools == old(tools) && toolsLayout == old(toolsLayout)
    {
      appLogo := logo;
      if useLogo {
        iconShown := appLogo;
      }
    }

    /** setDisplayUpButton: the up arrow is VISIBLE or GONE. */
    method SetDisplayUpButton(show: bool)
      requires Valid()
      modifies this
      ensures Valid()
      ensures upButtonVisibility == ShownOrGone(show)
      ensures rootVisibility == old(rootVisibility) && iconShown == old(iconShown) && tools == old(tools)
      ensures toolsLayout == old(toolsLayout) && subtitleVisibility == old(subtitleVisibility)
    {
      upButtonVisibility := ShownOrGone(show);
    }

    /** setDisplaySubtitle: with the subtitle, a 22 sp title at the top and
        the subtitle VISIBLE; without it, a 25 sp centred title and the
        subtitle GONE. */
    method SetDisplaySubtitle(show: bool)
      requires Valid()
      modifies this
      ensures Valid()
      ensures subtitleVisibility == ShownOrGone(show) && titleSize == (if show then 22 else 25)
      ensures title == old(title) && subtitle == old(subtitle)
      ensures rootVisibility == old(rootVisibility) && iconShown == old(iconShown) && tools == old(tools)
      ensures toolsLayout == old(toolsLayout) && upButtonVisibility == old(upButtonVisibility)
    {
      subtitleVisibility := ShownOrGone(show);
      titleSize := if show then 22 else 25;
    }

    /** setDisplayTaskProgress: the progress view is VISIBLE or GONE. */
    method SetDisplayTaskProgress(show: bool)
      requires Valid()
      modifies this
      ensures Valid()
      ensures progressVisibility == ShownOrGone(show)
      ensures rootVisibility == old(rootVisibility) && iconShown == old(iconShown) && tools == old(tools)
      ensures toolsLayout == old(toolsLayout) && subtitleVisibility == old(subtitleVisibility)
    {
      progressVisibility := ShownOrGone(show);
    }

    /** setUpIndicator: a null drawable is ignored. */
    method SetUpIndicator(indicator: Option<Drawable>)
      requires Valid()
      modifies this
      ensures Valid()
      ensures upIndicator == (if indicator.Some? then indicator else old(upIndicator))
      ensures upButtonVisibility == old(upButtonVisibility) && iconShown == old(iconShown)
      ensures rootVisibility == old(rootVisibility) && tools == old(tools) && toolsLayout == old(toolsLayout)
    {
      if indicator.Some? {
        upIndicator := indicator;
      }
    }

    /** setMoreIndicator: the more button shows the given drawable. */
    method SetMoreIndicator(indicator: Option<Drawable>)
      requires Valid()
      modifies this
      ensures Valid()
      ensures moreIndicator == indicator
      ensures upIndicator == old(upIndicator) && iconShown == old(iconShown)
      ensures rootVisibility == old(rootVisibility) && tools == old(tools) && toolsLayout == old(toolsLayout)
    {
      moreIndicator := indicator;
    }

    method SetTitle(text: string)
      requires Valid()
      modifies this
      ensures Valid()
      ensures title == text && subtitle == old(subtitle) && titleSize == old(titleSize)
      ensures subtitleVisibility == old(subtitleVisibility)
      ensures rootVisibility == old(rootVisibility) && tools == old(tools) && toolsLayout == old(toolsLayout)
    {
      title := text;
    }

    method SetSubtitle(text: string)
      requires Valid()
      modifies this
      ensures Valid()
      ensures subtitle == text && title == old(title) && titleSize == old(titleSize)
      ensures subtitleVisibility == old(subtitleVisibility)
      ensures rootVisibility == old(rootVisibility) && tools == old(tools) && toolsLayout == old(toolsLayout)
    {
      subtitle := text;
    }

    /** A click anywhere on the up button group finishes the activity. */
    method OnUpButtonClick()
      requires Valid()
      modifies this
      ensures Valid() && finishRequested
      ensures rootVisibility == old(rootVisibility) && tools == old(tools) && toolsLayout == old(toolsLayout)
      ensures iconShown == old(iconShown) && title == old(title) && subtitle == old(subtitle)
    {
      finishRequested := true;
    }

    /** The fading listener at the start of an animation: the show
        animation makes the root VISIBLE. */
    method OnAnimationStart(anim: Animation)
      requires Valid()
      modifies this
      ensures Valid()
      ensures rootVisibility == (if anim == ShowAnimation then Visible else old(rootVisibility))
      ensures anim == ShowAnimation ==> IsShowing()
      ensures tools == old(tools) && toolsLayout == old(toolsLayout) && iconShown == old(iconShown)
    {
      if anim == ShowAnimation {
        rootVisibility := Visible;
      }
    }

    /** The fading listener at the end of an animation: the hide animation
        makes the root GONE. */
    method OnAnimationEnd(anim: Animation)
      requires Valid()
      modifies this
      ensures Valid()
      ensures rootVisibility == (if anim == HideAnimation then Gone else old(rootVisibility))
      ensures anim == HideAnimation ==> !IsShowing()
      ensures tools == old(tools) && toolsLayout == old(toolsLayout) && iconShown == old(iconShown)
    {
      if anim == HideAnimation {
        rootVisibility := Gone;
      }
    }

    /** setMaxProgress and getMaxProgress: the progress view redraws at the
        new maximum, or throws on a zero one and keeps its drawn width. */
    method SetMaxProgress(max: int32, viewWidth: int32, screenWidth: int32) returns (r: Result<()>)
      modifies progress
      ensures progress.max == max && progress.current == old(progress.current)
      ensures max == 0 <==> r == Throws(ArithmeticDivideByZero)
      ensures max == 0 ==> progress.drawnWidth == old(progress.drawnWidth)
      ensures max != 0 ==> progress.drawnWidth
                             == ProgressViewWidth(UpdateWidth(viewWidth, screenWidth), old(progress.current), max).value
    {
      r := progress.SetMax(max, viewWidth, screenWidth);
    }

    /** setCurrentProgress and getCurrentProgress: the progress view redraws
        at the new progress, or throws on a zero maximum and keeps its width. */
    method SetCurrentProgress(p: int32, viewWidth: int32, screenWidth: int32) returns (r: Result<()>)
      modifies progress
      ensures progress.current == p && progress.max == old(progress.max)
      ensures progress.max == 0 <==> r == Throws(ArithmeticDivideByZero)
      ensures progress.max == 0 ==> progress.drawnWidth == old(progress.drawnWidth)
      ensures progress.max != 0 ==> progress.drawnWidth
                                      == ProgressViewWidth(UpdateWidth(viewWidth, screenWidth), p, progress.max).value
    {
      r := progress.SetProgress(p, viewWidth, screenWidth);
    }
  }
}
