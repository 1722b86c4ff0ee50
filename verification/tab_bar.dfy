/** The floating tab bar: a pill 45% of the screen wide, divided into one
    unit more than there are tabs, so that the focused tab takes two units
    and each other tab one; a cursor two units wide slides under the focused
    tab. */
module TabBar {
  import opened Wrappers

  const TabBarWidthPercent: real := 0.45
  const Padding: real := 5.0

  /** Navigation options of a route, each possibly undefined. */
  datatype Options = Options(tabBarLabel: Option<string>, title: Option<string>)

  datatype Route = Route(key: string, name: string, options: Options)

  /** Width left for the tabs inside the pill's padding. */
  function InnerWidth(screenWidth: real): real
  {
    screenWidth * TabBarWidthPercent - Padding * 2.0
  }

  /** Number of units the inner width is divided into: one per tab, plus
      one for the focused tab's second unit. */
  function TotalUnits(routeCount: nat): nat
  {
    routeCount + 1
  }

  /** Width of one unit: the units exactly fill the inner width. */
  function UnitWidth(screenWidth: real, routeCount: nat): (u: real)
    ensures u * TotalUnits(routeCount) as real == InnerWidth(screenWidth)
    ensures InnerWidth(screenWidth) >= 0.0 ==> u >= 0.0
  {
    InnerWidth(screenWidth) / TotalUnits(routeCount) as real
  }

  /** The cursor's resting place (its offset from the inner left edge) and
      its width. */
  datatype Cursor = Cursor(x: real, width: real)

  function CursorFor(screenWidth: real, routeCount: nat, stateIndex: int): (c: Cursor)
    ensures c.width == 2.0 * UnitWidth(screenWidth, routeCount)
    ensures c.x + c.width == (stateIndex + 2) as real * UnitWidth(screenWidth, routeCount)
  {
    var u := UnitWidth(screenWidth, routeCount);
    Cursor(stateIndex as real * u, u * 2.0)
  }

  /** For a focused index in range on a pill wide enough to have a
      non-negative inner width, the cursor lies inside the pill, and the
      last tab's cursor reaches its right edge exactly. */
  lemma CursorInsidePill(screenWidth: real, routeCount: nat, stateIndex: int)
    requires InnerWidth(screenWidth) >= 0.0
    requires 0 <= stateIndex < routeCount
    ensures var c := CursorFor(screenWidth, routeCount, stateIndex);
            && 0.0 <= c.x
            && c.x + c.width <= InnerWidth(screenWidth)
            && (stateIndex == routeCount - 1 ==> c.x + c.width == InnerWidth(screenWidth))
  {
    var u := UnitWidth(screenWidth, routeCount);
    var k := (stateIndex + 2) as real;
    var m := TotalUnits(routeCount) as real;
    assert k <= m;
    assert k * u <= m * u by {
      assert (m - k) * u >= 0.0;
    }
  }

  /** The label shown for a route: its `tabBarLabel`, else its `title`,
      else its name. */
  function Label(route: Route): (shown: string)
    ensures route.options.tabBarLabel.Some? ==> shown == route.options.tabBarLabel.value
    ensures route.options.tabBarLabel.None? && route.options.title.Some? ==> shown == route.options.title.value
    ensures route.options.tabBarLabel.None? && route.options.title.None? ==> shown == route.name
  {
    match route.options.tabBarLabel
    case Some(l) => l
    case None =>
      match route.options.title
      case Some(t) => t
      case None => route.name
  }

  /** The first defined value of a list of optional values, else the
      fallback: the meaning of a chain of `!== undefined ? … :` tests. */
  function FirstDefined(candidates: seq<Option<string>>, fallback: string): (v: string)
    ensures v == fallback || exists i :: 0 <= i < |candidates| && candidates[i] == Some(v)
    ensures (forall i :: 0 <= i < |candidates| ==> candidates[i].None?) ==> v == fallback
    decreases |candidates|
  {
    if |candidates| == 0 then fallback
    else if candidates[0].Some? then candidates[0].value
    else FirstDefined(candidates[1..], fallback)
  }

  /** The label is the first defined of `tabBarLabel` and `title`, with
      the route name as the fallback. */
  lemma LabelIsFirstDefined(route: Route)
    ensures Label(route) == FirstDefined([route.options.tabBarLabel, route.options.title], route.name)
  {
  }

  predicate IsFocused(stateIndex: int, index: int)
  {
    stateIndex == index
  }

  /** When the navigator's index is a valid position, exactly one tab is
      focused; otherwise none is. */
  lemma ExactlyOneFocused(stateIndex: int, routeCount: nat)
    ensures 0 <= stateIndex < routeCount ==>
              (set i | 0 <= i < routeCount && IsFocused(stateIndex, i)) == {stateIndex}
    ensures !(0 <= stateIndex < routeCount) ==>
              (set i | 0 <= i < routeCount && IsFocused(stateIndex, i)) == {}
  {
  }

  /** Flex weight of a tab: two units for the focused tab, one otherwise. */
  function Flex(isFocused: bool): (w: nat)
    ensures w == 1 || w == 2
    ensures w == 2 <==> isFocused
  {
    if isFocused then 2 else 1
  }

  function Flexes(stateIndex: int, routeCount: nat): (ws: seq<nat>)
    ensures |ws| == routeCount
    ensures forall i :: 0 <= i < routeCount ==> ws[i] == Flex(IsFocused(stateIndex, i))
  {
    seq(routeCount, i => Flex(IsFocused(stateIndex, i)))
  }

  function Sum(ws: seq<nat>): nat
  {
    if |ws| == 0 then 0 else Sum(ws[..|ws| - 1]) + ws[|ws| - 1]
  }

  /** The tabs' flex weights add up to the unit count the cursor is
      measured in exactly when the focused index is in range; otherwise
      they fall one unit short. */
  lemma {:induction false} FlexWeightsFillUnits(stateIndex: int, routeCount: nat)
    ensures 0 <= stateIndex < routeCount ==> Sum(Flexes(stateIndex, routeCount)) == TotalUnits(routeCount)
    ensures !(0 <= stateIndex < routeCount) ==> Sum(Flexes(stateIndex, routeCount)) == routeCount
  {
    if routeCount > 0 {
      var ws := Flexes(stateIndex, routeCount);
      assert ws[..routeCount - 1] == Flexes(stateIndex, routeCount - 1);
      FlexWeightsFillUnits(stateIndex, routeCount - 1);
    }
  }

  /** Pressing tab `index`: the press event goes to listeners, which may
      prevent the default; the bar navigates to the tab's route only when
      the tab is not already focused and nobody prevented it. The result
      is the name of the route navigated to, if any. */
  function Press(routes: seq<Route>, stateIndex: int, index: nat, defaultPrevented: bool): (r: Option<string>)
    requires index < |routes|
    ensures r.Some? <==> !IsFocused(stateIndex, index) && !defaultPrevented
    ensures r.Some? ==> r.value == routes[index].name
  {
    if !IsFocused(stateIndex, index) && !defaultPrevented then Some(routes[index].name) else None
  }

  /** Pressing the focused tab never navigates. */
  lemma PressFocusedIsInert(routes: seq<Route>, stateIndex: nat, defaultPrevented: bool)
    requires stateIndex < |routes|
    ensures Press(routes, stateIndex, stateIndex, defaultPrevented) == None
  {
  }
}
