/** The home screen's decision logic: the collapsible header driven by a
    vertical pan, the two-page pager driven by a horizontal pan and the tab
    buttons, and the date helpers of the countdown. Animated settles are
    modelled by the value they settle to; screen width is a parameter. */
module HomeScreen {

  /** Header height when fully expanded. */
  const TopDashboardHeight: real := 450.0
  /** Header height when collapsed; drags never go below it. */
  const CollapseHeight: real := 110.0
  /** Speed (points per second) beyond which a horizontal fling picks the page. */
  const FlingVelocity: real := 500.0
  /** Milliseconds in a day. */
  const MsPerDay: int := 1000 * 60 * 60 * 24

  // ---------------------------------------------------------------------
  // Date helpers

  /** JavaScript's `%` on integers: the remainder takes the sign of the
      dividend (Dafny's `%` is Euclidean). */
  function JsRem(a: int, b: int): (r: int)
    requires b > 0
    ensures a >= 0 ==> 0 <= r < b
    ensures a < 0 ==> -b < r <= 0
    ensures a >= 0 ==> r == a % b
  {
    if a >= 0 then a % b else -((-a) % b)
  }

  /** English ordinal suffix of a day of the month. */
  function OrdinalSuffix(day: int): (r: string)
    ensures r in {"st", "nd", "rd", "th"}
    ensures 4 <= day <= 20 ==> r == "th"
    ensures day <= 0 ==> r == "th"
  {
    if day > 3 && day < 21 then "th"
    else
      match JsRem(day, 10)
      case 1 => "st"
      case 2 => "nd"
      case 3 => "rd"
      case _ => "th"
  }

  /** The suffixes an English speaker writes for days 1 to 31, listed
      independently of any digit rule. */
  const DaySuffixes: seq<string> :=
    [ "st", "nd", "rd", "th", "th", "th", "th", "th", "th", "th"
    , "th", "th", "th", "th", "th", "th", "th", "th", "th", "th"
    , "st", "nd", "rd", "th", "th", "th", "th", "th", "th", "th"
    , "st" ]

  /** For every day a calendar can produce the digit rule agrees with the
      table: 1st, 2nd, 3rd, 11th, 12th, 13th, 21st, 22nd, 23rd, 31st. */
  lemma OrdinalSuffixCalendarDays(day: int)
    requires 1 <= day <= 31
    ensures OrdinalSuffix(day) == DaySuffixes[day - 1]
  {
    if day <= 20 {
    } else if day < 30 {
      assert JsRem(day, 10) == day - 20;
    } else {
      assert JsRem(day, 10) == day - 30;
    }
  }

  /** Whole days remaining until the target instant, `diff` milliseconds
      away; never negative. */
  function DaysLeft(diff: int): (days: nat)
    ensures diff > 0 ==> days * MsPerDay <= diff < (days + 1) * MsPerDay
    ensures diff <= 0 ==> days == 0
  {
    if diff > 0 then diff / MsPerDay else 0
  }

  // ---------------------------------------------------------------------
  // Vertical pan: the collapsible header

  /** Height while dragging: the drag's start height moved by the finger,
      floored at the collapsed height and not capped above. */
  function DragHeight(startHeight: real, translationY: real): (h: real)
    ensures h >= CollapseHeight
    ensures h == startHeight + translationY <==> startHeight + translationY >= CollapseHeight
    ensures h >= startHeight + translationY
    ensures startHeight + translationY < CollapseHeight ==> h == CollapseHeight
  {
    var candidate := startHeight + translationY;
    if candidate < CollapseHeight then CollapseHeight else candidate
  }

  /** Where the header settles when the finger lifts: a downward fling
      (positive velocity) expands it, anything else, including no velocity
      at all, collapses it. */
  function SettleHeight(velocityY: real): (h: real)
    ensures h == TopDashboardHeight || h == CollapseHeight
    ensures h == TopDashboardHeight <==> velocityY > 0.0
  {
    if velocityY > 0.0 then TopDashboardHeight else CollapseHeight
  }

  /** The keyboard starting to show collapses the header; a keyboard event
      of height zero (hiding) leaves it alone. */
  function HeightOnKeyboardStart(height: real, keyboardHeight: real): (h: real)
    ensures keyboardHeight > 0.0 ==> h == CollapseHeight
    ensures keyboardHeight <= 0.0 ==> h == height
  {
    if keyboardHeight > 0.0 then CollapseHeight else height
  }

  datatype HeaderEvent =
    | PanStart
    | PanUpdate(translationY: real)
    | PanEnd(velocityY: real)
    | KeyboardStart(keyboardHeight: real)

  /** Header state: the shown height and the height captured when the
      current drag began. */
  datatype Header = Header(height: real, startHeight: real)

  const InitialHeader: Header := Header(TopDashboardHeight, 0.0)

  /** One header event. A drag start captures the shown height and moves
      nothing; a drag measures from that captured height, not from the
      current one; only a drag start changes the capture. */
  function HeaderStep(s: Header, e: HeaderEvent): (r: Header)
    ensures e.PanStart? ==> r.height == s.height && r.startHeight == s.height
    ensures !e.PanStart? ==> r.startHeight == s.startHeight
    ensures e.PanUpdate? && s.startHeight + e.translationY >= CollapseHeight ==>
              r.height == s.startHeight + e.translationY
    ensures e.PanUpdate? || e.PanEnd? ==> r.height >= CollapseHeight
    ensures e.PanUpdate? && s.startHeight + e.translationY < CollapseHeight ==> r.height == CollapseHeight
    ensures e.PanEnd? ==> r.height == TopDashboardHeight || r.height == CollapseHeight
    ensures e.PanEnd? ==> (r.height == TopDashboardHeight <==> e.velocityY > 0.0)
    ensures e.KeyboardStart? && e.keyboardHeight > 0.0 ==> r.height == CollapseHeight
    ensures e.KeyboardStart? && e.keyboardHeight <= 0.0 ==> r == s
    ensures HeaderInv(s) ==> HeaderInv(r)
  {
    match e
    case PanStart => s.(startHeight := s.height)
    case PanUpdate(ty) => s.(height := DragHeight(s.startHeight, ty))
    case PanEnd(vy) => s.(height := SettleHeight(vy))
    case KeyboardStart(kh) => s.(height := HeightOnKeyboardStart(s.height, kh))
  }

  function HeaderRun(s: Header, es: seq<HeaderEvent>): Header
    decreases |es|
  {
    if |es| == 0 then s else HeaderRun(HeaderStep(s, es[0]), es[1..])
  }

  /** The header is never shorter than its collapsed height. */
  predicate HeaderInv(s: Header)
  {
    s.height >= CollapseHeight
  }

  lemma {:induction false} HeaderRunKeepsInv(s: Header, es: seq<HeaderEvent>)
    requires HeaderInv(s)
    ensures HeaderInv(HeaderRun(s, es))
    decreases |es|
  {
    if |es| > 0 {
      HeaderRunKeepsInv(HeaderStep(s, es[0]), es[1..]);
    }
  }

  /** Whatever sequence of drags, releases and keyboard events follows the
      first render, the header never becomes shorter than collapsed. */
  lemma HeaderReachableInv(es: seq<HeaderEvent>)
    ensures HeaderRun(InitialHeader, es).height >= CollapseHeight
  {
    HeaderRunKeepsInv(InitialHeader, es);
  }

  /** After a release, the header rests at one of its two heights. */
  lemma {:induction false} HeaderSettlesAtBound(s: Header, es: seq<HeaderEvent>, vy: real)
    ensures var h := HeaderRun(s, es + [PanEnd(vy)]).height;
            h == CollapseHeight || h == TopDashboardHeight
    decreases |es|
  {
    if |es| > 0 {
      assert (es + [PanEnd(vy)])[1..] == es[1..] + [PanEnd(vy)];
      HeaderSettlesAtBound(HeaderStep(s, es[0]), es[1..], vy);
    }
  }

  /** Releasing a collapsed header without velocity leaves it where it is. */
  lemma SettleIdempotent(s: Header)
    requires s.height == CollapseHeight
    ensures HeaderStep(s, PanEnd(0.0)) == s
  {
  }

  // ---------------------------------------------------------------------
  // Horizontal pan: the notes/chat pager

  /** Pager offset while dragging: the start offset moved against the
      finger, clamped to the two pages. */
  function DragOffset(ctxX: real, translationX: real, screenWidth: real): (x: real)
    requires screenWidth >= 0.0
    ensures 0.0 <= x <= screenWidth
    ensures 0.0 <= ctxX - translationX <= screenWidth ==> x == ctxX - translationX
    ensures ctxX - translationX < 0.0 ==> x == 0.0
    ensures ctxX - translationX > screenWidth ==> x == screenWidth
  {
    var next := ctxX - translationX;
    var next := if next < 0.0 then 0.0 else next;
    if next > screenWidth then screenWidth else next
  }

  /** Where the pager settles on release: a fling faster than the threshold
      picks the page by its direction; otherwise the page whose half the
      offset is in, the exact midpoint counting as the first page. */
  function SettleOffset(currentX: real, velocityX: real, screenWidth: real): (x: real)
    ensures x == 0.0 || x == screenWidth
    ensures velocityX < -FlingVelocity ==> x == screenWidth
    ensures velocityX > FlingVelocity ==> x == 0.0
    ensures -FlingVelocity <= velocityX <= FlingVelocity ==>
              (x == screenWidth <==> currentX > screenWidth / 2.0) || screenWidth == 0.0
  {
    if velocityX < -FlingVelocity then screenWidth
    else if velocityX > FlingVelocity then 0.0
    else if currentX > screenWidth / 2.0 then screenWidth
    else 0.0
  }

  /** The offset a tab button animates the pager to. */
  function TabOffset(tabIndex: int, screenWidth: real): (x: real)
    ensures tabIndex == 0 ==> x == 0.0
    ensures tabIndex != 0 ==> x == screenWidth
  {
    if tabIndex == 0 then 0.0 else screenWidth
  }

  /** A tab press lands exactly on a page the release rule also settles
      on: releasing there without velocity leaves the pager where it is. */
  lemma TabOffsetIsSettled(tabIndex: int, screenWidth: real)
    requires screenWidth > 0.0
    ensures var x := TabOffset(tabIndex, screenWidth);
            SettleOffset(x, 0.0, screenWidth) == x
  {
  }

  datatype PagerEvent =
    | PagerPanStart
    | PagerPanUpdate(translationX: real)
    | PagerPanEnd(velocityX: real)
    | TabPress(tabIndex: int)

  /** Pager state: the offset shown and the offset captured when the
      current drag began. */
  datatype Pager = Pager(scrollX: real, ctxX: real)

  /** The pager opens on the second (chat) page. */
  function InitialPager(screenWidth: real): Pager
  {
    Pager(screenWidth, 0.0)
  }

  /** One pager event. A drag start captures the shown offset and moves
      nothing; a drag measures from that captured offset; only a drag start
      changes the capture; a release or a tab press lands on a page. */
  function PagerStep(p: Pager, e: PagerEvent, screenWidth: real): (r: Pager)
    requires screenWidth >= 0.0
    ensures e.PagerPanStart? ==> r.scrollX == p.scrollX && r.ctxX == p.scrollX
    ensures !e.PagerPanStart? ==> r.ctxX == p.ctxX
    ensures e.PagerPanUpdate? && 0.0 <= p.ctxX - e.translationX <= screenWidth ==>
              r.scrollX == p.ctxX - e.translationX
    ensures e.PagerPanUpdate? ==> 0.0 <= r.scrollX <= screenWidth
    ensures e.PagerPanUpdate? && p.ctxX - e.translationX < 0.0 ==> r.scrollX == 0.0
    ensures e.PagerPanUpdate? && p.ctxX - e.translationX > screenWidth ==> r.scrollX == screenWidth
    ensures e.PagerPanEnd? || e.TabPress? ==> r.scrollX == 0.0 || r.scrollX == screenWidth
    ensures e.PagerPanEnd? && e.velocityX < -FlingVelocity ==> r.scrollX == screenWidth
    ensures e.PagerPanEnd? && e.velocityX > FlingVelocity ==> r.scrollX == 0.0
    ensures e.PagerPanEnd? && -FlingVelocity <= e.velocityX <= FlingVelocity && screenWidth > 0.0 ==>
              (r.scrollX == screenWidth <==> p.scrollX > screenWidth / 2.0)
    ensures e.TabPress? ==> r.scrollX == (if e.tabIndex == 0 then 0.0 else screenWidth)
    ensures 0.0 <= p.scrollX <= screenWidth ==> 0.0 <= r.scrollX <= screenWidth
  {
    match e
    case PagerPanStart => p.(ctxX := p.scrollX)
    case PagerPanUpdate(tx) => p.(scrollX := DragOffset(p.ctxX, tx, screenWidth))
    case PagerPanEnd(vx) => p.(scrollX := SettleOffset(p.scrollX, vx, screenWidth))
    case TabPress(i) => p.(scrollX := TabOffset(i, screenWidth))
  }

  function PagerRun(p: Pager, es: seq<PagerEvent>, screenWidth: real): Pager
    requires screenWidth >= 0.0
    decreases |es|
  {
    if |es| == 0 then p else PagerRun(PagerStep(p, es[0], screenWidth), es[1..], screenWidth)
  }

  /** From any state whose offset lies between the two pages, every
      sequence of drags, releases and tab presses keeps it there. */
  lemma {:induction false} PagerRunInRange(p: Pager, es: seq<PagerEvent>, screenWidth: real)
    requires screenWidth >= 0.0
    requires 0.0 <= p.scrollX <= screenWidth
    ensures var q := PagerRun(p, es, screenWidth); 0.0 <= q.scrollX <= screenWidth
    decreases |es|
  {
    if |es| > 0 {
      PagerRunInRange(PagerStep(p, es[0], screenWidth), es[1..], screenWidth);
    }
  }

  lemma PagerReachableInRange(es: seq<PagerEvent>, screenWidth: real)
    requires screenWidth >= 0.0
    ensures var q := PagerRun(InitialPager(screenWidth), es, screenWidth);
            0.0 <= q.scrollX <= screenWidth
  {
    PagerRunInRange(InitialPager(screenWidth), es, screenWidth);
  }
}
