/**
 * The dashboard around the globe: the country whose profile panel is open,
 * and the size of that panel, which the user changes by dragging its
 * lower-left corner. The document's mouse listeners are modelled as the
 * events "move" and "up"; `window.innerHeight` is read by each move and is
 * a parameter of it.
 */
module Dashboard {
  import opened Wrappers

  datatype Size = Size(width: int, height: int)
  datatype Point = Point(x: int, y: int)

  const MinWidth := 300
  const MaxWidth := 800
  const MinHeight := 300
  /** The height left free below the panel. */
  const HeightMargin := 64

  /** The size the panel mounts with. */
  const InitialSize := Size(400, 500)

  /** `Math.max(lo, Math.min(hi, v))`. */
  function Clamp(lo: int, hi: int, v: int): (r: int)
    ensures lo <= r
    ensures r <= hi || r == lo
    ensures lo <= v <= hi ==> r == v
    ensures v < lo ==> r == lo
    ensures hi < v ==> r == if hi < lo then lo else hi
  {
    Max(lo, Min(hi, v))
  }

  lemma ClampMonotone(lo: int, hi: int, v: int, w: int)
    requires v <= w
    ensures Clamp(lo, hi, v) <= Clamp(lo, hi, w)
  {
  }

  /**
   * The size one move gives: dragging left of the start widens the panel,
   * dragging below the start makes it taller.
   */
  function ResizedSize(startSize: Size, startPos: Point, pointer: Point, innerHeight: int): (r: Size)
    ensures MinWidth <= r.width <= MaxWidth
    ensures MinHeight <= r.height
    ensures r.height <= innerHeight - HeightMargin || r.height == MinHeight
  {
    var deltaX := startPos.x - pointer.x;
    var deltaY := pointer.y - startPos.y;
    Size(Clamp(MinWidth, MaxWidth, startSize.width + deltaX),
         Clamp(MinHeight, innerHeight - HeightMargin, startSize.height + deltaY))
  }

  /** Inside the limits the panel follows the pointer exactly. */
  lemma ResizedSizeUnclamped(startSize: Size, startPos: Point, pointer: Point, innerHeight: int)
    requires MinWidth <= startSize.width + (startPos.x - pointer.x) <= MaxWidth
    requires MinHeight <= startSize.height + (pointer.y - startPos.y) <= innerHeight - HeightMargin
    ensures ResizedSize(startSize, startPos, pointer, innerHeight)
      == Size(startSize.width + startPos.x - pointer.x, startSize.height + pointer.y - startPos.y)
  {
  }

  /** Moving the pointer left never narrows the panel; moving it down never shortens it. */
  lemma ResizedSizeMonotone(startSize: Size, startPos: Point, p: Point, q: Point, innerHeight: int)
    requires q.x <= p.x && p.y <= q.y
    ensures ResizedSize(startSize, startPos, p, innerHeight).width
      <= ResizedSize(startSize, startPos, q, innerHeight).width
    ensures ResizedSize(startSize, startPos, p, innerHeight).height
      <= ResizedSize(startSize, startPos, q, innerHeight).height
  {
    ClampMonotone(MinWidth, MaxWidth, startSize.width + (startPos.x - p.x), startSize.width + (startPos.x - q.x));
    ClampMonotone(MinHeight, innerHeight - HeightMargin,
      startSize.height + (p.y - startPos.y), startSize.height + (q.y - startPos.y));
  }

  // ------------------------------------------------------------------
  // The component's state and the events that change it
  // ------------------------------------------------------------------

  /**
   * `selectedCountry` and `panelSize` are React state; `resizing`,
   * `startPos` and `startSize` are the refs the resize handlers share.
   */
  datatype DashState = DashState(
    selectedCountry: Option<string>,
    panelSize: Size,
    resizing: bool,
    startPos: Point,
    startSize: Size)

  const Initial := DashState(None, InitialSize, false, Point(0, 0), Size(0, 0))

  datatype Event =
    | CountryClick(name: string)
    | CloseProfile
    | ResizeStart(down: Point)
    | MouseMove(pointer: Point, innerHeight: int)
    | MouseUp

  function Step(s: DashState, e: Event): (t: DashState) {
    match e
    case CountryClick(name) => s.(selectedCountry := Some(name))
    case CloseProfile => s.(selectedCountry := None)
    case ResizeStart(down) => s.(resizing := true, startPos := down, startSize := s.panelSize)
    case MouseMove(pointer, innerHeight) =>
      if !s.resizing then s
      else s.(panelSize := ResizedSize(s.startSize, s.startPos, pointer, innerHeight))
    case MouseUp => s.(resizing := false)
  }

  function Run(s: DashState, events: seq<Event>): (t: DashState)
    decreases |events|
  {
    if events == [] then s else Run(Step(s, events[0]), events[1..])
  }

  /** `{selectedCountry && …}`: the panel is rendered for a non-empty selected name. */
  predicate PanelShown(s: DashState) {
    s.selectedCountry.Some? && s.selectedCountry.value != ""
  }

  /** A click selects the country, and shows its panel unless the name is empty; closing hides it. */
  lemma SelectionSteps(s: DashState, name: string)
    ensures Step(s, CountryClick(name)).selectedCountry == Some(name)
    ensures PanelShown(Step(s, CountryClick(name))) <==> name != ""
    ensures Step(s, CloseProfile).selectedCountry == None && !PanelShown(Step(s, CloseProfile))
    ensures Step(s, CountryClick(name)).panelSize == s.panelSize
  {
  }

  predicate WithinLimits(size: Size) {
    MinWidth <= size.width <= MaxWidth && MinHeight <= size.height
  }

  /** The panel is within the limits, and so is the size a drag started from. */
  predicate SizeInvariant(s: DashState) {
    WithinLimits(s.panelSize) && (s.resizing ==> WithinLimits(s.startSize))
  }

  /** The dashboard mounts with no panel, a 400 by 500 size and no drag under way. */
  lemma InitialState()
    ensures !PanelShown(Initial) && Initial.panelSize == Size(400, 500) && !Initial.resizing
    ensures SizeInvariant(Initial)
  {
  }

  lemma StepPreservesSize(s: DashState, e: Event)
    requires SizeInvariant(s)
    ensures SizeInvariant(Step(s, e))
  {
  }

  /**
   * Whatever happens, the panel stays between 300 and 800 pixels wide and
   * at least 300 pixels tall.
   */
  lemma {:induction false} RunKeepsSize(s: DashState, events: seq<Event>)
    requires SizeInvariant(s)
    ensures SizeInvariant(Run(s, events))
    decreases |events|
  {
    if events != [] {
      StepPreservesSize(s, events[0]);
      RunKeepsSize(Step(s, events[0]), events[1..]);
    }
  }

  /** After a move while resizing, the height also respects the window. */
  lemma MoveRespectsWindow(s: DashState, pointer: Point, innerHeight: int)
    requires s.resizing
    ensures var t := Step(s, MouseMove(pointer, innerHeight));
      t.panelSize.height <= if innerHeight - HeightMargin < MinHeight then MinHeight else innerHeight - HeightMargin
  {
  }

  /** A move forgets every earlier move: only the drag's start and the pointer count. */
  lemma MoveForgetsEarlierMoves(s: DashState, p: Point, h: int, q: Point, k: int)
    ensures Step(Step(s, MouseMove(p, h)), MouseMove(q, k)) == Step(s, MouseMove(q, k))
  {
  }

  lemma {:induction false} MovesOnly(s: DashState, moves: seq<Event>)
    requires forall i :: 0 <= i < |moves| ==> moves[i].MouseMove?
    requires moves != []
    requires s.resizing
    ensures var last := moves[|moves| - 1];
      Run(s, moves) == s.(panelSize := ResizedSize(s.startSize, s.startPos, last.pointer, last.innerHeight))
    decreases |moves|
  {
    if |moves| > 1 {
      var s1 := Step(s, moves[0]);
      MovesOnly(s1, moves[1..]);
      assert moves[1..][|moves| - 2] == moves[|moves| - 1];
    }
  }

  /** Once the button is up, moves leave the panel as it is. */
  lemma {:induction false} MovesAfterUpAreInert(s: DashState, moves: seq<Event>)
    requires forall i :: 0 <= i < |moves| ==> moves[i].MouseMove?
    ensures Run(Step(s, MouseUp), moves) == Step(s, MouseUp)
    ensures Step(s, MouseUp).panelSize == s.panelSize && !Step(s, MouseUp).resizing
    decreases |moves|
  {
    if moves != [] {
      MovesAfterUpAreInert(s, moves[1..]);
    }
  }

  // ------------------------------------------------------------------
  // The component
  // ------------------------------------------------------------------

  class DashboardView {
    var selectedCountry: Option<string>
    var panelSize: Size
    var isResizing: bool
    var startPos: Point
    var startSize: Size

    function State(): DashState
      reads this
    {
      DashState(selectedCountry, panelSize, isResizing, startPos, startSize)
    }

    /** The panel keeps to 300–800 by at least 300, as `SizeInvariant` says. */
    ghost predicate Valid()
      reads this
    {
      SizeInvariant(State())
    }

    constructor()
      ensures State() == Initial && Valid()
    {
      selectedCountry := None;
      panelSize := InitialSize;
      isResizing := false;
      startPos := Point(0, 0);
      startSize := Size(0, 0);
    }

    method HandleCountryClick(countryName: string)
      requires Valid()
      modifies this
      ensures State() == Step(old(State()), CountryClick(countryName))
      ensures Valid()
    {
      selectedCountry := Some(countryName);
    }

    method HandleCloseProfile()
      requires Valid()
      modifies this
      ensures State() == Step(old(State()), CloseProfile)
      ensures Valid()
    {
      selectedCountry := None;
    }

    method HandleResizeStart(clientX: int, clientY: int)
      requires Valid()
      modifies this
      ensures State() == Step(old(State()), ResizeStart(Point(clientX, clientY)))
      ensures Valid()
    {
      isResizing := true;
      startPos := Point(clientX, clientY);
      startSize := Size(panelSize.width, panelSize.height);
    }

    method HandleMouseMove(clientX: int, clientY: int, innerHeight: int)
      requires Valid()
      modifies this
      ensures State() == Step(old(State()), MouseMove(Point(clientX, clientY), innerHeight))
      ensures Valid()
    {
      if !isResizing {
        return;
      }
      var deltaX := startPos.x - clientX;
      var deltaY := clientY - startPos.y;
      var newWidth := Max(MinWidth, Min(MaxWidth, startSize.width + deltaX));
      var newHeight := Max(MinHeight, Min(innerHeight - HeightMargin, startSize.height + deltaY));
      panelSize := Size(newWidth, newHeight);
    }

    method HandleMouseUp()
      requires Valid()
      modifies this
      ensures State() == Step(old(State()), MouseUp)
      ensures Valid()
    {
      isResizing := false;
    }
  }

  function Max(a: int, b: int): (r: int)
    ensures r >= a && r >= b && (r == a || r == b)
  {
    if a < b then b else a
  }

  function Min(a: int, b: int): (r: int)
    ensures r <= a && r <= b && (r == a || r == b)
  {
    if a < b then a else b
  }
}
