// The open/closed and selection state of a `Dropdown` from dropdown.js.
// `DState` is the abstract value of a dropdown; the step functions say what
// each public operation does to it, and the class `Dropdown` implements the
// operations on fields and is specified by those functions.

module Widget {
  import opened Layout

  /** Row height used when the constructor is given none (or 0). */
  const DEFAULT_DROPDOWN_HEIGHT: int := 30

  datatype Option<T> = None | Some(value: T) {
    function GetOr(default: T): T {
      if Some? then value else default
    }
  }

  /** How a call that may throw ends. */
  datatype Outcome = Done | Thrown(message: string)

  /** The dropdown's state. `resizeHandlers` counts the bindings of the resize
      callback on the window; `attached` says whether the menu and its
      shielding are in the document. */
  datatype DState = DState(
    options: seq<string>,
    selected: int,
    height: int,
    menu: Option<Placement>,
    resizeHandlers: nat,
    attached: bool
  )

  /** The JavaScript value `height || DEFAULT_DROPDOWN_HEIGHT`; `None` is an omitted argument. */
  function HeightOrDefault(height: Option<int>): int {
    if height.None? || height.value == 0 then DEFAULT_DROPDOWN_HEIGHT else height.value
  }

  /** What holds between public calls: the resize callback is bound once while
      the menu is open and not at all while it is closed, the menu is in the
      document exactly while open, and an open menu has options and was laid
      out for all of them. */
  ghost predicate Inv(s: DState) {
    s.resizeHandlers == (if s.menu.Some? then 1 else 0)
    && s.attached == s.menu.Some?
    && (s.menu.Some? ==> |s.options| > 0
                         && s.menu.value.requestedHeight == |s.options| * s.height)
  }

  /** `Array.prototype.indexOf` on a list of strings. */
  function IndexOf(s: seq<string>, v: string): (r: int)
    ensures -1 <= r < |s|
    ensures r == -1 <==> v !in s
    ensures r >= 0 ==> s[r] == v && forall j :: 0 <= j < r ==> s[j] != v
    decreases |s|
  {
    if s == [] then -1
    else if s[0] == v then 0
    else
      var k := IndexOf(s[1..], v);
      if k == -1 then -1 else k + 1
  }

  /** A fresh dropdown: no options, index 0, closed. */
  function Created(height: Option<int>): DState {
    DState([], 0, HeightOrDefault(height), None, 0, false)
  }

  function ShowStep(s: DState, g: Geometry): DState {
    if s.menu.Some? || |s.options| == 0 then s
    else s.(menu := Some(Initial(g, s.height, |s.options|)),
            attached := true,
            resizeHandlers := s.resizeHandlers + 1)
  }

  /** Unbinding the callback by name removes every binding of it. */
  function HideStep(s: DState): DState {
    if s.menu.None? then s
    else s.(menu := None, attached := false, resizeHandlers := 0)
  }

  /** No bounds check: the emptiness guard of the source compares the list
      with the number 0 and never holds. */
  function SetSelectedStep(s: DState, index: int): DState {
    s.(selected := index)
  }

  /** `selected || 0` for an integer argument or none. */
  function SetOptionsStep(s: DState, list: seq<string>, selected: Option<int>): (DState, Outcome) {
    if s.menu.Some? then (s, Thrown("cannot set options while open"))
    else if |list| == 0 then (s.(options := [], selected := 0), Done)
    else (SetSelectedStep(s.(options := list), selected.GetOr(0)), Done)
  }

  function SetSelectedValueStep(s: DState, v: string): DState {
    var idx := IndexOf(s.options, v);
    if idx >= 0 then SetSelectedStep(s, idx) else s
  }

  /** The click handler of option `index`: hide, select, then report whether
      `onChange` is called (it is, when one is set). */
  function ClickStep(s: DState, index: int, hasOnChange: bool): (DState, bool) {
    if s.menu.Some? then (SetSelectedStep(HideStep(s), index), hasOnChange)
    else (s, false)
  }

  function ResizeStep(s: DState, g: Geometry): DState
    requires s.menu.Some?
  {
    s.(menu := Some(Recompute(s.menu.value, s.height, g)))
  }

  /** `value()`: `None` stands for JavaScript's `undefined`, which an index
      outside the list yields. */
  function NameAt(options: seq<string>, selected: int): Option<string> {
    if |options| == 0 then Some("")
    else if 0 <= selected < |options| then Some(options[selected])
    else None
  }

  function ValueOf(s: DState): Option<string> {
    NameAt(s.options, s.selected)
  }

  // ---------------------------------------------------------------------
  // Traces of calls and events

  datatype Event =
    | Show(g: Geometry)
    | Hide
    | SetOptions(list: seq<string>, selected: Option<int>)
    | SetSelected(index: int)
    | SetSelectedValue(v: string)
    | OptionClick(index: int)
    | WindowResize(g: Geometry)

  /** One call or event. A window resize runs the callback when it is bound. */
  function Step(s: DState, e: Event): (r: DState)
    requires Inv(s)
    ensures Inv(r)
  {
    match e
    case Show(g) => ShowStep(s, g)
    case Hide => HideStep(s)
    case SetOptions(list, sel) => SetOptionsStep(s, list, sel).0
    case SetSelected(i) => SetSelectedStep(s, i)
    case SetSelectedValue(v) => SetSelectedValueStep(s, v)
    case OptionClick(i) => ClickStep(s, i, false).0
    case WindowResize(g) => if s.resizeHandlers > 0 then ResizeStep(s, g) else s
  }

  function Run(s: DState, es: seq<Event>): (r: DState)
    requires Inv(s)
    ensures Inv(r)
    decreases |es|
  {
    if es == [] then s else Run(Step(s, es[0]), es[1..])
  }

  // ---------------------------------------------------------------------
  // Properties of the operations

  lemma CreatedIsClosed(height: Option<int>)
    ensures var s := Created(height);
      Inv(s) && s.menu.None? && s.options == [] && s.selected == 0
      && s.height == (if height == None || height == Some(0) then 30 else height.value)
  {
  }

  /** `show` does nothing when open or without options; otherwise it lays the
      menu out, attaches it and binds the resize callback. */
  lemma ShowSpec(s: DState, g: Geometry)
    requires Inv(s)
    ensures var r := ShowStep(s, g);
      (s.menu.Some? || |s.options| == 0 ==> r == s)
      && (s.menu.None? && |s.options| > 0 ==>
            r == s.(menu := Some(Initial(g, s.height, |s.options|)),
                    attached := true, resizeHandlers := 1))
  {
  }

  /** `hide` does nothing when closed; otherwise it closes, detaches and
      unbinds, keeping the options and the selection. */
  lemma HideSpec(s: DState)
    requires Inv(s)
    ensures var r := HideStep(s);
      (s.menu.None? ==> r == s)
      && (s.menu.Some? ==>
            r == s.(menu := None, attached := false, resizeHandlers := 0))
  {
  }

  lemma SetOptionsSpec(s: DState, list: seq<string>, selected: Option<int>)
    ensures var (r, outcome) := SetOptionsStep(s, list, selected);
      (s.menu.Some? ==> outcome.Thrown? && r == s)
      && (s.menu.None? ==> outcome == Done)
      && (s.menu.None? && list == [] ==> r == s.(options := [], selected := 0))
      && (s.menu.None? && list != [] ==>
            r == s.(options := list,
                    selected := if selected.Some? then selected.value else 0))
  {
  }

  lemma ValueSpec(s: DState)
    ensures var v := ValueOf(s);
      (s.options == [] ==> v == Some(""))
      && (s.options != [] ==> (v.Some? <==> 0 <= s.selected < |s.options|))
      && (v.Some? && s.options != [] ==> v.value == s.options[s.selected])
  {
  }

  /** Selecting by name picks the first option with that name, and makes
      `value()` return it; an absent name changes nothing. */
  lemma SetSelectedValueSpec(s: DState, v: string)
    ensures var r := SetSelectedValueStep(s, v);
      (v !in s.options ==> r == s)
      && (v in s.options ==>
            r == s.(selected := r.selected)
            && 0 <= r.selected < |s.options| && s.options[r.selected] == v
            && (forall j :: 0 <= j < r.selected ==> s.options[j] != v)
            && ValueOf(r) == Some(v))
  {
  }

  /** A click on an option while open leaves the dropdown closed with that
      option selected, and `onChange` called when set; while closed it does
      nothing. */
  lemma ClickSpec(s: DState, index: int, hasOnChange: bool)
    requires Inv(s)
    ensures var (r, fired) := ClickStep(s, index, hasOnChange);
      (s.menu.None? ==> r == s && !fired)
      && (s.menu.Some? ==>
            r == s.(menu := None, attached := false, resizeHandlers := 0, selected := index)
            && fired == hasOnChange)
      && (s.menu.Some? && 0 <= index < |s.options| ==> ValueOf(r) == Some(s.options[index]))
  {
  }

  /** Re-layout on resize keeps the direction and the open state. */
  lemma ResizeSpec(s: DState, g: Geometry)
    requires Inv(s) && s.menu.Some?
    ensures var r := ResizeStep(s, g);
      r.menu.Some? && r.menu.value.down == s.menu.value.down
      && r.menu.value.viewHeight >= 2 * s.height
      && Anchored(r.menu.value, g, s.height)
      && r == s.(menu := r.menu)
  {
  }

  /** Only `show` opens a closed dropdown, and only `hide` or an option click
      closes an open one. */
  lemma OpenCloseEdges(s: DState, e: Event)
    requires Inv(s)
    ensures s.menu.None? && Step(s, e).menu.Some? ==> e.Show? && |s.options| > 0
    ensures s.menu.Some? && Step(s, e).menu.None? ==> e.Hide? || e.OptionClick?
    ensures s.menu.Some? && (e.Hide? || e.OptionClick?) ==> Step(s, e).menu.None?
  {
  }

  /** While the menu stays open (no hide and no option click), whatever else
      happens leaves the options, the direction, the requested height, the
      width and the scroll flag as they were at opening. */
  lemma {:induction false} OpenSessionKeepsLayout(s: DState, es: seq<Event>)
    requires Inv(s) && s.menu.Some?
    requires forall i :: 0 <= i < |es| ==> !es[i].Hide? && !es[i].OptionClick?
    ensures var r := Run(s, es);
      r.menu.Some? && r.options == s.options
      && r.menu.value.down == s.menu.value.down
      && r.menu.value.requestedHeight == s.menu.value.requestedHeight
      && r.menu.value.width == s.menu.value.width
      && r.menu.value.scrolls == s.menu.value.scrolls
    decreases |es|
  {
    if es != [] {
      var s1 := Step(s, es[0]);
      assert s1.menu.Some? && s1.options == s.options && s1.menu.value.down == s.menu.value.down
        && s1.menu.value.requestedHeight == s.menu.value.requestedHeight
        && s1.menu.value.width == s.menu.value.width
        && s1.menu.value.scrolls == s.menu.value.scrolls;
      forall i | 0 <= i < |es[1..]| ensures !es[1..][i].Hide? && !es[1..][i].OptionClick? {
        assert es[1..][i] == es[i + 1];
      }
      OpenSessionKeepsLayout(s1, es[1..]);
    }
  }

  /** After any sequence of calls and events from a fresh dropdown, the resize
      callback is bound at most once, and exactly while the menu is open. */
  lemma {:induction false} NoHandlerLeak(height: Option<int>, es: seq<Event>)
    ensures var r := Run(Created(height), es);
      r.resizeHandlers <= 1
      && (r.resizeHandlers == 1 <==> r.menu.Some?)
      && (r.attached <==> r.menu.Some?)
  {
  }

  // ---------------------------------------------------------------------
  // The `Dropdown` object

  class Dropdown {
    var optionNames: seq<string>
    var selected: int
    const height: int
    /** A change handler is set (`onChange` holds a function). */
    var onChange: bool
    var metrics: Metrics?
    var resizeHandlers: nat
    var attached: bool

    ghost function Model(): DState
      reads this, metrics
    {
      DState(optionNames, selected, height,
             if metrics == null then None else Some(metrics.Current()),
             resizeHandlers, attached)
    }

    ghost predicate Valid()
      reads this, metrics
    {
      Inv(Model()) && (metrics != null ==> metrics.itemHeight == height)
    }

    constructor (height: Option<int>)
      ensures Valid() && Model() == Created(height) && !onChange
    {
      optionNames := [];
      selected := 0;
      this.height := HeightOrDefault(height);
      onChange := false;
      metrics := null;
      resizeHandlers := 0;
      attached := false;
    }

    function IsOpen(): (b: bool)
      reads this, metrics
      requires Valid()
      ensures b <==> Model().menu.Some?
      ensures b == attached && resizeHandlers == (if b then 1 else 0)
    {
      metrics != null
    }

    function Selected(): (i: int)
      reads this, metrics
      ensures i == Model().selected
    {
      selected
    }

    function Value(): (v: Option<string>)
      reads this, metrics
      ensures v == ValueOf(Model())
    {
      NameAt(optionNames, selected)
    }

    method Hide()
      requires Valid()
      modifies this
      ensures Valid() && Model() == HideStep(old(Model()))
      ensures onChange == old(onChange)
    {
      if !IsOpen() {
        return;
      }
      metrics := null;
      attached := false;
      resizeHandlers := 0;
    }

    method Show(g: Geometry)
      requires Valid()
      modifies this
      ensures Valid() && Model() == ShowStep(old(Model()), g)
      ensures onChange == old(onChange)
      ensures metrics != old(metrics) ==> fresh(metrics)
    {
      if IsOpen() || |optionNames| == 0 {
        return;
      }
      metrics := new Metrics(g, height, |optionNames|);
      attached := true;
      resizeHandlers := resizeHandlers + 1;
    }

    method SetSelected(index: int)
      requires Valid()
      modifies this
      ensures Valid() && Model() == SetSelectedStep(old(Model()), index)
      ensures metrics == old(metrics) && onChange == old(onChange)
    {
      selected := index;
    }

    method SetOptions(list: seq<string>, selected: Option<int>) returns (outcome: Outcome)
      requires Valid()
      modifies this
      ensures Valid() && (Model(), outcome) == SetOptionsStep(old(Model()), list, selected)
      ensures metrics == old(metrics) && onChange == old(onChange)
    {
      if IsOpen() {
        return Thrown("cannot set options while open");
      }
      if |list| == 0 {
        optionNames := [];
        this.selected := 0;
        return Done;
      }
      optionNames := list;
      SetSelected(selected.GetOr(0));
      outcome := Done;
    }

    method SetSelectedValue(v: string)
      requires Valid()
      modifies this
      ensures Valid() && Model() == SetSelectedValueStep(old(Model()), v)
      ensures metrics == old(metrics) && onChange == old(onChange)
    {
      var idx := IndexOf(optionNames, v);
      if idx >= 0 {
        SetSelected(idx);
      }
    }

    /** The click handler bound to option `index`; `changed` says whether
        `onChange` was called. */
    method OptionClicked(index: int) returns (changed: bool)
      requires Valid()
      modifies this
      ensures Valid() && (Model(), changed) == ClickStep(old(Model()), index, old(onChange))
      ensures onChange == old(onChange)
    {
      changed := false;
      if IsOpen() {
        Hide();
        SetSelected(index);
        if onChange {
          changed := true;
        }
      }
    }

    /** The resize callback; it is bound only while the menu is open. */
    method Resize(g: Geometry)
      requires Valid() && IsOpen()
      modifies metrics
      ensures Valid() && Model() == ResizeStep(old(Model()), g)
    {
      metrics.Resized(g);
    }
  }
}
