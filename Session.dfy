/**
 * The event loop of the annotator (src/main.c:73-134) with the display
 * left out: the state the loop keeps, how each input event changes it,
 * and what a whole session writes into the buffer.
 *
 * `Step` is the specification of one pass of the loop, written on values;
 * `Annotator` is the same state as an object whose handlers update it in
 * place and are proved to agree with `Step`.
 */
module Session {
  import opened Raster
  import Channels
  import opened Line
  import opened Rect

  /** The tool selected with keys 1 and 2. */
  datatype Mode = Draw | Rectangle

  /** The keys the loop reacts to; every other key is `OtherKey`. */
  datatype Key = One | Two | Enter | Escape | OtherKey

  /** An input event, with the pointer position where it has one. */
  datatype Event =
    | Press(x: int, y: int)
    | Motion(x: int, y: int)
    | Release(x: int, y: int)
    | KeyDown(key: Key)

  /** The variables of the loop and the pixel buffer they annotate. */
  datatype State = State(mode: Mode, drawing: bool,
                         lastX: int, lastY: int, startX: int, startY: int,
                         pixels: seq<Byte>)

  /** The state after one event, and whether the loop ends with it. */
  datatype Reaction = Reaction(next: State, quit: bool)

  /**
   * The state the loop starts in. The positions are not initialised in
   * the source; they are 0 here and `PositionsUnreadWhenIdle` shows that
   * their value is never observed before a press sets them.
   */
  function Initial(pixels: seq<Byte>): (st: State)
    ensures st.mode == Draw && !st.drawing && st.pixels == pixels
  {
    State(Draw, false, 0, 0, 0, 0, pixels)
  }

  predicate Quits(e: Event) {
    e == KeyDown(Enter) || e == KeyDown(Escape)
  }

  /**
   * One pass of the loop. The mode is consulted when the pointer moves and
   * when the button is released, never when it is pressed.
   */
  function Step(w: int, h: int, st: State, e: Event): (r: Reaction)
    requires Shape(w, h, |st.pixels|)
    ensures |r.next.pixels| == |st.pixels|
    ensures r.quit <==> Quits(e)
  {
    match e
    case Press(x, y) =>
      Reaction(st.(drawing := true, lastX := x, lastY := y, startX := x, startY := y), false)
    case Motion(x, y) =>
      if st.drawing && st.mode == Draw then
        var line := Brush(LinePath(Segment(st.lastX, st.lastY, x, y)));
        Reaction(st.(pixels := Fill(st.pixels, w, h, line, Ink), lastX := x, lastY := y), false)
      else
        Reaction(st, false)
    case Release(x, y) =>
      if !st.drawing then Reaction(st, false)
      else if st.mode == Rectangle then
        var outline := Outline(st.startX, st.startY, x, y);
        Reaction(st.(pixels := Fill(st.pixels, w, h, outline, Ink), drawing := false), false)
      else
        Reaction(st.(drawing := false), false)
    case KeyDown(k) =>
      match k
      case One => Reaction(st.(mode := Draw), false)
      case Two => Reaction(st.(mode := Rectangle), false)
      case Enter => Reaction(st.(pixels := Channels.SwapRB(st.pixels)), true)
      case Escape => Reaction(st, true)
      case OtherKey => Reaction(st, false)
  }

  /** The points an event paints in state st: a stroke, an outline, or nothing. */
  function PaintedBy(st: State, e: Event): set<Point> {
    match e
    case Motion(x, y) =>
      if st.drawing && st.mode == Draw then Brush(LinePath(Segment(st.lastX, st.lastY, x, y))) else {}
    case Release(x, y) =>
      if st.drawing && st.mode == Rectangle then Outline(st.startX, st.startY, x, y) else {}
    case _ => {}
  }

  /** The loop run over a sequence of events; it stops at the first event that ends it. */
  function Run(w: int, h: int, st: State, evs: seq<Event>): (r: Reaction)
    requires Shape(w, h, |st.pixels|)
    ensures |r.next.pixels| == |st.pixels|
    decreases |evs|
  {
    if evs == [] then Reaction(st, false)
    else
      var r := Step(w, h, st, evs[0]);
      if r.quit then r else Run(w, h, r.next, evs[1..])
  }

  /** Every point painted during a run, up to the event that ends it. */
  function Traced(w: int, h: int, st: State, evs: seq<Event>): set<Point>
    requires Shape(w, h, |st.pixels|)
    decreases |evs|
  {
    if evs == [] then {}
    else
      var r := Step(w, h, st, evs[0]);
      if r.quit then {} else PaintedBy(st, evs[0]) + Traced(w, h, r.next, evs[1..])
  }

  // ---------------------------------------------------------------------
  // Properties of one step
  // ---------------------------------------------------------------------

  /**
   * Except for the export key, every event changes the buffer by painting
   * exactly the points `PaintedBy` names with the annotation colour.
   */
  lemma StepPaints(w: int, h: int, st: State, e: Event)
    requires Shape(w, h, |st.pixels|)
    requires e != KeyDown(Enter)
    ensures Step(w, h, st, e).next.pixels == Fill(st.pixels, w, h, PaintedBy(st, e), Ink)
  {
    if PaintedBy(st, e) == {} {
      FillOutside(st.pixels, w, h, {}, Ink);
    }
  }

  /** Keys 1 and 2 change the mode and nothing else; in particular a stroke in progress goes on. */
  lemma KeysOnlyChangeMode(w: int, h: int, st: State)
    requires Shape(w, h, |st.pixels|)
    ensures Step(w, h, st, KeyDown(One)) == Reaction(st.(mode := Draw), false)
    ensures Step(w, h, st, KeyDown(Two)) == Reaction(st.(mode := Rectangle), false)
  {
  }

  /**
   * The two tools never interfere: pointer motion paints nothing in
   * rectangle mode, a release paints nothing in draw mode, and neither
   * paints unless a press came first.
   */
  lemma ToolsAreSeparate(w: int, h: int, st: State, x: int, y: int)
    requires Shape(w, h, |st.pixels|)
    ensures st.mode == Rectangle || !st.drawing ==>
              Step(w, h, st, Motion(x, y)).next.pixels == st.pixels
    ensures st.mode == Draw || !st.drawing ==>
              Step(w, h, st, Release(x, y)).next.pixels == st.pixels
  {
  }

  /** A press starts a gesture, a release ends it, and no other event touches the flag. */
  lemma DrawingFlag(w: int, h: int, st: State, e: Event)
    requires Shape(w, h, |st.pixels|)
    ensures Step(w, h, st, e).next.drawing ==
            match e
            case Press(_, _) => true
            case Release(_, _) => false
            case _ => st.drawing
  {
  }

  /**
   * The positions are read only while a gesture is in progress: when no
   * gesture is in progress, any values of them give the same buffer, mode,
   * flag and quit decision.
   */
  lemma PositionsUnreadWhenIdle(w: int, h: int, st: State, e: Event, a: int, b: int, c: int, d: int)
    requires Shape(w, h, |st.pixels|) && !st.drawing
    ensures var r := Step(w, h, st, e);
            var r' := Step(w, h, st.(lastX := a, lastY := b, startX := c, startY := d), e);
            r'.next.pixels == r.next.pixels && r'.next.mode == r.next.mode &&
            r'.next.drawing == r.next.drawing && r'.quit == r.quit
  {
  }

  // ---------------------------------------------------------------------
  // Properties of a run
  // ---------------------------------------------------------------------

  /** Until the export key, a run only ever adds annotation colour: its buffer is one fill of the traced points. */
  lemma {:induction false} RunPaints(w: int, h: int, st: State, evs: seq<Event>)
    requires Shape(w, h, |st.pixels|)
    requires forall k | 0 <= k < |evs| :: evs[k] != KeyDown(Enter)
    ensures Run(w, h, st, evs).next.pixels == Fill(st.pixels, w, h, Traced(w, h, st, evs), Ink)
    decreases |evs|
  {
    if evs == [] {
      FillOutside(st.pixels, w, h, {}, Ink);
    } else {
      var e := evs[0];
      var r := Step(w, h, st, e);
      StepPaints(w, h, st, e);
      if r.quit {
        FillOutside(st.pixels, w, h, {}, Ink);
      } else {
        RunPaints(w, h, r.next, evs[1..]);
        FillUnion(st.pixels, w, h, PaintedBy(st, e), Traced(w, h, r.next, evs[1..]), Ink);
      }
    }
  }

  /** Appending an event to a run that has not ended is one more step. */
  lemma {:induction false} RunThen(w: int, h: int, st: State, evs: seq<Event>, e: Event)
    requires Shape(w, h, |st.pixels|)
    requires forall k | 0 <= k < |evs| :: !Quits(evs[k])
    ensures !Run(w, h, st, evs).quit
    ensures Run(w, h, st, evs + [e]) == Step(w, h, Run(w, h, st, evs).next, e)
    decreases |evs|
  {
    if evs != [] {
      var r := Step(w, h, st, evs[0]);
      assert (evs + [e])[1..] == evs[1..] + [e];
      RunThen(w, h, r.next, evs[1..], e);
    }
  }

  /**
   * A whole session: the image is loaded and converted to display order,
   * annotated by events that do not end the loop, and exported with the
   * Enter key. The loop ends, and the exported buffer is the loaded image
   * with red at every traced pixel inside it and every other byte as loaded.
   */
  lemma SessionExport(w: int, h: int, image: seq<Byte>, evs: seq<Event>)
    requires Shape(w, h, |image|)
    requires forall k | 0 <= k < |evs| :: !Quits(evs[k])
    ensures |image| % 4 == 0
    ensures var st := Initial(Channels.SwapRB(image));
            var r := Run(w, h, st, evs + [KeyDown(Enter)]);
            r.quit && r.next.pixels == Fill(image, w, h, Traced(w, h, st, evs), Red)
  {
    assert |image| == 4 * (w * h);
    var st := Initial(Channels.SwapRB(image));
    RunThen(w, h, st, evs, KeyDown(Enter));
    RunPaints(w, h, st, evs);
    Channels.LoadAnnotateExport(image, w, h, Traced(w, h, st, evs));
  }

  /** Escape ends the loop without converting or changing anything. */
  lemma EscapeDiscards(w: int, h: int, st: State, evs: seq<Event>)
    requires Shape(w, h, |st.pixels|)
    requires forall k | 0 <= k < |evs| :: !Quits(evs[k])
    ensures var r := Run(w, h, st, evs + [KeyDown(Escape)]);
            r.quit && r.next == Run(w, h, st, evs).next
  {
    RunThen(w, h, st, evs, KeyDown(Escape));
  }

  // ---------------------------------------------------------------------
  // Gestures
  // ---------------------------------------------------------------------

  /** One event, then the rest of the run. */
  lemma RunCons(w: int, h: int, st: State, e: Event, rest: seq<Event>)
    requires Shape(w, h, |st.pixels|)
    ensures var r := Step(w, h, st, e);
            Run(w, h, st, [e] + rest) == if r.quit then r else Run(w, h, r.next, rest)
  {
    assert ([e] + rest)[1..] == rest;
  }

  /** A click without movement in draw mode paints nothing; the stroke appears only with motion. */
  lemma ClickWithoutMotion(w: int, h: int, s: seq<Byte>, x: int, y: int)
    requires Shape(w, h, |s|)
    ensures Run(w, h, Initial(s), [Press(x, y), Release(x, y)]).next.pixels == s
  {
    var s1 := Step(w, h, Initial(s), Press(x, y)).next;
    RunCons(w, h, Initial(s), Press(x, y), [Release(x, y)]);
    RunCons(w, h, s1, Release(x, y), []);
  }

  /** Press, a motion onto the same pixel and release paint the 3x3 block around it. */
  lemma DotGesture(w: int, h: int, s: seq<Byte>, x: int, y: int)
    requires Shape(w, h, |s|)
    ensures Run(w, h, Initial(s), [Press(x, y), Motion(x, y), Release(x, y)]).next.pixels
            == Fill(s, w, h, Block(x - 1, x + 1, y - 1, y + 1), Ink)
  {
    var s1 := Step(w, h, Initial(s), Press(x, y)).next;
    var s2 := Step(w, h, s1, Motion(x, y)).next;
    RunCons(w, h, Initial(s), Press(x, y), [Motion(x, y), Release(x, y)]);
    RunCons(w, h, s1, Motion(x, y), [Release(x, y)]);
    RunCons(w, h, s2, Release(x, y), []);
    DegenerateLinePaintsStamp(x, y);
  }

  /** In rectangle mode, pointer motions change nothing at all, however many there are. */
  lemma {:induction false} MotionsIdle(w: int, h: int, st: State, evs: seq<Event>)
    requires Shape(w, h, |st.pixels|) && st.mode == Rectangle
    requires forall k | 0 <= k < |evs| :: evs[k].Motion?
    ensures Run(w, h, st, evs) == Reaction(st, false)
    decreases |evs|
  {
    if evs != [] {
      MotionsIdle(w, h, st, evs[1..]);
    }
  }

  /**
   * In rectangle mode, a press at one corner and a release at the other
   * commit the outline, wherever the pointer went between, including not
   * at all.
   */
  lemma RectangleGesture(w: int, h: int, s: seq<Byte>, sx: int, sy: int, ex: int, ey: int, moves: seq<Event>)
    requires Shape(w, h, |s|)
    requires forall k | 0 <= k < |moves| :: moves[k].Motion?
    ensures var st := Initial(s).(mode := Rectangle);
            Run(w, h, st, [Press(sx, sy)] + moves + [Release(ex, ey)]).next.pixels
            == Fill(s, w, h, Outline(sx, sy, ex, ey), Ink)
  {
    var st := Initial(s).(mode := Rectangle);
    var s1 := Step(w, h, st, Press(sx, sy)).next;
    assert [Press(sx, sy)] + moves + [Release(ex, ey)] == [Press(sx, sy)] + (moves + [Release(ex, ey)]);
    RunCons(w, h, st, Press(sx, sy), moves + [Release(ex, ey)]);
    RunThen(w, h, s1, moves, Release(ex, ey));
    MotionsIdle(w, h, s1, moves);
  }

  /**
   * The mode is not fixed when the button goes down: a press in draw mode
   * followed by key 2 and a release commits a rectangle from the press point.
   */
  lemma ModeReadAtRelease(w: int, h: int, s: seq<Byte>, sx: int, sy: int, ex: int, ey: int)
    requires Shape(w, h, |s|)
    ensures Run(w, h, Initial(s), [Press(sx, sy), KeyDown(Two), Release(ex, ey)]).next.pixels
            == Fill(s, w, h, Outline(sx, sy, ex, ey), Ink)
  {
    var s1 := Step(w, h, Initial(s), Press(sx, sy)).next;
    var s2 := Step(w, h, s1, KeyDown(Two)).next;
    RunCons(w, h, Initial(s), Press(sx, sy), [KeyDown(Two), Release(ex, ey)]);
    RunCons(w, h, s1, KeyDown(Two), [Release(ex, ey)]);
    RunCons(w, h, s2, Release(ex, ey), []);
  }

  /**
   * Likewise, a press in rectangle mode followed by key 1 turns the next
   * motion into a stroke from the press point, and the release then paints
   * no outline.
   */
  lemma ModeReadAtMotion(w: int, h: int, s: seq<Byte>, sx: int, sy: int, ex: int, ey: int)
    requires Shape(w, h, |s|)
    ensures var st := Initial(s).(mode := Rectangle);
            Run(w, h, st, [Press(sx, sy), KeyDown(One), Motion(ex, ey), Release(ex, ey)]).next.pixels
            == Fill(s, w, h, Brush(LinePath(Segment(sx, sy, ex, ey))), Ink)
  {
    var st := Initial(s).(mode := Rectangle);
    var s1 := Step(w, h, st, Press(sx, sy)).next;
    var s2 := Step(w, h, s1, KeyDown(One)).next;
    var s3 := Step(w, h, s2, Motion(ex, ey)).next;
    RunCons(w, h, st, Press(sx, sy), [KeyDown(One), Motion(ex, ey), Release(ex, ey)]);
    RunCons(w, h, s1, KeyDown(One), [Motion(ex, ey), Release(ex, ey)]);
    RunCons(w, h, s2, Motion(ex, ey), [Release(ex, ey)]);
    RunCons(w, h, s3, Release(ex, ey), []);
  }

  // ---------------------------------------------------------------------
  // The loop's state as an object
  // ---------------------------------------------------------------------

  /** The loop's variables and the buffer they annotate, updated in place by one handler per event kind. */
  class Annotator {
    const w: int
    const h: int
    const data: array<Byte>
    var mode: Mode
    var drawing: bool
    var lastX: int
    var lastY: int
    var startX: int
    var startY: int

    ghost predicate Valid()
      reads this
    {
      Shape(w, h, data.Length)
    }

    /** The object's state as a value of the specification. */
    ghost function Current(): State
      reads this, data
    {
      State(mode, drawing, lastX, lastY, startX, startY, data[..])
    }

    /** Take over a loaded image in codec order and convert it to display order. */
    constructor (image: array<Byte>, w: int, h: int)
      requires Shape(w, h, image.Length)
      modifies image
      ensures Valid() && data == image && this.w == w && this.h == h
      ensures Current() == Initial(Channels.SwapRB(old(image[..])))
    {
      Channels.SwapChannels(image, w, h);
      this.w := w;
      this.h := h;
      data := image;
      mode := Draw;
      drawing := false;
      lastX, lastY, startX, startY := 0, 0, 0, 0;
    }

    method OnPress(x: int, y: int)
      requires Valid()
      modifies this
      ensures Valid() && Current() == Step(w, h, old(Current()), Press(x, y)).next
    {
      drawing := true;
      lastX, startX := x, x;
      lastY, startY := y, y;
    }

    method OnMotion(x: int, y: int)
      requires Valid()
      modifies this, data
      ensures Valid() && Current() == Step(w, h, old(Current()), Motion(x, y)).next
    {
      if drawing && mode == Draw {
        DrawLine(data, w, h, lastX, lastY, x, y);
        lastX := x;
        lastY := y;
      }
    }

    method OnRelease(x: int, y: int)
      requires Valid()
      modifies this, data
      ensures Valid() && Current() == Step(w, h, old(Current()), Release(x, y)).next
    {
      if drawing {
        if mode == Rectangle {
          CommitRect(data, w, h, startX, startY, x, y);
        }
        drawing := false;
      }
    }

    /** React to a key; the result says whether the loop ends. */
    method OnKey(k: Key) returns (quit: bool)
      requires Valid()
      modifies this, data
      ensures Valid()
      ensures Current() == Step(w, h, old(Current()), KeyDown(k)).next
      ensures quit == Step(w, h, old(Current()), KeyDown(k)).quit
    {
      quit := false;
      if k == One {
        mode := Draw;
      }
      if k == Two {
        mode := Rectangle;
      }
      if k == Enter {
        Channels.SwapChannels(data, w, h);
        quit := true;
        return;
      }
      if k == Escape {
        quit := true;
      }
    }

    /** One pass of the loop: route the event to its handler. */
    method Handle(e: Event) returns (quit: bool)
      requires Valid()
      modifies this, data
      ensures Valid()
      ensures Current() == Step(w, h, old(Current()), e).next
      ensures quit == Step(w, h, old(Current()), e).quit
    {
      quit := false;
      match e {
        case KeyDown(k) => quit := OnKey(k);
        case Press(x, y) => OnPress(x, y);
        case Motion(x, y) => OnMotion(x, y);
        case Release(x, y) => OnRelease(x, y);
      }
    }

    /**
     * The loop itself: handle the events in order until one of them ends
     * the loop or none are left; the result says whether the loop ended.
     */
    method HandleAll(evs: seq<Event>) returns (quit: bool)
      requires Valid()
      modifies this, data
      ensures Valid()
      ensures Current() == Run(w, h, old(Current()), evs).next
      ensures quit == Run(w, h, old(Current()), evs).quit
    {
      ghost var whole := Run(w, h, Current(), evs);
      quit := false;
      var i := 0;
      while i < |evs| && !quit
        invariant 0 <= i <= |evs| && Valid()
        invariant whole == if quit then Reaction(Current(), true) else Run(w, h, Current(), evs[i..])
        decreases |evs| - i
      {
        ghost var before := Current();
        assert evs[i..] == [evs[i]] + evs[i + 1..];
        RunCons(w, h, before, evs[i], evs[i + 1..]);
        quit := Handle(evs[i]);
        i := i + 1;
      }
    }
  }
}
