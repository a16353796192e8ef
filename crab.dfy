/**
 * One animated crab per instance (`CrabEntity` of crab.py): its activity
 * flag and process details, the animation counters, and its position and
 * velocity on the screen.
 *
 * The random draws the source takes from `random` are parameters of type
 * `Unit` (a value in [0, 1), what `random.random()` returns), and
 * `random.uniform(a, b)` is `a + (b - a) * u`. The trigonometry the
 * source takes from `math` is a `Trig` record of functions.
 */
module Crab {
  import opened Wrappers
  import opened Text
  import opened Classifier

  /** `CRAB_WIDTH`: the width of every animation line, in columns. */
  const CrabWidth: int := 10

  /** `HEADER_LINES`: the rows at the top of the screen the crabs keep out of. */
  const HeaderLines: int := 3

  /** `CPU_THRESHOLD`: the CPU percentage above which a crab walks. */
  const CpuThreshold: real := 5.0

  /** `SCAN_INTERVAL`: the seconds between two scans. */
  const ScanInterval: real := 3.0

  /** The seven curses colours a crab can have. */
  datatype Colour = Red | Green | Yellow | Blue | Magenta | Cyan | White {
    /** The colour's name, as listed in `COLOR_NAMES`. */
    function Name(): (name: string)
      ensures name in ColorNames
    {
      match this
      case Red => "red"
      case Green => "green"
      case Yellow => "yellow"
      case Blue => "blue"
      case Magenta => "magenta"
      case Cyan => "cyan"
      case White => "white"
    }

    /** `_COLOR_MAP`: the curses colour pair of the colour, numbered 1 to 7 in the order of `COLOR_NAMES`. */
    function Pair(): (pair: nat)
      ensures 1 <= pair <= ColorCount && ColorNames[pair - 1] == Name()
    {
      match this
      case Red => 1
      case Green => 2
      case Yellow => 3
      case Blue => 4
      case Magenta => 5
      case Cyan => 6
      case White => 7
    }
  }

  /** `COLOR_NAMES`: the names of the colours handed out to new crabs, in turn. */
  const ColorNames: seq<string> := ["red", "green", "yellow", "blue", "magenta", "cyan", "white"]
  const Colours: seq<Colour> := [Red, Green, Yellow, Blue, Magenta, Cyan, White]
  const ColorCount: nat := 7

  /**
   * The colour of the `n`-th crab created: the colours of `COLOR_NAMES` in
   * turn, from the first again after the last.
   */
  function ColorFor(n: nat): (color: Colour)
    ensures color.Name() == ColorNames[n % ColorCount]
  {
    assert |Colours| == ColorCount;
    Colours[n % ColorCount]
  }

  const Head: string := " \U{2590}\U{259B}\U{2588}\U{2588}\U{2588}\U{259C}\U{258C}  "
  const Body: string := "\U{259D}\U{259C}\U{2588}\U{2588}\U{2588}\U{2588}\U{2588}\U{259B}\U{2598} "
  const LegsOut: string := "  \U{2598}\U{2598} \U{259D}\U{259D}   "
  const LegsWide: string := " \U{2598}\U{2598}   \U{259D}\U{259D}  "
  const LegsIn: string := "  \U{259D}\U{259D} \U{2598}\U{2598}   "
  const SleepingHead: string := " \U{2590}\U{2588}\U{2588}\U{2588}\U{2588}\U{2588}\U{258C}  "

  /** `WALK_FRAMES`: four frames of three lines. */
  const WalkFrames: seq<seq<string>> := [
    [Head, Body, LegsOut],
    [Head, Body, LegsWide],
    [Head, Body, LegsIn],
    [Head, Body, LegsWide]
  ]

  /** `SLEEP_FRAMES`: two frames of five lines. */
  const SleepFrames: seq<seq<string>> := [
    ["          ", "   z      ", SleepingHead, Body, LegsOut],
    ["      z   ", "     Z    ", SleepingHead, Body, LegsOut]
  ]

  /** The number of walk frames and of sleep frames, and the lines of each. */
  const WalkFrameCount: nat := 4
  const SleepFrameCount: nat := 2
  const WalkLines: nat := 3
  const SleepLines: nat := 5

  /** A draw of `random.random()`. */
  type Unit = u: real | 0.0 <= u < 1.0

  /** `random.uniform(a, b)` for the draw `u`. */
  function Uniform(a: real, b: real, u: Unit): (r: real)
    ensures a < b ==> a <= r < b
    ensures a == b ==> r == a
  {
    var width := b - a;
    ScaledDraw(width, u);
    a + width * u
  }

  /** A draw scaled by a positive width stays below that width. */
  lemma ScaledDraw(width: real, u: Unit)
    ensures width > 0.0 ==> 0.0 <= width * u < width
  {
    if width > 0.0 {
      assert width - width * u == width * (1.0 - u);
    }
  }

  /** The parts of `math` the crabs use: pi, cosine, sine, `atan2` and `hypot`. */
  datatype Trig = Trig(pi: real, cos: real -> real, sin: real -> real,
                       atan2: (real, real) -> real, hypot: (real, real) -> real)
  {
    /** Cosine and sine of `angle` lie on the unit circle. */
    predicate UnitCircleAt(angle: real) {
      cos(angle) * cos(angle) + sin(angle) * sin(angle) == 1.0
    }
  }

  /** The velocity `(cos(angle) * speed, sin(angle) * speed)`. */
  function Velocity(trig: Trig, angle: real, speed: real): (real, real) {
    (trig.cos(angle) * speed, trig.sin(angle) * speed)
  }

  /** A velocity along a point of the unit circle has the given speed. */
  lemma VelocitySpeed(trig: Trig, angle: real, speed: real)
    requires trig.UnitCircleAt(angle)
    ensures var (dx, dy) := Velocity(trig, angle, speed);
      dx * dx + dy * dy == speed * speed
  {
    var c, s := trig.cos(angle), trig.sin(angle);
    calc {
      (c * speed) * (c * speed) + (s * speed) * (s * speed);
      (c * c + s * s) * (speed * speed);
      speed * speed;
    }
  }

  /** The heading drawn for a new or woken crab: `uniform(0, 2 pi)`. */
  function RerollAngle(trig: Trig, u: Unit): real {
    Uniform(0.0, 2.0 * trig.pi, u)
  }

  /** The speed drawn for a new or woken crab: `uniform(0.3, 0.7)`. */
  function RerollSpeed(u: Unit): (speed: real)
    ensures 0.3 <= speed < 0.7
  {
    Uniform(0.3, 0.7, u)
  }

  /** The speed `_jitter` keeps: the current one, clamped to [0.3, 0.7]. */
  function JitterSpeed(current: real): (speed: real)
    ensures 0.3 <= speed <= 0.7
    ensures 0.3 <= current <= 0.7 ==> speed == current
    ensures current < 0.3 ==> speed == 0.3
    ensures current > 0.7 ==> speed == 0.7
  {
    var capped := if 0.7 < current then 0.7 else current;
    if 0.3 < capped then capped else 0.3
  }

  /** The turn `_jitter` adds to the heading: `uniform(-0.4, 0.4)`. */
  function JitterTurn(u: Unit): (turn: real)
    ensures -0.4 <= turn < 0.4
  {
    Uniform(-0.4, 0.4, u)
  }

  /**
   * The velocity after `_jitter` from `(dx, dy)`: the heading turned by a
   * random amount, at the current speed clamped to [0.3, 0.7].
   */
  function Jittered(trig: Trig, dx: real, dy: real, turn: Unit): (real, real) {
    Velocity(trig, trig.atan2(dy, dx) + JitterTurn(turn), JitterSpeed(trig.hypot(dx, dy)))
  }

  /**
   * Where cosine and sine of the new heading lie on the unit circle, the
   * velocity after `_jitter` has a speed between 0.3 and 0.7.
   */
  lemma JitteredSpeed(trig: Trig, dx: real, dy: real, turn: Unit)
    requires trig.UnitCircleAt(trig.atan2(dy, dx) + JitterTurn(turn))
    ensures var (ndx, ndy) := Jittered(trig, dx, dy, turn);
      0.09 <= ndx * ndx + ndy * ndy <= 0.49
  {
    var speed := JitterSpeed(trig.hypot(dx, dy));
    VelocitySpeed(trig, trig.atan2(dy, dx) + JitterTurn(turn), speed);
    assert 0.09 <= speed * speed <= 0.49 by {
      assert 0.3 * 0.3 <= speed * 0.3 <= speed * speed;
      assert speed * speed <= speed * 0.7 <= 0.7 * 0.7;
    }
  }

  /** The largest x of a crab on a screen `w` columns wide. */
  function MaxX(w: int): real {
    (w - CrabWidth) as real
  }

  /** The largest y `_walk` allows: the walk frame's height plus two, and one more row, above the bottom. */
  function WalkMaxY(h: int): real {
    (h - (WalkLines + 2) - 1) as real
  }

  /** The largest y `update_bounds` allows: the sleep frame's height plus two above the bottom. */
  function BoundsMaxY(h: int): real {
    (h - SleepLines - 2) as real
  }

  /** `abs(v)`. */
  function Abs(v: real): (r: real)
    ensures 0.0 <= r && (r == v || r == -v)
  {
    if v < 0.0 then -v else v
  }

  /** `max(a, b)`. */
  function Max(a: real, b: real): (r: real)
    ensures a <= r && b <= r && (r == a || r == b)
  {
    if a < b then b else a
  }

  /** `max(lo, min(v, hi))`. */
  function Clamp(lo: real, hi: real, v: real): (r: real)
    ensures lo <= r
    ensures lo <= hi ==> r <= hi
    ensures lo <= v <= hi ==> r == v
    ensures v < lo ==> r == lo
    ensures lo <= hi < v ==> r == hi
  {
    var m := if v < hi then v else hi;
    if lo < m then m else lo
  }

  /** Clamping twice to the same bounds is clamping once. */
  lemma ClampIdempotent(lo: real, hi: real, v: real)
    ensures Clamp(lo, hi, Clamp(lo, hi, v)) == Clamp(lo, hi, v)
  {
    var r := Clamp(lo, hi, v);
    if lo <= hi {
      assert lo <= r <= hi;
    } else {
      assert r == lo;
    }
  }

  /**
   * `dir_label` as written: the working directory with the home directory
   * replaced by `~` whenever the path starts with the home directory's text.
   */
  function AbbreviateHomeAsWritten(cwd: string, home: string): (shown: string)
    ensures StartsWith(cwd, home) ==> shown == "~" + cwd[|home|..]
    ensures !StartsWith(cwd, home) ==> shown == cwd
  {
    if StartsWith(cwd, home) then "~" + cwd[|home|..] else cwd
  }

  /**
   * A sibling of the home directory whose name extends the home
   * directory's name is shown as if it were inside the home directory.
   */
  lemma AsWrittenSiblingDirectory()
    ensures var home := "/home/" + "bob";
      var cwd := home + "by";
      cwd != home && !StartsWith(cwd, home + "/")
      && AbbreviateHomeAsWritten(cwd, home) == "~by"
  {
    var home := "/home/" + "bob";
    var cwd := home + "by";
    assert cwd[..|home|] == home;
    assert cwd[|home|..] == "by";
    assert cwd[|home|] == 'b';
    assert (home + "/")[|home|] == '/';
  }

  /**
   * `cwd` starts with the text of `home` but is neither `home` nor a path
   * inside it: the one case where the two rules differ.
   */
  predicate SiblingOfHome(cwd: string, home: string) {
    StartsWith(cwd, home) && cwd != home && !StartsWith(cwd, home + "/")
  }

  /**
   * The corrected rule shows what the rule as written shows, except for a
   * sibling of the home directory, which it leaves unchanged.
   */
  lemma AbbreviateHomeAgrees(cwd: string, home: string)
    ensures !SiblingOfHome(cwd, home) ==> AbbreviateHome(cwd, home) == AbbreviateHomeAsWritten(cwd, home)
    ensures SiblingOfHome(cwd, home) ==> AbbreviateHome(cwd, home) == cwd
  {
    if StartsWith(cwd, home + "/") {
      assert cwd[..|home|] == (home + "/")[..|home|] == home;
    }
  }

  /**
   * `dir_label` as intended: the home directory itself becomes `~`, and a
   * path inside it becomes `~/` followed by the rest; any other path is
   * shown unchanged.
   */
  function AbbreviateHome(cwd: string, home: string): (shown: string)
    ensures shown == cwd || (|home| <= |cwd| && shown == "~" + cwd[|home|..])
  {
    if cwd == home || StartsWith(cwd, home + "/") then "~" + cwd[|home|..] else cwd
  }

  /**
   * An abbreviated label names the home directory or a path under it, and
   * the directory is recovered from it; the home directory and every path
   * under it are abbreviated.
   */
  lemma AbbreviateHomeRoundTrip(cwd: string, home: string)
    ensures var shown := AbbreviateHome(cwd, home);
      shown != cwd ==> shown[0] == '~' && cwd == home + shown[1..] && (|shown| == 1 || shown[1] == '/')
    ensures forall rest: string :: cwd == home + "/" + rest ==> AbbreviateHome(cwd, home) == "~/" + rest
    ensures cwd == home ==> AbbreviateHome(cwd, home) == "~"
  {
    var shown := AbbreviateHome(cwd, home);
    if shown != cwd {
      assert shown[1..] == cwd[|home|..];
      if cwd != home {
        assert cwd[..|home| + 1] == home + "/";
        assert cwd[|home|] == '/';
      }
      assert cwd == cwd[..|home|] + cwd[|home|..];
    }
    forall rest: string | cwd == home + "/" + rest
      ensures AbbreviateHome(cwd, home) == "~/" + rest
    {
      assert cwd[..|home| + 1] == home + "/";
      assert cwd[|home|..] == "/" + rest;
    }
  }

  /** The draws one `_walk` may use: a turn for each wall bounce, the chance of a random turn, and that turn. */
  datatype WalkDraws = WalkDraws(xTurn: Unit, yTurn: Unit, chance: Unit, extraTurn: Unit)

  /** The chance per step of a random turn while walking. */
  const TurnChance: real := 0.02

  /** A crab's position and velocity. */
  datatype Motion = Motion(x: real, y: real, dx: real, dy: real)

  /**
   * The left and right walls of `_walk`: a crab left of column 0 is put on
   * it, heads right and turns a little; one right of `maxX` is put on that
   * column, heads left and turns a little.
   */
  function BounceX(trig: Trig, m: Motion, maxX: real, turn: Unit): (r: Motion)
    ensures r.y == m.y
    ensures 0.0 <= maxX ==> 0.0 <= r.x <= maxX
    ensures 0.0 <= m.x <= maxX ==> r == m
    ensures r.x == m.x || r.x == 0.0 || r.x == maxX
  {
    if m.x < 0.0 then
      var v := Jittered(trig, Abs(m.dx), m.dy, turn);
      Motion(0.0, m.y, v.0, v.1)
    else if m.x > maxX then
      var v := Jittered(trig, -Abs(m.dx), m.dy, turn);
      Motion(maxX, m.y, v.0, v.1)
    else m
  }

  /**
   * The top and bottom walls of `_walk`: a crab above the header is put on
   * the first row below it and heads down; one below `maxY` is put on that
   * row (on the header row when the screen is too short) and heads up;
   * either way it turns a little.
   */
  function BounceY(trig: Trig, m: Motion, maxY: real, turn: Unit): (r: Motion)
    ensures r.x == m.x
    ensures HeaderLines as real <= r.y <= Max(HeaderLines as real, maxY)
    ensures HeaderLines as real <= m.y <= maxY ==> r == m
    ensures r.y == m.y || r.y == HeaderLines as real || r.y == Max(HeaderLines as real, maxY)
  {
    var minY := HeaderLines as real;
    if m.y < minY then
      var v := Jittered(trig, m.dx, Abs(m.dy), turn);
      Motion(m.x, minY, v.0, v.1)
    else if m.y > maxY then
      var v := Jittered(trig, m.dx, -Abs(m.dy), turn);
      Motion(m.x, Max(minY, maxY), v.0, v.1)
    else m
  }

  /**
   * The motion of one `_walk` on a `w` by `h` screen: a step by the
   * velocity, the walls, and with chance `TurnChance` a random turn. A
   * crab that stays clear of the walls and draws no turn moves by its
   * velocity and keeps it.
   */
  function WalkMotion(trig: Trig, m: Motion, w: int, h: int, draws: WalkDraws): (r: Motion)
    ensures 0.0 <= MaxX(w) ==> 0.0 <= r.x <= MaxX(w)
    ensures HeaderLines as real <= r.y <= Max(HeaderLines as real, WalkMaxY(h))
    ensures && 0.0 <= m.x + m.dx <= MaxX(w)
            && HeaderLines as real <= m.y + m.dy <= WalkMaxY(h)
            && TurnChance <= draws.chance
            ==> r == Motion(m.x + m.dx, m.y + m.dy, m.dx, m.dy)
  {
    var moved := Motion(m.x + m.dx, m.y + m.dy, m.dx, m.dy);
    var walled := BounceY(trig, BounceX(trig, moved, MaxX(w), draws.xTurn), WalkMaxY(h), draws.yTurn);
    if draws.chance < TurnChance then
      var v := Jittered(trig, walled.dx, walled.dy, draws.extraTurn);
      Motion(walled.x, walled.y, v.0, v.1)
    else walled
  }

  /**
   * Each coordinate after a walk is the moved one when that lies between
   * its walls, and otherwise the wall it went past.
   */
  lemma WalkMotionWalls(trig: Trig, m: Motion, w: int, h: int, draws: WalkDraws)
    ensures var r := WalkMotion(trig, m, w, h, draws);
      && (r.x == 0.0 || r.x == MaxX(w) || r.x == m.x + m.dx)
      && (0.0 <= m.x + m.dx <= MaxX(w) ==> r.x == m.x + m.dx)
      && (m.x + m.dx < 0.0 ==> r.x == 0.0)
      && (0.0 <= m.x + m.dx && MaxX(w) < m.x + m.dx ==> r.x == MaxX(w))
      && (r.y == HeaderLines as real || r.y == Max(HeaderLines as real, WalkMaxY(h)) || r.y == m.y + m.dy)
      && (HeaderLines as real <= m.y + m.dy <= WalkMaxY(h) ==> r.y == m.y + m.dy)
      && (m.y + m.dy < HeaderLines as real ==> r.y == HeaderLines as real)
      && (HeaderLines as real <= m.y + m.dy && WalkMaxY(h) < m.y + m.dy ==> r.y == Max(HeaderLines as real, WalkMaxY(h)))
  {
  }

  /**
   * `WalkMotion` as the steps `_walk` takes one after the other: the move
   * by the velocity, the side walls, the top and bottom walls, and the
   * random turn.
   */
  lemma WalkMotionSteps(trig: Trig, m: Motion, w: int, h: int, draws: WalkDraws,
                        moved: Motion, bounced: Motion, walled: Motion, final: Motion)
    requires moved == Motion(m.x + m.dx, m.y + m.dy, m.dx, m.dy)
    requires bounced == BounceX(trig, moved, MaxX(w), draws.xTurn)
    requires walled == BounceY(trig, bounced, WalkMaxY(h), draws.yTurn)
    requires draws.chance < TurnChance ==>
      final == Motion(walled.x, walled.y, Jittered(trig, walled.dx, walled.dy, draws.extraTurn).0,
                      Jittered(trig, walled.dx, walled.dy, draws.extraTurn).1)
    requires TurnChance <= draws.chance ==> final == walled
    ensures WalkMotion(trig, m, w, h, draws) == final
  {
  }

  /** The figures of a crab that its methods change, as one value. */
  datatype CrabState = CrabState(
    active: bool, cpuPct: real, cwd: string, branch: string,
    walkFrame: nat, sleepFrame: nat, tick: nat, justSlept: bool,
    x: real, y: real, dx: real, dy: real, scrW: int, scrH: int)

  /** The frame indices select existing frames. */
  predicate ValidState(s: CrabState) {
    s.walkFrame < WalkFrameCount && s.sleepFrame < SleepFrameCount
  }

  /** A crab on a `w` by `h` screen, inside the bounds `update_bounds` keeps (right and bottom when the screen leaves room). */
  predicate PlacedState(s: CrabState, w: int, h: int) {
    && ValidState(s)
    && s.scrW == w && s.scrH == h
    && 0.0 <= s.x && (0.0 <= MaxX(w) ==> s.x <= MaxX(w))
    && HeaderLines as real <= s.y && (HeaderLines as real <= BoundsMaxY(h) ==> s.y <= BoundsMaxY(h))
  }

  /** Position, animation counters and screen size are the same in both states. */
  predicate PlaceKept(before: CrabState, after: CrabState) {
    && after.x == before.x && after.y == before.y
    && after.tick == before.tick && after.walkFrame == before.walkFrame && after.sleepFrame == before.sleepFrame
    && after.scrW == before.scrW && after.scrH == before.scrH
  }

  /** The frame shown after `frame` at tick `tick` when the animation moves on every `every` ticks. */
  function NextFrame(frame: nat, tick: nat, every: nat, count: nat): (next: nat)
    requires every > 0 && frame < count
    ensures next < count
  {
    if tick % every == 0 then (frame + 1) % count else frame
  }

  /** A new crab on a `w` by `h` screen, from the draws of `__post_init__`. */
  function SpawnState(w: int, h: int, trig: Trig, ux: Unit, uy: Unit, uAngle: Unit, uSpeed: Unit): (s: CrabState)
    ensures ValidState(s) && !s.active && s.tick == 0 && s.scrW == w && s.scrH == h
  {
    var playW := if w - CrabWidth < 1 then 1 else w - CrabWidth;
    var playH := if h - HeaderLines - 8 < 1 then 1 else h - HeaderLines - 8;
    var v := Velocity(trig, RerollAngle(trig, uAngle), RerollSpeed(uSpeed));
    CrabState(false, 0.0, "?", "", 0, 0, 0, false,
              Uniform(1.0, playW as real, ux), Uniform((HeaderLines + 1) as real, (HeaderLines + 1 + playH) as real, uy),
              v.0, v.1, w, h)
  }

  /**
   * `set_active` on the state `s`: the figures are replaced (directory and
   * branch only when given), a crab waking up draws a new velocity, and
   * the position, counters and screen size stay.
   */
  function SetActiveState(s: CrabState, nowActive: bool, pct: real, newCwd: Option<string>, newBranch: Option<string>,
                          trig: Trig, uAngle: Unit, uSpeed: Unit): (r: CrabState)
    ensures PlaceKept(s, r) && (ValidState(s) ==> ValidState(r))
    ensures r.active == nowActive && r.justSlept == (s.active && !nowActive)
    ensures !(nowActive && !s.active) ==> r.dx == s.dx && r.dy == s.dy
  {
    var v := if nowActive && !s.active then Velocity(trig, RerollAngle(trig, uAngle), RerollSpeed(uSpeed)) else (s.dx, s.dy);
    s.(active := nowActive, cpuPct := pct, cwd := newCwd.GetOr(s.cwd), branch := newBranch.GetOr(s.branch),
       justSlept := s.active && !nowActive, dx := v.0, dy := v.1)
  }

  /** `_walk` on the state `s`. */
  function WalkState(s: CrabState, trig: Trig, draws: WalkDraws): CrabState
    requires ValidState(s)
  {
    var m := WalkMotion(trig, Motion(s.x, s.y, s.dx, s.dy), s.scrW, s.scrH, draws);
    s.(walkFrame := NextFrame(s.walkFrame, s.tick, 3, WalkFrameCount), x := m.x, y := m.y, dx := m.dx, dy := m.dy)
  }

  /**
   * A state that differs from `s` only by the next walk frame and the
   * motion of one walk is `WalkState(s)`.
   */
  lemma WalkStateIs(s: CrabState, r: CrabState, trig: Trig, draws: WalkDraws)
    requires ValidState(s)
    requires r.walkFrame == NextFrame(s.walkFrame, s.tick, 3, WalkFrameCount)
    requires Motion(r.x, r.y, r.dx, r.dy) == WalkMotion(trig, Motion(s.x, s.y, s.dx, s.dy), s.scrW, s.scrH, draws)
    requires && r.active == s.active && r.cpuPct == s.cpuPct && r.cwd == s.cwd && r.branch == s.branch
             && r.sleepFrame == s.sleepFrame && r.tick == s.tick && r.justSlept == s.justSlept
             && r.scrW == s.scrW && r.scrH == s.scrH
    ensures r == WalkState(s, trig, draws)
  {
  }

  /** `_sleep` on the state `s`. */
  function SleepState(s: CrabState): CrabState
    requires ValidState(s)
  {
    s.(sleepFrame := NextFrame(s.sleepFrame, s.tick, 5, SleepFrameCount))
  }

  /** `update` on the state `s`. */
  function UpdateState(s: CrabState, trig: Trig, draws: WalkDraws): CrabState
    requires ValidState(s)
  {
    var t := s.(tick := s.tick + 1);
    if t.active then WalkState(t, trig, draws) else SleepState(t)
  }

  /**
   * `update` moves the tick on by one and keeps the figures; an active crab
   * moves on its walk frame every third tick and stays inside the walls,
   * an idle one moves on its sleep frame every fifth tick and stays put.
   */
  lemma UpdateStateFacts(s: CrabState, trig: Trig, draws: WalkDraws)
    requires ValidState(s)
    ensures var r := UpdateState(s, trig, draws);
      && ValidState(r) && r.tick == s.tick + 1
      && r.active == s.active && r.cpuPct == s.cpuPct && r.cwd == s.cwd && r.branch == s.branch
      && r.justSlept == s.justSlept && r.scrW == s.scrW && r.scrH == s.scrH
      && (s.active ==> && r.walkFrame == NextFrame(s.walkFrame, r.tick, 3, WalkFrameCount)
                       && r.sleepFrame == s.sleepFrame
                       && Motion(r.x, r.y, r.dx, r.dy) == WalkMotion(trig, Motion(s.x, s.y, s.dx, s.dy), s.scrW, s.scrH, draws)
                       && HeaderLines as real <= r.y <= Max(HeaderLines as real, WalkMaxY(s.scrH))
                       && (0.0 <= MaxX(s.scrW) ==> 0.0 <= r.x <= MaxX(s.scrW)))
      && (!s.active ==> && r.sleepFrame == NextFrame(s.sleepFrame, r.tick, 5, SleepFrameCount)
                        && r.walkFrame == s.walkFrame && r.x == s.x && r.y == s.y && r.dx == s.dx && r.dy == s.dy)
  {
  }

  /** `update_bounds(w, h)` on the state `s`. */
  function BoundsState(s: CrabState, w: int, h: int): CrabState {
    s.(scrW := w, scrH := h, x := Clamp(0.0, MaxX(w), s.x), y := Clamp(HeaderLines as real, BoundsMaxY(h), s.y))
  }

  /** One crab's part of a frame of `_main`: `update`, then `update_bounds(w, h)`. */
  function StepState(s: CrabState, w: int, h: int, trig: Trig, draws: WalkDraws): CrabState
    requires ValidState(s)
  {
    BoundsState(UpdateState(s, trig, draws), w, h)
  }

  /**
   * A frame's step keeps a crab's figures and activity, moves its tick on
   * by one and leaves it inside the screen; an active crab keeps its sleep
   * frame, and an idle one keeps its walk frame and velocity and has its
   * position only clamped to the screen.
   */
  lemma StepStateFacts(s: CrabState, w: int, h: int, trig: Trig, draws: WalkDraws)
    requires ValidState(s)
    ensures var r := StepState(s, w, h, trig, draws);
      && PlacedState(r, w, h) && r.tick == s.tick + 1
      && r.active == s.active && r.cpuPct == s.cpuPct && r.cwd == s.cwd && r.branch == s.branch
      && r.justSlept == s.justSlept
      && (s.active ==>
            var m := WalkMotion(trig, Motion(s.x, s.y, s.dx, s.dy), s.scrW, s.scrH, draws);
            && r.walkFrame == NextFrame(s.walkFrame, s.tick + 1, 3, WalkFrameCount) && r.sleepFrame == s.sleepFrame
            && r.dx == m.dx && r.dy == m.dy
            && r.x == Clamp(0.0, MaxX(w), m.x) && r.y == Clamp(HeaderLines as real, BoundsMaxY(h), m.y))
      && (!s.active ==>
            && r.walkFrame == s.walkFrame && r.dx == s.dx && r.dy == s.dy
            && r.x == Clamp(0.0, MaxX(w), s.x) && r.y == Clamp(HeaderLines as real, BoundsMaxY(h), s.y))
  {
  }

  /** `CrabEntity`: one crab. */
  class CrabEntity {
    const pid: int
    const kind: Kind
    const color: Colour
    var active: bool
    var cpuPct: real
    var cwd: string
    var branch: string
    var walkFrame: nat
    var sleepFrame: nat
    var tick: nat
    var justSlept: bool
    var x: real
    var y: real
    var dx: real
    var dy: real
    var scrW: int
    var scrH: int

    /** The frame indices select existing frames. */
    predicate Valid()
      reads this
    {
      walkFrame < WalkFrameCount && sleepFrame < SleepFrameCount
    }

    /** The crab's changing figures as a value. */
    function State(): CrabState
      reads this
    {
      CrabState(active, cpuPct, cwd, branch, walkFrame, sleepFrame, tick, justSlept, x, y, dx, dy, scrW, scrH)
    }

    /** The crab's position and velocity. */
    function Movement(): Motion
      reads this
    {
      Motion(x, y, dx, dy)
    }

    /**
     * A new crab on a `scrW` by `scrH` screen, asleep, at a random place in
     * the play area below the header and heading in a random direction at a
     * random speed.
     */
    constructor(pid: int, kind: Kind, color: Colour, scrW: int, scrH: int,
                trig: Trig, ux: Unit, uy: Unit, uAngle: Unit, uSpeed: Unit)
      ensures Valid()
      ensures this.pid == pid && this.kind == kind && this.color == color
      ensures this.scrW == scrW && this.scrH == scrH
      ensures !active && cpuPct == 0.0 && cwd == "?" && branch == ""
      ensures walkFrame == 0 && sleepFrame == 0 && tick == 0 && !justSlept
      ensures var playW := if scrW - CrabWidth < 1 then 1 else scrW - CrabWidth;
        1.0 <= x <= playW as real
      ensures var playH := if scrH - HeaderLines - 8 < 1 then 1 else scrH - HeaderLines - 8;
        (HeaderLines + 1) as real <= y <= (HeaderLines + 1 + playH) as real
      ensures (dx, dy) == Velocity(trig, RerollAngle(trig, uAngle), RerollSpeed(uSpeed))
      ensures State() == SpawnState(scrW, scrH, trig, ux, uy, uAngle, uSpeed)
    {
      this.pid := pid;
      this.kind := kind;
      this.color := color;
      active := false;
      cpuPct := 0.0;
      cwd := "?";
      branch := "";
      walkFrame := 0;
      sleepFrame := 0;
      tick := 0;
      justSlept := false;
      this.scrW := scrW;
      this.scrH := scrH;
      var playW := if scrW - CrabWidth < 1 then 1 else scrW - CrabWidth;
      var playH := if scrH - HeaderLines - 8 < 1 then 1 else scrH - HeaderLines - 8;
      x := Uniform(1.0, playW as real, ux);
      y := Uniform((HeaderLines + 1) as real, (HeaderLines + 1 + playH) as real, uy);
      var velocity := Velocity(trig, RerollAngle(trig, uAngle), RerollSpeed(uSpeed));
      dx := velocity.0;
      dy := velocity.1;
    }

    /**
     * `set_active`: the activity flag and CPU figure are replaced, the
     * directory and branch only when given; waking up draws a new heading
     * and speed, and `justSlept` records a fall asleep in this call.
     */
    method SetActive(nowActive: bool, pct: real, newCwd: Option<string>, newBranch: Option<string>,
                     trig: Trig, uAngle: Unit, uSpeed: Unit)
      modifies this`active, this`cpuPct, this`cwd, this`branch, this`dx, this`dy, this`justSlept
      ensures active == nowActive && cpuPct == pct
      ensures cwd == newCwd.GetOr(old(cwd)) && branch == newBranch.GetOr(old(branch))
      ensures justSlept == (old(active) && !nowActive)
      ensures nowActive && !old(active) ==> (dx, dy) == Velocity(trig, RerollAngle(trig, uAngle), RerollSpeed(uSpeed))
      ensures !(nowActive && !old(active)) ==> dx == old(dx) && dy == old(dy)
      ensures State() == SetActiveState(old(State()), nowActive, pct, newCwd, newBranch, trig, uAngle, uSpeed)
    {
      var was := active;
      active := nowActive;
      cpuPct := pct;
      if newCwd.Some? {
        cwd := newCwd.value;
      }
      if newBranch.Some? {
        branch := newBranch.value;
      }
      if nowActive && !was {
        var velocity := Velocity(trig, RerollAngle(trig, uAngle), RerollSpeed(uSpeed));
        dx := velocity.0;
        dy := velocity.1;
        justSlept := false;
      }
      if !nowActive && was {
        justSlept := true;
      } else if !(!nowActive && was) {
        justSlept := false;
      }
    }

    /** `update`: one more tick, then a walk step when active and a sleep step otherwise. */
    method Update(trig: Trig, draws: WalkDraws)
      requires Valid()
      modifies this`tick, this`walkFrame, this`sleepFrame, this`x, this`y, this`dx, this`dy
      ensures Valid()
      ensures tick == old(tick) + 1
      ensures active ==> walkFrame == NextFrame(old(walkFrame), tick, 3, WalkFrameCount)
      ensures active ==> sleepFrame == old(sleepFrame)
      ensures !active ==> sleepFrame == NextFrame(old(sleepFrame), tick, 5, SleepFrameCount)
      ensures !active ==> walkFrame == old(walkFrame) && x == old(x) && y == old(y) && dx == old(dx) && dy == old(dy)
      ensures active ==> HeaderLines as real <= y <= Max(HeaderLines as real, WalkMaxY(scrH))
      ensures active && 0.0 <= MaxX(scrW) ==> 0.0 <= x <= MaxX(scrW)
      ensures State() == UpdateState(old(State()), trig, draws)
    {
      tick := tick + 1;
      if active {
        Walk(trig, draws);
      } else {
        Sleep();
      }
      UpdateStateFacts(old(State()), trig, draws);
    }

    /**
     * `_walk`: every third tick the next walk frame; the crab moves by its
     * velocity and is stopped at the walls, turning away from each wall it
     * hits and then turning a little at random; with chance 0.02 it turns a
     * little anyway.
     */
    method Walk(trig: Trig, draws: WalkDraws)
      requires Valid()
      modifies this`walkFrame, this`x, this`y, this`dx, this`dy
      ensures Valid()
      ensures walkFrame == (if tick % 3 == 0 then (old(walkFrame) + 1) % WalkFrameCount else old(walkFrame))
      ensures State() == WalkState(old(State()), trig, draws)
    {
      ghost var before := State();
      if tick % 3 == 0 {
        walkFrame := (walkFrame + 1) % WalkFrameCount;
      }
      Move(trig, draws);
      WalkStateIs(before, State(), trig, draws);
    }

    /**
     * The motion part of `_walk`: a step by the velocity, the walls, and
     * with chance `TurnChance` a random turn.
     */
    method Move(trig: Trig, draws: WalkDraws)
      modifies this`x, this`y, this`dx, this`dy
      ensures Movement() == WalkMotion(trig, old(Movement()), scrW, scrH, draws)
    {
      ghost var before := Movement();
      x := x + dx;
      y := y + dy;
      ghost var moved := Movement();
      WallX(trig, draws.xTurn);
      ghost var bounced := Movement();
      WallY(trig, draws.yTurn);
      ghost var walled := Movement();
      if draws.chance < TurnChance {
        Jitter(trig, draws.extraTurn);
      }
      WalkMotionSteps(trig, before, scrW, scrH, draws, moved, bounced, walled, Movement());
    }

    /**
     * The left and right walls of `_walk`: a crab past a wall is put on it,
     * heads away from it and turns a little at random.
     */
    method WallX(trig: Trig, turn: Unit)
      modifies this`x, this`dx, this`dy
      ensures x == 0.0 || x == MaxX(scrW) || x == old(x)
      ensures 0.0 <= MaxX(scrW) ==> 0.0 <= x <= MaxX(scrW)
      ensures 0.0 <= old(x) <= MaxX(scrW) ==> x == old(x) && dx == old(dx) && dy == old(dy)
      ensures old(x) < 0.0 ==> x == 0.0 && (dx, dy) == Jittered(trig, Abs(old(dx)), old(dy), turn)
      ensures 0.0 <= old(x) && MaxX(scrW) < old(x) ==> x == MaxX(scrW) && (dx, dy) == Jittered(trig, -Abs(old(dx)), old(dy), turn)
      ensures Movement() == BounceX(trig, old(Movement()), MaxX(scrW), turn)
    {
      var maxX := MaxX(scrW);
      if x < 0.0 {
        x := 0.0;
        dx := Abs(dx);
        Jitter(trig, turn);
      } else if x > maxX {
        x := maxX;
        dx := -Abs(dx);
        Jitter(trig, turn);
      }
    }

    /**
     * The top and bottom walls of `_walk`: a crab above the header is put
     * just below it, one below the bottom limit on that limit (or below the
     * header on a screen too short for both); either way it heads away from
     * the wall and turns a little at random.
     */
    method WallY(trig: Trig, turn: Unit)
      modifies this`y, this`dx, this`dy
      ensures HeaderLines as real <= y <= Max(HeaderLines as real, WalkMaxY(scrH))
      ensures HeaderLines as real <= old(y) <= WalkMaxY(scrH) ==> y == old(y) && dx == old(dx) && dy == old(dy)
      ensures old(y) < HeaderLines as real ==> y == HeaderLines as real && (dx, dy) == Jittered(trig, old(dx), Abs(old(dy)), turn)
      ensures HeaderLines as real <= old(y) && WalkMaxY(scrH) < old(y) ==>
        y == Max(HeaderLines as real, WalkMaxY(scrH)) && (dx, dy) == Jittered(trig, old(dx), -Abs(old(dy)), turn)
      ensures Movement() == BounceY(trig, old(Movement()), WalkMaxY(scrH), turn)
    {
      var minY := HeaderLines as real;
      var maxY := WalkMaxY(scrH);
      if y < minY {
        y := minY;
        dy := Abs(dy);
        Jitter(trig, turn);
      } else if y > maxY {
        y := Max(minY, maxY);
        dy := -Abs(dy);
        Jitter(trig, turn);
      }
    }

    /** `_sleep`: every fifth tick the next sleep frame. */
    method Sleep()
      requires Valid()
      modifies this`sleepFrame
      ensures Valid()
      ensures sleepFrame == (if tick % 5 == 0 then (old(sleepFrame) + 1) % SleepFrameCount else old(sleepFrame))
      ensures State() == SleepState(old(State()))
    {
      if tick % 5 == 0 {
        sleepFrame := (sleepFrame + 1) % SleepFrameCount;
      }
    }

    /**
     * `_jitter`: the heading turns by a random amount in [-0.4, 0.4) and the
     * speed is the current one clamped to [0.3, 0.7].
     */
    method Jitter(trig: Trig, turn: Unit)
      modifies this`dx, this`dy
      ensures dx == Jittered(trig, old(dx), old(dy), turn).0
      ensures dy == Jittered(trig, old(dx), old(dy), turn).1
    {
      var speed := JitterSpeed(trig.hypot(dx, dy));
      var angle := trig.atan2(dy, dx) + JitterTurn(turn);
      var velocity := Velocity(trig, angle, speed);
      dx := velocity.0;
      dy := velocity.1;
    }

    /** `update_bounds`: the new screen size, and the position clamped into it. */
    method UpdateBounds(w: int, h: int)
      modifies this`scrW, this`scrH, this`x, this`y
      ensures scrW == w && scrH == h
      ensures x == Clamp(0.0, MaxX(w), old(x))
      ensures y == Clamp(HeaderLines as real, BoundsMaxY(h), old(y))
      ensures State() == BoundsState(old(State()), w, h)
    {
      scrW := w;
      scrH := h;
      var maxX := MaxX(w);
      var maxY := BoundsMaxY(h);
      x := Clamp(0.0, maxX, x);
      y := Clamp(HeaderLines as real, maxY, y);
    }

    /** `get_lines`: the current walk frame when active, the current sleep frame otherwise. */
    function GetLines(): (lines: seq<string>)
      requires Valid()
      reads this
      ensures |lines| == if active then 3 else 5
      ensures forall k | 0 <= k < |lines| :: |lines[k]| == CrabWidth
      ensures active ==> lines == WalkFrames[walkFrame]
      ensures !active ==> lines == SleepFrames[sleepFrame]
    {
      if active then WalkFrames[walkFrame] else SleepFrames[sleepFrame]
    }

    /**
     * `dir_label`, given the home directory, with the separator check of
     * `AbbreviateHome`: it shows what the code as written shows except for
     * a sibling of the home directory whose name extends the home
     * directory's name, and a shortened label gives the directory back.
     */
    function DirLabel(home: string): (shown: string)
      reads this
      ensures shown == cwd || (|home| <= |cwd| && shown == "~" + cwd[|home|..])
      ensures !SiblingOfHome(cwd, home) ==> shown == AbbreviateHomeAsWritten(cwd, home)
      ensures SiblingOfHome(cwd, home) ==> shown == cwd
      ensures shown != cwd ==> shown[0] == '~' && cwd == home + shown[1..]
    {
      AbbreviateHomeAgrees(cwd, home);
      AbbreviateHomeRoundTrip(cwd, home);
      AbbreviateHome(cwd, home)
    }
  }

  /**
   * The frame tables have the shape the counts name: four walk frames of
   * three lines and two sleep frames of five, every line `CrabWidth` wide.
   */
  lemma FrameShapes()
    ensures |WalkFrames| == WalkFrameCount && |SleepFrames| == SleepFrameCount
    ensures forall f | 0 <= f < |WalkFrames| :: |WalkFrames[f]| == WalkLines
    ensures forall f | 0 <= f < |SleepFrames| :: |SleepFrames[f]| == SleepLines
    ensures forall f, k | 0 <= f < |WalkFrames| && 0 <= k < |WalkFrames[f]| :: |WalkFrames[f][k]| == CrabWidth
    ensures forall f, k | 0 <= f < |SleepFrames| && 0 <= k < |SleepFrames[f]| :: |SleepFrames[f][k]| == CrabWidth
  {
  }
}
