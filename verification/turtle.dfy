/**
 A turtle-graphics cursor and the commands the fractal-tree drawer issues to it.

 The turtle computes `forward` with floating-point trigonometry; here it is an
 uninterpreted function `adv` passed in by the caller, so every fact proved
 below holds for whatever geometry the turtle library uses.
 */
module Turtle {

  /** A position on the drawing plane. */
  datatype Point = Point(x: real, y: real)

  /** The pose of the turtle: where it is, which way it faces (degrees),
      and whether its pen touches the paper. */
  datatype Cursor = Cursor(pos: Point, heading: real, penDown: bool)

  /** The turtle commands the drawer uses. */
  datatype Cmd =
    | Forward(distance: real)
    | Left(turn: real)
    | Right(turn: real)
    | PenUp
    | PenDown
    | Goto(target: Point)
    | SetHeading(toHeading: real)

  /** A straight line left on the paper. */
  datatype Segment = Segment(from: Point, to: Point)

  /** Where `forward(len)` takes a turtle standing at `pos` facing `heading`. */
  type Advance = (Point, real, real) -> Point

  /** The effect of one command on the cursor. */
  function Step(adv: Advance, c: Cursor, cmd: Cmd): Cursor
  {
    match cmd
    case Forward(d) => c.(pos := adv(c.pos, c.heading, d))
    case Left(a) => c.(heading := c.heading + a)
    case Right(a) => c.(heading := c.heading - a)
    case PenUp => c.(penDown := false)
    case PenDown => c.(penDown := true)
    case Goto(p) => c.(pos := p)
    case SetHeading(h) => c.(heading := h)
  }

  /** The cursor after executing `cmds` in order from `c`. */
  function Run(adv: Advance, c: Cursor, cmds: seq<Cmd>): Cursor
    decreases |cmds|
  {
    if cmds == [] then c else Run(adv, Step(adv, c, cmds[0]), cmds[1..])
  }

  /** The line one command draws: both `forward` and `goto` draw while the pen is down. */
  function Stroke(adv: Advance, c: Cursor, cmd: Cmd): seq<Segment>
  {
    if !c.penDown then []
    else
      match cmd
      case Forward(d) => [Segment(c.pos, adv(c.pos, c.heading, d))]
      case Goto(p) => [Segment(c.pos, p)]
      case _ => []
  }

  /** Every line drawn while executing `cmds` from `c`, in drawing order. */
  function Ink(adv: Advance, c: Cursor, cmds: seq<Cmd>): seq<Segment>
    decreases |cmds|
  {
    if cmds == [] then [] else Stroke(adv, c, cmds[0]) + Ink(adv, Step(adv, c, cmds[0]), cmds[1..])
  }

  /** Every `forward` runs with the pen down and every `goto` with the pen up:
      branches are drawn and repositioning leaves no mark. */
  predicate PenDiscipline(adv: Advance, c: Cursor, cmds: seq<Cmd>)
    decreases |cmds|
  {
    || cmds == []
    || (&& (cmds[0].Forward? ==> c.penDown)
        && (cmds[0].Goto? ==> !c.penDown)
        && PenDiscipline(adv, Step(adv, c, cmds[0]), cmds[1..]))
  }

  /** The distances of the `forward` commands in `cmds`, in order. */
  function Forwards(cmds: seq<Cmd>): seq<real>
    decreases |cmds|
  {
    if cmds == [] then []
    else (if cmds[0].Forward? then [cmds[0].distance] else []) + Forwards(cmds[1..])
  }

  lemma {:induction false} RunAppend(adv: Advance, c: Cursor, a: seq<Cmd>, b: seq<Cmd>)
    ensures Run(adv, c, a + b) == Run(adv, Run(adv, c, a), b)
    decreases |a|
  {
    if a == [] {
      assert a + b == b;
    } else {
      assert (a + b)[0] == a[0];
      assert (a + b)[1..] == a[1..] + b;
      RunAppend(adv, Step(adv, c, a[0]), a[1..], b);
    }
  }

  lemma {:induction false} InkAppend(adv: Advance, c: Cursor, a: seq<Cmd>, b: seq<Cmd>)
    ensures Ink(adv, c, a + b) == Ink(adv, c, a) + Ink(adv, Run(adv, c, a), b)
    decreases |a|
  {
    if a == [] {
      assert a + b == b;
    } else {
      assert (a + b)[0] == a[0];
      assert (a + b)[1..] == a[1..] + b;
      InkAppend(adv, Step(adv, c, a[0]), a[1..], b);
    }
  }

  lemma {:induction false} PenDisciplineAppend(adv: Advance, c: Cursor, a: seq<Cmd>, b: seq<Cmd>)
    ensures PenDiscipline(adv, c, a + b) <==> PenDiscipline(adv, c, a) && PenDiscipline(adv, Run(adv, c, a), b)
    decreases |a|
  {
    if a == [] {
      assert a + b == b;
    } else {
      assert (a + b)[0] == a[0];
      assert (a + b)[1..] == a[1..] + b;
      PenDisciplineAppend(adv, Step(adv, c, a[0]), a[1..], b);
    }
  }

  lemma {:induction false} ForwardsAppend(a: seq<Cmd>, b: seq<Cmd>)
    ensures Forwards(a + b) == Forwards(a) + Forwards(b)
    decreases |a|
  {
    if a == [] {
      assert a + b == b;
    } else {
      assert (a + b)[0] == a[0];
      assert (a + b)[1..] == a[1..] + b;
      ForwardsAppend(a[1..], b);
    }
  }

  /** Under the pen discipline exactly the `forward` moves leave ink, one line each. */
  lemma {:induction false} DisciplinedInk(adv: Advance, c: Cursor, cmds: seq<Cmd>)
    requires PenDiscipline(adv, c, cmds)
    ensures |Ink(adv, c, cmds)| == |Forwards(cmds)|
    decreases |cmds|
  {
    if cmds != [] {
      DisciplinedInk(adv, Step(adv, c, cmds[0]), cmds[1..]);
    }
  }
}
