/**
 The recursive fractal-tree drawer.

 `DrawTree` is the drawer with value semantics: instead of mutating a shared
 turtle it computes the commands one call issues from the pose it is entered
 with. The saved pose is the one reached after the trunk's `forward`; each child
 is issued from that pose turned by +angle or -angle; after each child the pen
 is lifted, the turtle jumps back to the saved pose and the pen is lowered.
 The lemmas then execute those commands with `Turtle.Run` and prove where the
 turtle is at every hand-over point, so the value-semantics reading and the
 imperative one agree.
 */
module FractalTree {
  import opened Turtle

  /** Branching angle (degrees) and the length factor between a branch and its children. */
  datatype TreeConfig = TreeConfig(angle: real, scale: real)

  const BranchAngle: real := 25.0
  const BranchScale: real := 0.7
  const InitialLength: real := 100.0
  const RecursionDepth: nat := 9
  const Default: TreeConfig := TreeConfig(BranchAngle, BranchScale)

  /** Lift the pen, jump back to the saved pose, lower the pen. */
  function Restore(pos: Point, heading: real): seq<Cmd>
  {
    [PenUp, Goto(pos), SetHeading(heading), PenDown]
  }

  lemma {:induction false} RunRestore(adv: Advance, c: Cursor, pos: Point, heading: real)
    ensures Run(adv, c, Restore(pos, heading)) == Cursor(pos, heading, true)
  {
    var cmds := Restore(pos, heading);
    var c1 := Step(adv, c, PenUp);
    var c2 := Step(adv, c1, Goto(pos));
    var c3 := Step(adv, c2, SetHeading(heading));
    var c4 := Step(adv, c3, PenDown);
    calc {
      Run(adv, c, cmds);
      Run(adv, c1, cmds[1..]);
      Run(adv, c2, cmds[2..]);
      Run(adv, c3, cmds[3..]);
      Run(adv, c4, cmds[4..]);
    }
  }

  lemma {:induction false} RunOne(adv: Advance, c: Cursor, cmd: Cmd)
    ensures Run(adv, c, [cmd]) == Step(adv, c, cmd)
  {
    assert [cmd][1..] == [];
  }

  function Pow2(k: nat): nat
  {
    if k == 0 then 1 else 2 * Pow2(k - 1)
  }

  /** The length of a branch's children. */
  function Scaled(length: real, cfg: TreeConfig): real
  {
    length * cfg.scale
  }

  /** Where the trunk's `forward` leaves the turtle: the pose every child starts from. */
  function Tip(adv: Advance, c: Cursor, length: real): Point
  {
    adv(c.pos, c.heading, length)
  }

  /** The pose the left child starts from: the saved pose turned left. */
  function LeftStart(adv: Advance, cfg: TreeConfig, c: Cursor, length: real): Cursor
  {
    Cursor(Tip(adv, c, length), c.heading + cfg.angle, c.penDown)
  }

  /** The pose the right child starts from: the saved pose, pen down, turned right. */
  function RightStart(adv: Advance, cfg: TreeConfig, c: Cursor, length: real): Cursor
  {
    Cursor(Tip(adv, c, length), c.heading - cfg.angle, true)
  }

  /** The commands of one call with depth left, given its children's commands:
      trunk and left turn, left child, restore and right turn, right child, restore. */
  function Branch(length: real, angle: real, left: seq<Cmd>, back: seq<Cmd>, right: seq<Cmd>): seq<Cmd>
  {
    [Forward(length), Left(angle)] + left + back + [Right(angle)] + right + back
  }

  /** The commands one call of the drawer issues on a branch of `length` with
      `depth` levels left, entered with pose `c`. */
  function DrawTree(adv: Advance, cfg: TreeConfig, c: Cursor, length: real, depth: nat): (trace: seq<Cmd>)
    ensures trace == [] <==> depth == 0
    ensures depth > 0 ==> trace[0] == Forward(length)
    decreases depth
  {
    if depth == 0 then []
    else
      var back := Restore(Tip(adv, c, length), c.heading);
      var left := DrawTree(adv, cfg, LeftStart(adv, cfg, c, length), Scaled(length, cfg), depth - 1);
      var right := DrawTree(adv, cfg, RightStart(adv, cfg, c, length), Scaled(length, cfg), depth - 1);
      Branch(length, cfg.angle, left, back, right)
  }

  /** A call with depth left, in terms of its two children. */
  lemma {:induction false} DrawTreeUnfold(adv: Advance, cfg: TreeConfig, c: Cursor, length: real, depth: nat)
    requires depth > 0
    ensures DrawTree(adv, cfg, c, length, depth)
         == Branch(length, cfg.angle,
                   DrawTree(adv, cfg, LeftStart(adv, cfg, c, length), Scaled(length, cfg), depth - 1),
                   Restore(Tip(adv, c, length), c.heading),
                   DrawTree(adv, cfg, RightStart(adv, cfg, c, length), Scaled(length, cfg), depth - 1))
  {
  }

  lemma {:induction false} RunPre(adv: Advance, cfg: TreeConfig, c: Cursor, length: real)
    ensures Run(adv, c, [Forward(length), Left(cfg.angle)]) == LeftStart(adv, cfg, c, length)
  {
    var cmds := [Forward(length), Left(cfg.angle)];
    var c1 := Step(adv, c, Forward(length));
    var c2 := Step(adv, c1, Left(cfg.angle));
    calc {
      Run(adv, c, cmds);
      Run(adv, c1, cmds[1..]);
      Run(adv, c2, cmds[2..]);
    }
  }

  /** Executing a branch's commands, piece by piece. */
  lemma {:induction false} RunBranch(adv: Advance, c: Cursor, length: real, angle: real, left: seq<Cmd>, back: seq<Cmd>, right: seq<Cmd>)
    ensures
      var c1 := Run(adv, c, [Forward(length), Left(angle)]);
      var c3 := Step(adv, Run(adv, Run(adv, c1, left), back), Right(angle));
      && Run(adv, c, [Forward(length), Left(angle)] + left + back + [Right(angle)]) == c3
      && Run(adv, c, Branch(length, angle, left, back, right)) == Run(adv, Run(adv, c3, right), back)
  {
    var pre := [Forward(length), Left(angle)];
    RunAppend(adv, c, pre, left);
    RunAppend(adv, c, pre + left, back);
    RunAppend(adv, c, pre + left + back, [Right(angle)]);
    RunOne(adv, Run(adv, c, pre + left + back), Right(angle));
    RunAppend(adv, c, pre + left + back + [Right(angle)], right);
    RunAppend(adv, c, pre + left + back + [Right(angle)] + right, back);
  }

  /** Where a call leaves the turtle. With no depth left it does nothing; otherwise
      the turtle ends at the tip of the trunk it just drew (not where it was
      entered), facing the entry heading, with the pen down. */
  lemma {:induction false} DrawTreeEnd(adv: Advance, cfg: TreeConfig, c: Cursor, length: real, depth: nat)
    ensures Run(adv, c, DrawTree(adv, cfg, c, length, depth))
         == if depth == 0 then c else Cursor(Tip(adv, c, length), c.heading, true)
  {
    if depth > 0 {
      var back := Restore(Tip(adv, c, length), c.heading);
      var left := DrawTree(adv, cfg, LeftStart(adv, cfg, c, length), Scaled(length, cfg), depth - 1);
      var right := DrawTree(adv, cfg, RightStart(adv, cfg, c, length), Scaled(length, cfg), depth - 1);
      DrawTreeUnfold(adv, cfg, c, length, depth);
      RunBranch(adv, c, length, cfg.angle, left, back, right);
      var c3 := Step(adv, Run(adv, Run(adv, Run(adv, c, [Forward(length), Left(cfg.angle)]), left), back), Right(cfg.angle));
      RunRestore(adv, Run(adv, c3, right), Tip(adv, c, length), c.heading);
    }
  }

  /** A call's commands are trunk and left turn, left child, restore and right turn,
      right child, restore. Executing them, the turtle enters the left child at the
      pose saved after the trunk turned by +angle, and the right child at that same
      position turned by -angle with the pen down. */
  lemma {:induction false} SiblingsShareBase(adv: Advance, cfg: TreeConfig, c: Cursor, length: real, depth: nat)
    requires depth > 0
    ensures
      var back := Restore(Tip(adv, c, length), c.heading);
      var pre := [Forward(length), Left(cfg.angle)];
      var left := DrawTree(adv, cfg, LeftStart(adv, cfg, c, length), Scaled(length, cfg), depth - 1);
      var right := DrawTree(adv, cfg, RightStart(adv, cfg, c, length), Scaled(length, cfg), depth - 1);
      && DrawTree(adv, cfg, c, length, depth) == Branch(length, cfg.angle, left, back, right)
      && Run(adv, c, pre) == LeftStart(adv, cfg, c, length)
      && Run(adv, c, pre + left + back + [Right(cfg.angle)]) == RightStart(adv, cfg, c, length)
  {
    var back := Restore(Tip(adv, c, length), c.heading);
    var lc := LeftStart(adv, cfg, c, length);
    var left := DrawTree(adv, cfg, lc, Scaled(length, cfg), depth - 1);
    var right := DrawTree(adv, cfg, RightStart(adv, cfg, c, length), Scaled(length, cfg), depth - 1);
    DrawTreeUnfold(adv, cfg, c, length, depth);
    RunPre(adv, cfg, c, length);
    RunBranch(adv, c, length, cfg.angle, left, back, right);
    DrawTreeEnd(adv, cfg, lc, Scaled(length, cfg), depth - 1);
    RunRestore(adv, Run(adv, lc, left), Tip(adv, c, length), c.heading);
  }

  // ----- How many branches, and how long -----

  /** The lengths of the branches a call draws, in drawing order: the trunk, then
      the left subtree's, then the right subtree's. */
  function BranchLengths(cfg: TreeConfig, length: real, depth: nat): seq<real>
    decreases depth
  {
    if depth == 0 then []
    else [length] + BranchLengths(cfg, Scaled(length, cfg), depth - 1) + BranchLengths(cfg, Scaled(length, cfg), depth - 1)
  }

  /** The length of a branch `k` levels below a branch of `length`. */
  function LevelLength(cfg: TreeConfig, length: real, k: nat): real
    decreases k
  {
    if k == 0 then length else LevelLength(cfg, Scaled(length, cfg), k - 1)
  }

  lemma {:induction false} ForwardsBranch(length: real, angle: real, left: seq<Cmd>, pos: Point, heading: real, right: seq<Cmd>)
    ensures Forwards(Branch(length, angle, left, Restore(pos, heading), right)) == [length] + Forwards(left) + Forwards(right)
  {
    var pre := [Forward(length), Left(angle)];
    var back := Restore(pos, heading);
    assert Forwards(pre) == [length] by {
      assert pre[1..] == [Left(angle)];
      assert [Left(angle)][1..] == [];
      assert Forwards([Left(angle)]) == [];
    }
    assert Forwards(back) == [] by {
      assert back[1..] == [Goto(pos), SetHeading(heading), PenDown];
      assert back[1..][1..] == [SetHeading(heading), PenDown];
      assert back[1..][1..][1..] == [PenDown];
      assert back[1..][1..][1..][1..] == [];
      assert Forwards([PenDown]) == [];
      assert Forwards([SetHeading(heading), PenDown]) == [];
      assert Forwards([Goto(pos), SetHeading(heading), PenDown]) == [];
    }
    assert Forwards([Right(angle)]) == [] by {
      assert [Right(angle)][1..] == [];
    }
    ForwardsAppend(pre, left);
    ForwardsAppend(pre + left, back);
    ForwardsAppend(pre + left + back, [Right(angle)]);
    ForwardsAppend(pre + left + back + [Right(angle)], right);
    ForwardsAppend(pre + left + back + [Right(angle)] + right, back);
  }

  /** The `forward` moves a call issues are exactly the branches of the reference
      enumeration, whatever pose the call is entered with. */
  lemma {:induction false} TreeBranchLengths(adv: Advance, cfg: TreeConfig, c: Cursor, length: real, depth: nat)
    ensures Forwards(DrawTree(adv, cfg, c, length, depth)) == BranchLengths(cfg, length, depth)
    decreases depth
  {
    if depth > 0 {
      DrawTreeUnfold(adv, cfg, c, length, depth);
      ForwardsBranch(length, cfg.angle,
                     DrawTree(adv, cfg, LeftStart(adv, cfg, c, length), Scaled(length, cfg), depth - 1),
                     Tip(adv, c, length), c.heading,
                     DrawTree(adv, cfg, RightStart(adv, cfg, c, length), Scaled(length, cfg), depth - 1));
      TreeBranchLengths(adv, cfg, LeftStart(adv, cfg, c, length), Scaled(length, cfg), depth - 1);
      TreeBranchLengths(adv, cfg, RightStart(adv, cfg, c, length), Scaled(length, cfg), depth - 1);
    }
  }

  /** A tree of depth d has 2^d - 1 branches: F(0) = 0 and F(d) = 1 + 2 F(d - 1). */
  lemma {:induction false} BranchCount(cfg: TreeConfig, length: real, depth: nat)
    ensures |BranchLengths(cfg, length, depth)| == Pow2(depth) - 1
    decreases depth
  {
    if depth > 0 {
      BranchCount(cfg, Scaled(length, cfg), depth - 1);
    }
  }

  /** A call performs exactly 2^depth - 1 `forward` moves. */
  lemma {:induction false} ForwardCount(adv: Advance, cfg: TreeConfig, c: Cursor, length: real, depth: nat)
    ensures |Forwards(DrawTree(adv, cfg, c, length, depth))| == Pow2(depth) - 1
  {
    TreeBranchLengths(adv, cfg, c, length, depth);
    BranchCount(cfg, length, depth);
  }

  /** The recursion level of each branch a call at level `top` draws, in drawing order;
      each child is one level below its parent. */
  function Levels(depth: nat, top: nat): (r: seq<nat>)
    decreases depth
  {
    if depth == 0 then [] else [top] + Levels(depth - 1, top + 1) + Levels(depth - 1, top + 1)
  }

  /** The i-th branch drawn sits at a level within the call's reach, and has that level's length. */
  lemma {:induction false} BranchLengthByLevel(cfg: TreeConfig, length: real, depth: nat, top: nat)
    ensures |Levels(depth, top)| == |BranchLengths(cfg, length, depth)|
    ensures forall i :: 0 <= i < |Levels(depth, top)| ==>
              && top <= Levels(depth, top)[i] < top + depth
              && BranchLengths(cfg, length, depth)[i] == LevelLength(cfg, length, Levels(depth, top)[i] - top)
    decreases depth
  {
    if depth > 0 {
      var child := Scaled(length, cfg);
      var sub := BranchLengths(cfg, child, depth - 1);
      var lv := Levels(depth - 1, top + 1);
      var all := Levels(depth, top);
      BranchLengthByLevel(cfg, child, depth - 1, top + 1);
      assert BranchLengths(cfg, length, depth) == [length] + sub + sub;
      assert all == [top] + lv + lv;
      forall i | 0 <= i < |all|
        ensures && top <= all[i] < top + depth
                && BranchLengths(cfg, length, depth)[i] == LevelLength(cfg, length, all[i] - top)
      {
        if i > 0 {
          var j := if i <= |lv| then i - 1 else i - 1 - |lv|;
          assert all[i] == lv[j];
          assert BranchLengths(cfg, length, depth)[i] == sub[j];
          assert LevelLength(cfg, length, all[i] - top) == LevelLength(cfg, child, lv[j] - (top + 1));
        }
      }
    }
  }

  /** How many branches a call at level `top` draws at level k. */
  function Tally(depth: nat, top: nat, k: nat): nat
  {
    multiset(Levels(depth, top))[k]
  }

  /** Only the call itself is at its own level; deeper levels come from its two subtrees. */
  lemma LevelsSplit(depth: nat, top: nat, k: nat)
    requires depth > 0
    ensures Tally(depth, top, k) == (if k == top then 1 else 0) + 2 * Tally(depth - 1, top + 1, k)
  {
    var lv := Levels(depth - 1, top + 1);
    var head: seq<nat> := [top];
    assert Levels(depth, top) == head + lv + lv;
    assert multiset(head + lv + lv) == multiset(head) + multiset(lv) + multiset(lv);
  }

  /** Level k, counted from the call's own level, holds 2^k branches when k < depth,
      and none otherwise. */
  lemma {:induction false} LevelCount(depth: nat, top: nat, k: nat)
    ensures Tally(depth, top, k) == if top <= k < top + depth then Pow2(k - top) else 0
    decreases depth
  {
    if depth > 0 {
      LevelsSplit(depth, top, k);
      LevelCount(depth - 1, top + 1, k);
      if top < k < top + depth {
        assert Pow2(k - top) == 2 * Pow2(k - top - 1);
      }
    } else {
      assert Levels(depth, top) == [];
    }
  }

  function Pow(s: real, k: nat): real
  {
    if k == 0 then 1.0 else s * Pow(s, k - 1)
  }

  /** A branch k levels below a branch of `length` has length `length * scale^k`. */
  lemma {:induction false} LevelLengthIsPower(cfg: TreeConfig, length: real, k: nat)
    ensures LevelLength(cfg, length, k) == length * Pow(cfg.scale, k)
    decreases k
  {
    if k > 0 {
      LevelLengthIsPower(cfg, Scaled(length, cfg), k - 1);
      assert (length * cfg.scale) * Pow(cfg.scale, k - 1) == length * (cfg.scale * Pow(cfg.scale, k - 1));
    }
  }

  /** The i-th branch a call draws is at recursion level Levels(depth, 0)[i] below
      the trunk, and its length is the trunk's length times scale to that power. */
  lemma BranchLengthAtLevel(cfg: TreeConfig, length: real, depth: nat, i: nat)
    requires i < |BranchLengths(cfg, length, depth)|
    ensures i < |Levels(depth, 0)| && Levels(depth, 0)[i] < depth
    ensures BranchLengths(cfg, length, depth)[i] == length * Pow(cfg.scale, Levels(depth, 0)[i])
  {
    BranchLengthByLevel(cfg, length, depth, 0);
    LevelLengthIsPower(cfg, length, Levels(depth, 0)[i]);
  }

  // ----- What is drawn -----

  lemma {:induction false} RestoreDisciplined(adv: Advance, c: Cursor, pos: Point, heading: real)
    ensures PenDiscipline(adv, c, Restore(pos, heading))
  {
    var cmds := Restore(pos, heading);
    var c1 := Step(adv, c, PenUp);
    var c2 := Step(adv, c1, Goto(pos));
    var c3 := Step(adv, c2, SetHeading(heading));
    var c4 := Step(adv, c3, PenDown);
    assert PenDiscipline(adv, c4, cmds[4..]);
    assert PenDiscipline(adv, c3, cmds[3..]);
    assert PenDiscipline(adv, c2, cmds[2..]);
    assert PenDiscipline(adv, c1, cmds[1..]);
  }

  lemma {:induction false} PenDisciplineBranch(adv: Advance, c: Cursor, length: real, angle: real, left: seq<Cmd>, pos: Point, heading: real, right: seq<Cmd>)
    requires c.penDown
    requires PenDiscipline(adv, Run(adv, c, [Forward(length), Left(angle)]), left)
    requires PenDiscipline(adv, Run(adv, c, [Forward(length), Left(angle)] + left + Restore(pos, heading) + [Right(angle)]), right)
    ensures PenDiscipline(adv, c, Branch(length, angle, left, Restore(pos, heading), right))
  {
    var pre := [Forward(length), Left(angle)];
    var back := Restore(pos, heading);
    var x2 := pre + left;
    var x3 := x2 + back;
    var x4 := x3 + [Right(angle)];
    var x5 := x4 + right;
    assert PenDiscipline(adv, c, pre) by {
      var c1 := Step(adv, c, Forward(length));
      var c2 := Step(adv, c1, Left(angle));
      assert PenDiscipline(adv, c2, pre[2..]);
      assert PenDiscipline(adv, c1, pre[1..]);
    }
    PenDisciplineAppend(adv, c, pre, left);
    RestoreDisciplined(adv, Run(adv, c, x2), pos, heading);
    PenDisciplineAppend(adv, c, x2, back);
    assert PenDiscipline(adv, Run(adv, c, x3), [Right(angle)]) by {
      assert [Right(angle)][1..] == [];
    }
    PenDisciplineAppend(adv, c, x3, [Right(angle)]);
    PenDisciplineAppend(adv, c, x4, right);
    RestoreDisciplined(adv, Run(adv, c, x5), pos, heading);
    PenDisciplineAppend(adv, c, x5, back);
  }

  /** Entered with the pen down, a call runs every `forward` with the pen down and
      every repositioning `goto` with the pen up. */
  lemma {:induction false} DrawTreePenDiscipline(adv: Advance, cfg: TreeConfig, c: Cursor, length: real, depth: nat)
    requires c.penDown
    ensures PenDiscipline(adv, c, DrawTree(adv, cfg, c, length, depth))
    decreases depth
  {
    if depth > 0 {
      var lc := LeftStart(adv, cfg, c, length);
      var rc := RightStart(adv, cfg, c, length);
      var left := DrawTree(adv, cfg, lc, Scaled(length, cfg), depth - 1);
      var right := DrawTree(adv, cfg, rc, Scaled(length, cfg), depth - 1);
      SiblingsShareBase(adv, cfg, c, length, depth);
      DrawTreePenDiscipline(adv, cfg, lc, Scaled(length, cfg), depth - 1);
      DrawTreePenDiscipline(adv, cfg, rc, Scaled(length, cfg), depth - 1);
      PenDisciplineBranch(adv, c, length, cfg.angle, left, Tip(adv, c, length), c.heading, right);
    }
  }

  /** Entered with the pen down, a call leaves exactly 2^depth - 1 lines on the paper:
      one per branch and none for the jumps back. */
  lemma {:induction false} DrawTreeInk(adv: Advance, cfg: TreeConfig, c: Cursor, length: real, depth: nat)
    requires c.penDown
    ensures |Ink(adv, c, DrawTree(adv, cfg, c, length, depth))| == Pow2(depth) - 1
  {
    DrawTreePenDiscipline(adv, cfg, c, length, depth);
    DisciplinedInk(adv, c, DrawTree(adv, cfg, c, length, depth));
    ForwardCount(adv, cfg, c, length, depth);
  }

  // ----- The program's own call -----

  /** A freshly created turtle: at the origin, facing east (heading 0), pen down. */
  const Home: Cursor := Cursor(Point(0.0, 0.0), 0.0, true)

  /** The bottom centre of the window, where the trunk starts. */
  const StartPos: Point := Point(0.0, -250.0)

  /** Lift the pen, move to the bottom centre, point up, lower the pen. */
  function Setup(): seq<Cmd>
  {
    [PenUp, Goto(StartPos), Left(90.0), PenDown]
  }

  /** Every command the program issues: the setup, then the tree drawn from the
      resulting pose with the configured length. The program always passes
      `RecursionDepth` as `depth`; keeping it a parameter lets the proofs below
      reason about the recursion instead of its 511 unfolded branches. */
  function CreateFractalArt(adv: Advance, depth: nat): seq<Cmd>
  {
    Setup() + DrawTree(adv, Default, Run(adv, Home, Setup()), InitialLength, depth)
  }

  lemma {:induction false} RunSetup(adv: Advance)
    ensures Run(adv, Home, Setup()) == Cursor(StartPos, 90.0, true)
    ensures PenDiscipline(adv, Home, Setup())
    ensures Ink(adv, Home, Setup()) == []
  {
    var cmds := Setup();
    var c1 := Step(adv, Home, PenUp);
    var c2 := Step(adv, c1, Goto(StartPos));
    var c3 := Step(adv, c2, Left(90.0));
    var c4 := Step(adv, c3, PenDown);
    calc {
      Run(adv, Home, cmds);
      Run(adv, c1, cmds[1..]);
      Run(adv, c2, cmds[2..]);
      Run(adv, c3, cmds[3..]);
      Run(adv, c4, cmds[4..]);
    }
    assert PenDiscipline(adv, c3, cmds[3..]);
    assert PenDiscipline(adv, c2, cmds[2..]);
    assert PenDiscipline(adv, c1, cmds[1..]);
    assert Ink(adv, c3, cmds[3..]) == [];
    assert Ink(adv, c2, cmds[2..]) == [];
    assert Ink(adv, c1, cmds[1..]) == [];
  }

  /** The program draws 2^depth - 1 lines, none of them while repositioning, and
      leaves the turtle at the top of the 100-unit trunk, pointing up, pen down. */
  lemma {:induction false} FractalArtOutcome(adv: Advance, depth: nat)
    ensures var cmds := CreateFractalArt(adv, depth);
      && PenDiscipline(adv, Home, cmds)
      && |Ink(adv, Home, cmds)| == Pow2(depth) - 1
      && Run(adv, Home, cmds) == (if depth == 0 then Cursor(StartPos, 90.0, true)
                                  else Cursor(adv(StartPos, 90.0, InitialLength), 90.0, true))
  {
    var start := Cursor(StartPos, 90.0, true);
    var tree := DrawTree(adv, Default, start, InitialLength, depth);
    RunSetup(adv);
    assert CreateFractalArt(adv, depth) == Setup() + tree;
    DrawTreePenDiscipline(adv, Default, start, InitialLength, depth);
    DrawTreeInk(adv, Default, start, InitialLength, depth);
    DrawTreeEnd(adv, Default, start, InitialLength, depth);
    PenDisciplineAppend(adv, Home, Setup(), tree);
    InkAppend(adv, Home, Setup(), tree);
    RunAppend(adv, Home, Setup(), tree);
  }

  /** At the configured depth of 9 the program draws 511 lines. */
  lemma ConfiguredLineCount(adv: Advance)
    ensures |Ink(adv, Home, CreateFractalArt(adv, RecursionDepth))| == 511
  {
    assert Pow2(RecursionDepth) == 512;
    FractalArtOutcome(adv, RecursionDepth);
  }
}
