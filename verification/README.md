# Fractal tree and evolving grid: a Dafny model

The repository holds two small teaching programs.

- **A recursive fractal tree drawn with turtle graphics.** `draw_fractal_tree` draws a branch. It remembers the pose reached at the branch's tip. It turns left, draws a shorter subtree, and jumps back to the remembered pose with the pen lifted. It then does the same on the right.
- **An animated grid of coloured cells.** Each frame is a 16 x 16 grid of 30-pixel cells. Every cell gets a pattern value from sines and cosines of its coordinates and a time factor. That value is mapped to a colour between black and blue, and the frame is saved as `pattern_grid_NNN.png`.

This project models the logic of both programs and proves what the code guarantees.

**Turtle and fractal tree.**

- `turtle.dfy` gives the turtle's semantics as pure functions over an immutable cursor:
  - `Step` and `Run` execute commands;
  - `Ink` lists the lines left on the paper;
  - `PenDiscipline` says every `forward` is drawn and every `goto` is not.
- `forward`'s geometry is a function-valued parameter `adv`. Every fact holds for whatever trigonometry the turtle library uses.
- `fractal_tree.dfy` models `draw_fractal_tree` as `DrawTree`. This pure function returns the commands one call issues from a given pose.
- The lemmas execute that trace and prove:
  - where the turtle is at every hand-over point;
  - where the call ends;
  - how many branches are drawn, and how long each one is;
  - that nothing is drawn while repositioning.

**Grid and animation.**

- `color_map.dfy` models `map_value_to_color`: interpolation, Python's `int()` as truncation toward zero, and the clamp.
- `grid_pattern.dfy` models:
  - the configuration;
  - `get_pattern_value`, with `sin`/`cos` as parameters;
  - the cell geometry;
  - the row-major drawing loop.
- `frames.dfy` models:
  - the time factor;
  - `str` and `str.zfill`;
  - the file names;
  - the main frame loop.

The fractal tree's end position follows the code, not the comment beside it. The comment at python_demo_823d3b.py:83-85 says that after both subtrees the turtle goes back to "the starting position of the current branch". The pose it goes back to is the one saved at lines 58-59, after the `forward` at line 54. A call therefore ends at the tip of its trunk, facing its entry heading, with the pen down. `DrawTreeEnd` states this, and the program's own call ends 100 units above (0, -250).

`python_tutorial_262ddc.py` calls `math.sin` and `math.cos` at lines 48-49 but never imports `math` (lines 13-14). As written, the first frame stops with a `NameError`. The model describes the program as if `import math` were present: `sin` and `cos` are parameters of `PatternValue`, `DrawGridPattern` and `GenerateFrames`.

## Model

| member | source | states |
|---|---|---|
| FractalTree.DrawTree | python_demo_823d3b.py:38-89 | A call issues no commands exactly when depth is 0; otherwise its first command is `forward(length)` |
| FractalTree.RunRestore | python_demo_823d3b.py:72-75 | Lifting the pen, `goto`, `setheading`, lowering the pen leaves the turtle exactly at the saved pose with the pen down, from any pose |
| FractalTree.DrawTreeEnd | python_demo_823d3b.py:50-89 | With depth 0 the call leaves the turtle unchanged. Otherwise it ends at the trunk's tip, the point `forward` reaches from the entry pose, facing the entry heading with the pen down. That is not the entry position the comment at python_demo_823d3b.py:83-85 describes |
| FractalTree.SiblingsShareBase | python_demo_823d3b.py:58-81 | Executing the trace, the left subtree is entered at the saved tip turned +angle, and the right subtree at that same tip turned -angle with the pen down |
| FractalTree.TreeBranchLengths | python_demo_823d3b.py:54-81 | The distances of a call's `forward` moves, in order, are the reference pre-order enumeration of branch lengths (trunk, then left subtree, then right subtree), whatever the entry pose |
| FractalTree.BranchCount | python_demo_823d3b.py:50-81 | A tree of depth d has 2^d - 1 branches, from F(0) = 0 and F(d) = 1 + 2F(d-1) |
| FractalTree.ForwardCount | python_demo_823d3b.py:50-81 | A call performs exactly 2^depth - 1 `forward` moves |
| FractalTree.BranchLengthByLevel | python_demo_823d3b.py:67-81 | The i-th branch drawn lies at a level between the call's own level and that level plus depth, and its length is the length k levels down |
| FractalTree.LevelsSplit | python_demo_823d3b.py:54-81 | A call draws exactly one branch at its own level; every deeper branch comes from one of its two subtrees, which contribute equally |
| FractalTree.LevelCount | python_demo_823d3b.py:67-81 | Level k below the trunk holds 2^k branches when k < depth, and none otherwise |
| FractalTree.LevelLengthIsPower | python_demo_823d3b.py:67-81 | A branch k levels below a branch of `length` has length `length * scale^k` |
| FractalTree.BranchLengthAtLevel | python_demo_823d3b.py:67-81 | The i-th branch drawn is at a level below depth, and has the trunk length times `BRANCH_SCALE` to the power of its level |
| FractalTree.RestoreDisciplined | python_demo_823d3b.py:72-89 | The restore sequence moves with the pen up and draws nothing |
| FractalTree.PenDisciplineBranch | python_demo_823d3b.py:54-89 | If the entry pen is down and both subtrees keep the discipline from the poses they are entered with, then the whole call keeps it |
| FractalTree.DrawTreePenDiscipline | python_demo_823d3b.py:54-89 | A call entered with the pen down runs every `forward` pen-down and every `goto` pen-up |
| FractalTree.DrawTreeInk | python_demo_823d3b.py:54-89 | A call entered with the pen down leaves exactly 2^depth - 1 lines on the paper |
| FractalTree.RunSetup | python_demo_823d3b.py:107-110 | Setup takes a fresh turtle to (0, -250), heading 90, pen down, and leaves no line |
| FractalTree.FractalArtOutcome | python_demo_823d3b.py:104-113 | The whole program draws 2^depth - 1 lines with no stray line from repositioning, and ends at the trunk's tip above (0, -250), heading 90, pen down |
| FractalTree.ConfiguredLineCount | python_demo_823d3b.py:104-113 | Run at `RECURSION_DEPTH` = 9, the whole program leaves exactly 511 lines on the paper, whatever the turtle's geometry |
| Turtle.RunAppend | python_demo_823d3b.py:54-89 | Executing two traces one after the other equals executing their concatenation |
| Turtle.InkAppend | python_demo_823d3b.py:54-89 | The lines drawn by a concatenation are those of the first part, then those of the second from where the first ends |
| Turtle.PenDisciplineAppend | python_demo_823d3b.py:54-89 | A concatenation keeps the pen discipline if and only if both parts keep it, each from where it starts |
| Turtle.DisciplinedInk | python_demo_823d3b.py:54-89 | Under the pen discipline the number of lines drawn equals the number of `forward` moves |
| ColorMap.Trunc | python_tutorial_262ddc.py:71-73 | `int()` rounds toward zero: non-negative inputs round down, negative inputs round up, and the result is within 1 of the input |
| ColorMap.Clamp | python_tutorial_262ddc.py:76-78 | The result lies in 0..255, equals the input inside that range, and is the nearer bound outside it |
| ColorMap.Lerp | python_tutorial_262ddc.py:71-73 | Interpolation at 0 gives the start channel and at 1 gives the end channel |
| ColorMap.Channel | python_tutorial_262ddc.py:71-78 | A channel is in 0..255 for any real value. It is 0 when the interpolated value is below 1, 255 from 255 on, and the whole part of the interpolated value in between |
| ColorMap.MapValueToColor | python_tutorial_262ddc.py:58-80 | All three channels lie in 0..255 for every real input, including out-of-range ones |
| ColorMap.MapValueEndpoints | python_tutorial_262ddc.py:66-73 | Value 0 maps to (0, 0, 0) and value 1 maps to (100, 100, 255) |
| ColorMap.TruncMonotone | python_tutorial_262ddc.py:71-73 | Truncation toward zero is monotone |
| ColorMap.ClampMonotone | python_tutorial_262ddc.py:76-78 | The clamp is monotone |
| ColorMap.LerpMonotone | python_tutorial_262ddc.py:71-73 | Interpolation along a non-decreasing channel range is monotone in the value |
| ColorMap.ChannelMonotone | python_tutorial_262ddc.py:71-78 | A channel whose end is at least its start never decreases as the value grows |
| ColorMap.MapValueMonotone | python_tutorial_262ddc.py:71-78 | A larger value never gives a darker colour in any channel |
| ColorMap.MapValueBetweenEnds | python_tutorial_262ddc.py:66-80 | For values in [0, 1] every channel lies between the start and end colour, and each channel equals the truncated interpolation, so the clamp never changes anything |
| GridPattern.PatternValue | python_tutorial_262ddc.py:26-56 | When both waves stay within [-1, 1], the pattern value lies in [0, 1] |
| GridPattern.CellRect | python_tutorial_262ddc.py:102-105 | A cell's rectangle is 30 pixels wide and high; for cells in the grid, both corners lie within the 480 x 480 image |
| GridPattern.CellTiling | python_tutorial_262ddc.py:102-105 | Every pixel of the image lies in exactly one cell's rectangle, the one at (y / 30, x / 30), and that cell is in the grid |
| GridPattern.RowMajorBijection | python_tutorial_262ddc.py:91-93 | Position i of the row-major order is cell (r, c) if and only if (r, c) is in the grid and i = 16r + c |
| GridPattern.RowMajorAscending | python_tutorial_262ddc.py:91-93 | Row-major order goes row by row, each row left to right |
| GridPattern.RowMajorExactlyOnce | python_tutorial_262ddc.py:91-93 | The 256 cells visited are all in the grid, every grid cell is visited, and no cell is visited twice |
| GridPattern.DrawGridPattern | python_tutorial_262ddc.py:82-109 | A frame issues 256 rectangle fills. The i-th fills the i-th cell in row-major order with the colour of its pattern value at the frame's time. Every grid cell is filled, and none twice |
| Frames.TimeFactor | python_tutorial_262ddc.py:122-130 | For 0 <= frame < n the time factor lies in [0, 1) and, multiplied by n, gives the frame number back |
| Frames.TimeFactorIncreasing | python_tutorial_262ddc.py:122-130 | Later frames have strictly larger time factors |
| Frames.DecimalString | python_tutorial_262ddc.py:137 | `str(n)` for n >= 0 is a non-empty string of decimal digits with no leading zero |
| Frames.ParseDecimalString | python_tutorial_262ddc.py:137 | Reading back the digits `str(n)` writes gives n |
| Frames.DecimalStringInjective | python_tutorial_262ddc.py:137 | Different numbers give different `str` strings |
| Frames.DecimalStringLength | python_tutorial_262ddc.py:137 | A number below 10^k has at most k digits |
| Frames.ZFill | python_tutorial_262ddc.py:137 | `zfill(width)` leaves strings of at least `width` characters unchanged and pads shorter ones to exactly `width`. An unsigned string gets `'0'`s in front and stays the suffix. A string with a leading `+` or `-` keeps the sign first, then the `'0'`s, then the rest of the string |
| Frames.ParseLeadingZeros | python_tutorial_262ddc.py:137 | Leading zeros do not change the number a digit string denotes |
| Frames.ZFillKeepsValue | python_tutorial_262ddc.py:137 | `str(n).zfill(width)` is all digits and still denotes n |
| Frames.ZFillDigits | python_tutorial_262ddc.py:137 | Padding any digit string with `zfill` gives a digit string that denotes the same number |
| Frames.FrameFilename | python_tutorial_262ddc.py:118-137 | A file name is the base `pattern_grid_`, then the padded one-based frame number, then `.png` |
| Frames.FrameNumberWidth | python_tutorial_262ddc.py:137 | For frame numbers 1..999 the padded part has exactly 3 characters and the file name 20 |
| Frames.FrameNumberDigits | python_tutorial_262ddc.py:137 | For frame numbers 1..999 the padded part is the hundreds, tens and units digits of the number |
| Frames.FrameNumberValue | python_tutorial_262ddc.py:137 | The padded part reads back as the one-based frame number |
| Frames.FrameNumberInjective | python_tutorial_262ddc.py:137 | Different frames get different padded numbers |
| Frames.FrameFilenameInjective | python_tutorial_262ddc.py:137 | Different frames get different file names, for any number of frames |
| Frames.FirstAndLastNames | python_tutorial_262ddc.py:117-137 | The 60 frames run from `pattern_grid_001.png` to `pattern_grid_060.png` |
| Frames.GenerateFrames | python_tutorial_262ddc.py:122-140 | One frame per frame number, in order. Each has its file name, its time factor, a white background and the 256 row-major cell fills at that time, and no two frames share a file name |

## Left out

- Screen and turtle setup that only affects display is left out: window size, background colour, title, speed, colour, `hideturtle` and `mainloop` (python_demo_823d3b.py:98-106, 116-118).
- The coordinates `forward` computes, which use floating-point trigonometry, are left out. They are the parameter `adv`, so every result holds for any geometry.
- Floating point is modelled as exact real arithmetic. Rounding in `length * BRANCH_SCALE`, in the interpolation and in `frame / num_frames` is not modelled, and neither are NaN or infinite inputs to `int()`.
- Headings are kept as plain reals. `turtle.heading()` reports them modulo 360, which `setheading` makes irrelevant to the pose.
- Negative depth is left out. `depth` is a natural number because a negative depth never reaches the base case and recurses until Python's recursion limit; the model's `decreases depth` is the termination argument.
- FractalTree.CreateFractalArt: takes the depth as a parameter, and the program passes `RECURSION_DEPTH` = 9. Stating the outcome for any depth keeps the proofs from unfolding all 511 branches. `ConfiguredLineCount` states the line count of the program's own call at depth 9.
- The pixels Pillow fills are left out, as are `Image.new` and `image.save`. A frame is the list of rectangle fills it issues, plus its background colour. Pillow's treatment of a rectangle's far corner as inclusive is library behaviour not visible in the program; `CellTiling` uses half-open cells.
- GridPattern.PatternValue: states only the bound on the value. The concrete value depends on floating-point `sin` and `cos`, which are parameters here.
- GridPattern.DrawGridPattern: models the program with `import math` added. As written, `python_tutorial_262ddc.py` stops with a `NameError` at `math.sin` (line 48) on the first cell of the first frame, before any rectangle is drawn.
- Frames.GenerateFrames: models the program with `import math` added. As written, the loop stops with that `NameError` on its first frame, so no file is saved.
- All `print` output and the unused `random` import are left out.
