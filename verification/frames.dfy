/**
 The animation driver: one grid image per frame, each drawn at its own time
 factor and saved under a zero-padded numbered file name.
 */
module Frames {
  import opened ColorMap
  import opened GridPattern

  /** How many frames the program generates. */
  const NumFrames: nat := 60
  const FilenameBase: string := "pattern_grid_"
  const FilenameExtension: string := ".png"
  /** The width `zfill` pads frame numbers to. */
  const NumberWidth: nat := 3

  /** One generated frame: its file name, time factor and drawing calls. */
  datatype Frame = Frame(filename: string, time: real, background: Rgb, paints: seq<Paint>)

  // ----- The time factor -----

  /** `frame / numFrames` as a real number. */
  function TimeFactor(frame: nat, numFrames: nat): (t: real)
    requires frame < numFrames
    ensures 0.0 <= t < 1.0
    ensures t * numFrames as real == frame as real
  {
    frame as real / numFrames as real
  }

  /** Later frames have strictly later time factors. */
  lemma TimeFactorIncreasing(f: nat, g: nat, numFrames: nat)
    requires f < g < numFrames
    ensures TimeFactor(f, numFrames) < TimeFactor(g, numFrames)
  {
    QuotientLess(f as real, g as real, numFrames as real);
  }

  /** Dividing by a positive number keeps strict order. */
  lemma QuotientLess(a: real, b: real, n: real)
    requires a < b && n > 0.0
    ensures a / n < b / n
  {
  }

  // ----- Decimal digits -----

  predicate IsDigit(ch: char)
  {
    '0' <= ch <= '9'
  }

  predicate AllDigits(s: string)
  {
    forall i :: 0 <= i < |s| ==> IsDigit(s[i])
  }

  function DigitChar(d: nat): (ch: char)
    requires d < 10
    ensures IsDigit(ch)
  {
    ['0', '1', '2', '3', '4', '5', '6', '7', '8', '9'][d]
  }

  function DigitValue(ch: char): (d: nat)
    requires IsDigit(ch)
    ensures d < 10
  {
    (ch - '0') as nat
  }

  lemma DigitRoundTrip(d: nat)
    requires d < 10
    ensures DigitValue(DigitChar(d)) == d
  {
  }

  /** The number a string of decimal digits denotes, most significant first;
      leading zeros count for nothing. */
  function ParseDecimal(s: string): nat
    requires AllDigits(s)
    decreases |s|
  {
    if s == [] then 0 else 10 * ParseDecimal(s[..|s| - 1]) + DigitValue(s[|s| - 1])
  }

  /** Python's `str` on a non-negative integer: its decimal digits, without
      leading zeros. */
  function DecimalString(n: nat): (s: string)
    ensures 1 <= |s| && AllDigits(s)
    ensures |s| > 1 ==> s[0] != '0'
    decreases n
  {
    if n < 10 then [DigitChar(n)] else DecimalString(n / 10) + [DigitChar(n % 10)]
  }

  /** Reading back what `DecimalString` writes gives the number again. */
  lemma {:induction false} ParseDecimalString(n: nat)
    ensures ParseDecimal(DecimalString(n)) == n
    decreases n
  {
    var s := DecimalString(n);
    if n < 10 {
      DigitRoundTrip(n);
    } else {
      ParseDecimalString(n / 10);
      DigitRoundTrip(n % 10);
      assert s[..|s| - 1] == DecimalString(n / 10);
    }
  }

  /** `str` is one-to-one. */
  lemma DecimalStringInjective(m: nat, n: nat)
    requires DecimalString(m) == DecimalString(n)
    ensures m == n
  {
    ParseDecimalString(m);
    ParseDecimalString(n);
  }

  /** Numbers below 10^k have at most k digits. */
  lemma {:induction false} DecimalStringLength(n: nat, k: nat)
    requires 0 < k && n < Pow10(k)
    ensures |DecimalString(n)| <= k
    decreases n
  {
    if n >= 10 {
      DecimalStringLength(n / 10, k - 1);
    }
  }

  function Pow10(k: nat): nat
  {
    if k == 0 then 1 else 10 * Pow10(k - 1)
  }

  // ----- zfill -----

  /** `n` copies of the digit zero. */
  function Zeros(n: nat): (z: string)
    ensures |z| == n && AllDigits(z)
    ensures forall i :: 0 <= i < n ==> z[i] == '0'
  {
    if n == 0 then [] else Zeros(n - 1) + ['0']
  }

  /** Python's `str.zfill`: pad on the left with zeros to `width` characters,
      keeping a leading sign in front of the padding; a string already that long
      is returned unchanged. */
  function ZFill(s: string, width: nat): (r: string)
    ensures |s| >= width ==> r == s
    ensures |s| < width ==> |r| == width
    ensures |s| < width && (s == [] || s[0] !in "+-") ==>
      && (forall i :: 0 <= i < width - |s| ==> r[i] == '0')
      && r[width - |s|..] == s
    ensures |s| < width && |s| > 0 && s[0] in "+-" ==>
      && r[0] == s[0]
      && (forall i :: 1 <= i <= width - |s| ==> r[i] == '0')
      && r[width - |s| + 1..] == s[1..]
  {
    if |s| >= width then s
    else if |s| > 0 && s[0] in "+-" then [s[0]] + Zeros(width - |s|) + s[1..]
    else Zeros(width - |s|) + s
  }

  /** Leading zeros do not change the number a digit string denotes. */
  lemma {:induction false} ParseLeadingZeros(z: nat, s: string)
    requires AllDigits(s)
    ensures AllDigits(Zeros(z) + s)
    ensures ParseDecimal(Zeros(z) + s) == ParseDecimal(s)
    decreases |s|
  {
    var t := Zeros(z) + s;
    assert AllDigits(t) by {
      forall i | 0 <= i < |t|
        ensures IsDigit(t[i])
      {
        if i >= z {
          assert t[i] == s[i - z];
        }
      }
    }
    if s == [] {
      assert t == Zeros(z);
      ZerosParse(z);
    } else {
      ParseLeadingZeros(z, s[..|s| - 1]);
      assert t[..|t| - 1] == Zeros(z) + s[..|s| - 1];
      assert t[|t| - 1] == s[|s| - 1];
    }
  }

  /** A string of zeros denotes zero. */
  lemma {:induction false} ZerosParse(n: nat)
    ensures ParseDecimal(Zeros(n)) == 0
    decreases n
  {
    if n > 0 {
      ZerosParse(n - 1);
      assert Zeros(n)[..n - 1] == Zeros(n - 1);
    }
  }

  /** Padding a number's digits with `zfill` keeps the number it denotes. */
  lemma ZFillKeepsValue(n: nat, width: nat)
    ensures AllDigits(ZFill(DecimalString(n), width))
    ensures ParseDecimal(ZFill(DecimalString(n), width)) == n
  {
    ParseDecimalString(n);
    ZFillDigits(DecimalString(n), width);
  }

  /** A digit string has no sign, so `zfill` only puts zeros in front of it,
      which keeps it a digit string denoting the same number. */
  lemma ZFillDigits(s: string, width: nat)
    requires AllDigits(s)
    ensures AllDigits(ZFill(s, width))
    ensures ParseDecimal(ZFill(s, width)) == ParseDecimal(s)
  {
    if |s| < width {
      if s != [] {
        assert IsDigit(s[0]);
      }
      assert ZFill(s, width) == Zeros(width - |s|) + s;
      ParseLeadingZeros(width - |s|, s);
    }
  }

  // ----- File names -----

  /** The padded, one-based frame number used in a frame's file name. */
  function FrameNumber(frame: nat): string
  {
    ZFill(DecimalString(frame + 1), NumberWidth)
  }

  /** The file a frame is saved under: the base name, the one-based frame number
      padded with zeros to three digits, and the `.png` extension. */
  function FrameFilename(frame: nat): (name: string)
    ensures |name| == |FilenameBase| + |FrameNumber(frame)| + |FilenameExtension|
    ensures name[..|FilenameBase|] == FilenameBase
    ensures name[|name| - |FilenameExtension|..] == FilenameExtension
    ensures name[|FilenameBase|..|name| - |FilenameExtension|] == FrameNumber(frame)
  {
    FilenameBase + FrameNumber(frame) + FilenameExtension
  }

  /** The frames 0 .. 998 get exactly three digits, and so 20-character names. */
  lemma FrameNumberWidth(frame: nat)
    requires frame + 1 < 1000
    ensures |FrameNumber(frame)| == NumberWidth
    ensures |FrameFilename(frame)| == 20
  {
    DecimalStringLength(frame + 1, 3);
  }

  /** The three digits of a number below 1000: hundreds, tens, units. */
  function ThreeDigits(n: nat): string
    requires n < 1000
  {
    [DigitChar(n / 100), DigitChar(n / 10 % 10), DigitChar(n % 10)]
  }

  lemma PadOneDigit(n: nat)
    requires n < 10
    ensures ZFill(DecimalString(n), 3) == ThreeDigits(n)
  {
    assert n / 100 == 0 && n / 10 % 10 == 0 && n % 10 == n;
    assert Zeros(2) == ['0', '0'];
  }

  lemma PadTwoDigits(n: nat)
    requires 10 <= n < 100
    ensures ZFill(DecimalString(n), 3) == ThreeDigits(n)
  {
    var t := n / 10;
    assert n / 100 == 0 && t % 10 == t && t < 10;
    assert DecimalString(t) == [DigitChar(t)];
    assert DecimalString(n) == [DigitChar(t), DigitChar(n % 10)];
    assert Zeros(1) == ['0'];
  }

  lemma PadThreeDigits(n: nat)
    requires 100 <= n < 1000
    ensures ZFill(DecimalString(n), 3) == ThreeDigits(n)
  {
    var t := n / 10;
    assert 10 <= t < 100 && t / 10 == n / 100 && t % 10 == n / 10 % 10;
    assert DecimalString(t / 10) == [DigitChar(t / 10)];
    assert DecimalString(t) == [DigitChar(t / 10), DigitChar(t % 10)];
    assert DecimalString(n) == DecimalString(t) + [DigitChar(n % 10)];
  }

  /** For the frames 0 .. 998 the padded number is the hundreds, tens and units
      digit of the one-based frame number: "001" for the first frame. */
  lemma FrameNumberDigits(frame: nat)
    requires frame + 1 < 1000
    ensures FrameNumber(frame) == ThreeDigits(frame + 1)
  {
    var n := frame + 1;
    if n < 10 {
      PadOneDigit(n);
    } else if n < 100 {
      PadTwoDigits(n);
    } else {
      PadThreeDigits(n);
    }
  }

  /** The padded number reads back as the one-based frame number. */
  lemma FrameNumberValue(frame: nat)
    ensures AllDigits(FrameNumber(frame))
    ensures ParseDecimal(FrameNumber(frame)) == frame + 1
  {
    ZFillKeepsValue(frame + 1, NumberWidth);
  }

  /** Different frames get different padded numbers, however many frames there are. */
  lemma FrameNumberInjective(f: nat, g: nat)
    requires FrameNumber(f) == FrameNumber(g)
    ensures f == g
  {
    var a, b := FrameNumber(f), FrameNumber(g);
    FrameNumberValue(f);
    FrameNumberValue(g);
    assert f + 1 == ParseDecimal(a) == ParseDecimal(b) == g + 1;
  }

  /** A fixed prefix and suffix can be stripped from both sides of an equation. */
  lemma CancelAffixes(p: string, a: string, b: string, q: string)
    requires p + a + q == p + b + q
    ensures a == b
  {
    var x, y := p + a + q, p + b + q;
    assert |a| == |b|;
    assert a == x[|p|..|p| + |a|];
    assert b == y[|p|..|p| + |b|];
  }

  /** Different frames are saved under different names, for any number of frames. */
  lemma FrameFilenameInjective(f: nat, g: nat)
    requires FrameFilename(f) == FrameFilename(g)
    ensures f == g
  {
    CancelAffixes(FilenameBase, FrameNumber(f), FrameNumber(g), FilenameExtension);
    FrameNumberInjective(f, g);
  }

  /** The first and last of the program's 60 frames. */
  lemma FirstAndLastNames()
    ensures FrameFilename(0) == "pattern_grid_001.png"
    ensures FrameFilename(NumFrames - 1) == "pattern_grid_060.png"
  {
  }

  // ----- The main loop -----

  /** Frame `i` of `numFrames` is the one the program generates: named after its
      number, drawn at its time factor on a white background, one drawing call
      per cell in row-major order. */
  predicate FrameOk(sin: Wave, cos: Wave, fr: Frame, i: nat, numFrames: nat)
  {
    && i < numFrames
    && fr.filename == FrameFilename(i)
    && fr.time == TimeFactor(i, numFrames)
    && fr.background == Background
    && |fr.paints| == GridSize * GridSize
    && forall k :: 0 <= k < GridSize * GridSize ==>
         fr.paints[k] == CellPaint(sin, cos, fr.time, RowMajor(k))
  }

  /** Every frame the program generates, in order: a fresh white image, the
      grid drawn at the frame's time factor, and the name it is saved under. */
  method GenerateFrames(sin: Wave, cos: Wave, numFrames: nat) returns (frames: seq<Frame>)
    ensures |frames| == numFrames
    ensures forall i :: 0 <= i < numFrames ==> FrameOk(sin, cos, frames[i], i, numFrames)
    ensures forall i, j :: 0 <= i < j < numFrames ==> frames[i].filename != frames[j].filename
  {
    frames := [];
    var frame := 0;
    while frame < numFrames
      invariant 0 <= frame <= numFrames
      invariant |frames| == frame
      invariant forall i :: 0 <= i < frame ==> FrameOk(sin, cos, frames[i], i, numFrames)
    {
      var time := TimeFactor(frame, numFrames);
      var paints, visited := DrawGridPattern(sin, cos, time);
      var fr := Frame(FrameFilename(frame), time, Background, paints);
      assert FrameOk(sin, cos, fr, frame, numFrames);
      frames := frames + [fr];
      frame := frame + 1;
    }
    forall i, j | 0 <= i < j < numFrames
      ensures frames[i].filename != frames[j].filename
    {
      if frames[i].filename == frames[j].filename {
        FrameFilenameInjective(i, j);
      }
    }
  }
}
