/**
 * The integer part of lib/crop/cropwidget.cpp: the aspect ratio of a size
 * (gcd and ratio), the parsing of a typed ratio into its two parts, and the
 * four spin boxes (left, top, width, height) whose maxima keep the crop
 * rectangle inside the image. The crop tool is the rectangle it was last
 * given; the document is the image size passed to each slot.
 */
module Crop {
  import opened Wrappers
  import opened Arith

  // ---------------------------------------------------------------------------
  // gcd and ratio
  // ---------------------------------------------------------------------------

  function Abs(x: int): nat { if x < 0 then -x else x }

  /**
   * C++ `%` on int: the quotient truncates toward zero, so the remainder has
   * the sign of a, and a - r is a multiple of b.
   */
  function CppRem(a: int, b: int): (r: int)
    requires b != 0
    ensures Abs(r) < Abs(b)
    ensures a >= 0 ==> r >= 0
    ensures a <= 0 ==> r <= 0
    ensures Divides(Abs(b), a - r)
    ensures a >= 0 && b > 0 ==> r == a % b
  {
    var m := Abs(b);
    if a >= 0 then
      assert Mul(m, a / m) == a - a % m;
      a % m
    else
      assert Mul(m, -((-a) / m)) == a + (-a) % m;
      -((-a) % m)
  }

  /**
   * gcd(a, b) = b == 0 ? a : gcd(b, a % b). The recursion ends because the
   * remainder is smaller than b in magnitude.
   */
  function Gcd(a: int, b: int): (g: int)
    ensures a >= 0 && b >= 0 ==> g >= 0
    ensures a >= 0 && b >= 0 && (a != 0 || b != 0) ==> g > 0
    decreases Abs(b)
  {
    if b == 0 then a else Gcd(b, CppRem(a, b))
  }

  /** gcd(a, b) divides both a and b. */
  lemma {:induction false} GcdDivides(a: int, b: int)
    requires a >= 0 && b >= 0
    ensures Divides(Gcd(a, b), a) && Divides(Gcd(a, b), b)
    decreases b
  {
    if b == 0 {
      assert Mul(a, 1) == a && Mul(a, 0) == 0;
    } else {
      var r := a % b;
      GcdDivides(b, r);
      DividesCombination(Gcd(b, r), b, r, a / b);
      DivMod(a, b);
    }
  }

  /** Every common divisor of a and b divides gcd(a, b). */
  lemma {:induction false} GcdGreatest(a: int, b: int, d: int)
    requires a >= 0 && b >= 0
    requires Divides(d, a) && Divides(d, b)
    ensures Divides(d, Gcd(a, b))
    decreases b
  {
    if b != 0 {
      var r := a % b;
      DividesCombination(d, b, a, -(a / b));
      assert -(a / b) * b + a == r;
      GcdGreatest(b, r, d);
    }
  }

  datatype Size = Size(width: int, height: int)

  /** ratio(size): the size divided by the gcd of its sides. */
  function Ratio(size: Size): (r: Size)
    requires size.width >= 0 && size.height >= 0
    requires size.width != 0 || size.height != 0
    ensures 0 <= r.width <= size.width && 0 <= r.height <= size.height
  {
    var g := Gcd(size.width, size.height);
    DivBounded(size.width, g);
    DivBounded(size.height, g);
    Size(size.width / g, size.height / g)
  }

  /** Both sides are divided exactly by the same positive divisor: nothing is truncated. */
  lemma RatioExact(size: Size)
    requires size.width >= 0 && size.height >= 0
    requires size.width != 0 || size.height != 0
    ensures Gcd(size.width, size.height) > 0
    ensures Ratio(size).width * Gcd(size.width, size.height) == size.width
    ensures Ratio(size).height * Gcd(size.width, size.height) == size.height
  {
    var g := Gcd(size.width, size.height);
    GcdDivides(size.width, size.height);
    var kw :| Mul(g, kw) == size.width;
    var kh :| Mul(g, kh) == size.height;
    DivExact(g, kw);
    DivExact(g, kh);
  }

  /** The ratio has the proportions of the size. */
  lemma RatioProportional(size: Size)
    requires size.width >= 0 && size.height >= 0
    requires size.width != 0 || size.height != 0
    ensures Ratio(size).width * size.height == Ratio(size).height * size.width
  {
    var g := Gcd(size.width, size.height);
    var r := Ratio(size);
    RatioExact(size);
    CrossMultiply(r.width, r.height, g);
  }

  /** If c * x == q and q * g == n then (g * c) divides n. */
  lemma ScaledDivisor(g: int, c: int, x: int, q: int, n: int)
    requires Mul(c, x) == q && q * g == n
    ensures Mul(g * c, x) == n
  {
  }

  /** A positive g that is a multiple of g * c, with c positive, forces c == 1. */
  lemma UnitFactor(g: int, c: int, z: int)
    requires g > 0 && c > 0 && Mul(g * c, z) == g
    ensures c == 1
  {
    assert g * (c * z - 1) == 0;
    assert c * z == 1;
  }

  /** The ratio is in lowest terms: its sides are coprime. */
  lemma RatioCoprime(size: Size)
    requires size.width >= 0 && size.height >= 0
    requires size.width != 0 || size.height != 0
    ensures Gcd(Ratio(size).width, Ratio(size).height) == 1
  {
    var g := Gcd(size.width, size.height);
    var r := Ratio(size);
    RatioExact(size);
    assert r.width >= 0 && r.height >= 0 && (r.width != 0 || r.height != 0);
    var c := Gcd(r.width, r.height);
    GcdDivides(r.width, r.height);
    var x :| Mul(c, x) == r.width;
    var y :| Mul(c, y) == r.height;
    ScaledDivisor(g, c, x, r.width, size.width);
    ScaledDivisor(g, c, y, r.height, size.height);
    GcdGreatest(size.width, size.height, g * c);
    var z :| Mul(g * c, z) == g;
    UnitFactor(g, c, z);
  }

  // ---------------------------------------------------------------------------
  // The typed ratio of the ratio combo box
  // ---------------------------------------------------------------------------

  /** QString::split(sep) keeping empty parts: one more part than separators. */
  function Split(s: string, sep: char): (parts: seq<string>)
    ensures |parts| >= 1
  {
    if s == [] then [[]]
    else
      var rest := Split(s[1..], sep);
      if s[0] == sep then [[]] + rest
      else [[s[0]] + rest[0]] + rest[1..]
  }

  /** The parts put back together with the separator between them. */
  function Join(parts: seq<string>, sep: char): string
    requires |parts| >= 1
  {
    if |parts| == 1 then parts[0] else parts[0] + [sep] + Join(parts[1..], sep)
  }

  /** Split gives one part per separator, plus one. */
  lemma {:induction false} SplitCount(s: string, sep: char)
    ensures |Split(s, sep)| == multiset(s)[sep] + 1
  {
    if s != [] {
      SplitCount(s[1..], sep);
      assert s == [s[0]] + s[1..];
      assert multiset(s) == multiset{s[0]} + multiset(s[1..]);
    }
  }

  /** No part holds the separator. */
  lemma {:induction false} SplitPartsFree(s: string, sep: char)
    ensures forall i :: 0 <= i < |Split(s, sep)| ==> sep !in Split(s, sep)[i]
  {
    if s != [] {
      SplitPartsFree(s[1..], sep);
      var rest := Split(s[1..], sep);
      if s[0] != sep {
        assert Split(s, sep)[0] == [s[0]] + rest[0];
        assert Split(s, sep)[1..] == rest[1..];
      }
    }
  }

  /** Join undoes Split. */
  lemma {:induction false} SplitThenJoin(s: string, sep: char)
    ensures Join(Split(s, sep), sep) == s
  {
    if s != [] {
      SplitThenJoin(s[1..], sep);
      var rest := Split(s[1..], sep);
      var parts := Split(s, sep);
      if s[0] == sep {
        assert parts == [[]] + rest;
        assert parts[1..] == rest;
      } else {
        assert parts[0] == [s[0]] + rest[0];
        assert parts[1..] == rest[1..];
        if |rest| != 1 {
          assert Join(rest, sep) == rest[0] + [sep] + Join(rest[1..], sep);
        }
      }
      assert [s[0]] + s[1..] == s;
    }
  }

  /** Text free of the separator stays one piece at the front of what follows it. */
  lemma {:induction false} SplitPrefix(p: string, tail: string, sep: char)
    requires sep !in p
    ensures Split(p + tail, sep) == [p + Split(tail, sep)[0]] + Split(tail, sep)[1..]
  {
    if p != [] {
      SplitPrefix(p[1..], tail, sep);
      var q, t := p + tail, Split(tail, sep);
      assert q[0] == p[0] && q[0] != sep && q[1..] == p[1..] + tail;
      var r := Split(q[1..], sep);
      assert r[0] == p[1..] + t[0] && r[1..] == t[1..];
      assert Split(q, sep) == [[q[0]] + r[0]] + r[1..];
      assert [q[0]] + r[0] == p + t[0];
    } else {
      var rest := Split(tail, sep);
      assert p + tail == tail && p + rest[0] == rest[0];
      assert [rest[0]] + rest[1..] == rest;
    }
  }

  /** Splitting joined parts that hold no separator gives the parts back. */
  lemma {:induction false} JoinSplit(parts: seq<string>, sep: char)
    requires |parts| >= 1
    requires forall i :: 0 <= i < |parts| ==> sep !in parts[i]
    ensures Split(Join(parts, sep), sep) == parts
  {
    if |parts| == 1 {
      SplitPrefix(parts[0], [], sep);
      assert parts[0] + [] == parts[0];
    } else {
      var rest := Join(parts[1..], sep);
      JoinSplit(parts[1..], sep);
      assert Split([sep] + rest, sep) == [[]] + parts[1..];
      SplitPrefix(parts[0], [sep] + rest, sep);
      assert parts[0] + [sep] + rest == parts[0] + ([sep] + rest);
      assert parts[0] + [] == parts[0];
    }
  }

  /** What chosenRatio yields, before its two parts are parsed as numbers. */
  datatype Chosen = NoRatio | Preset(index: nat) | Custom(width: string, height: string)

  /** QComboBox::itemText: the empty string for an index out of range. */
  function ItemText(items: seq<string>, index: int): string {
    if 0 <= index < |items| then items[index] else ""
  }

  /**
   * chosenRatio: empty text is no ratio; text equal to the selected item's is
   * that preset; otherwise the text must split on ':' into exactly two parts.
   */
  function ChosenRatio(text: string, index: int, items: seq<string>): (c: Chosen)
    ensures text == [] ==> c.NoRatio?
    ensures c.Preset? <==> text != [] && index != -1 && text == ItemText(items, index)
    ensures c.Preset? ==> c.index == index && c.index < |items| && items[c.index] == text
  {
    if text == [] then NoRatio
    else if index != -1 && text == ItemText(items, index) then Preset(index)
    else
      var parts := Split(text, ':');
      if |parts| != 2 then NoRatio else Custom(parts[0], parts[1])
  }

  /**
   * Typed text that is not the selected preset gives the zero ratio exactly
   * when it does not hold exactly one ':', and otherwise the two sides of it.
   */
  lemma CustomRatioText(text: string, index: int, items: seq<string>)
    requires text != [] && !(index != -1 && text == ItemText(items, index))
    ensures ChosenRatio(text, index, items).NoRatio? <==> multiset(text)[':'] != 1
    ensures ChosenRatio(text, index, items).Custom? ==>
      var c := ChosenRatio(text, index, items);
      c.width + [':'] + c.height == text && ':' !in c.width && ':' !in c.height
  {
    SplitCount(text, ':');
    SplitPartsFree(text, ':');
    SplitThenJoin(text, ':');
    var parts := Split(text, ':');
    if |parts| == 2 {
      assert Join(parts, ':') == parts[0] + [':'] + parts[1];
    }
  }

  // ---------------------------------------------------------------------------
  // Rectangles and spin boxes
  // ---------------------------------------------------------------------------

  /** QRect keeps its corners; width and height are derived from them. */
  datatype Rect = Rect(x1: int, y1: int, x2: int, y2: int) {
    function Left(): int { x1 }
    function Top(): int { y1 }
    function Width(): int { x2 - x1 + 1 }
    function Height(): int { y2 - y1 + 1 }
  }

  /** QRect(left, top, width, height); its accessors give back the four values. */
  function MakeRect(left: int, top: int, width: int, height: int): (r: Rect)
    ensures r.Left() == left && r.Top() == top && r.Width() == width && r.Height() == height
  {
    Rect(left, top, left + width - 1, top + height - 1)
  }

  /** Every rectangle is the one built from its own left, top, width and height. */
  lemma RectRoundTrip(r: Rect)
    ensures MakeRect(r.Left(), r.Top(), r.Width(), r.Height()) == r
  {
  }

  /** A QSpinBox: its value and range. */
  datatype SpinBox = SpinBox(value: int, minimum: int, maximum: int)

  predicate WellFormed(b: SpinBox) {
    b.minimum <= b.value <= b.maximum
  }

  /** QSpinBox's default state: value 0 in the range 0 to 99. */
  const DefaultSpinBox := SpinBox(0, 0, 99)

  /** setValue(v): the value is bounded to the range. */
  function SetValue(b: SpinBox, v: int): (r: SpinBox)
    requires WellFormed(b)
    ensures WellFormed(r) && r.minimum == b.minimum && r.maximum == b.maximum
    ensures r.value == v <==> b.minimum <= v <= b.maximum
    ensures v < b.minimum ==> r.value == b.minimum
    ensures v > b.maximum ==> r.value == b.maximum
  {
    if v < b.minimum then b.(value := b.minimum)
    else if v > b.maximum then b.(value := b.maximum)
    else b.(value := v)
  }

  /**
   * setMaximum(m): the minimum drops to m when it was not below it, and the
   * value is bounded to the new range.
   */
  function SetMaximum(b: SpinBox, m: int): (r: SpinBox)
    requires WellFormed(b)
    ensures WellFormed(r) && r.maximum == m
    ensures r.minimum == (if b.minimum < m then b.minimum else m)
    ensures r.value <= b.value
    ensures r.value == b.value <==> b.value <= m
    ensures b.value > m ==> r.value == m
  {
    var lo := if b.minimum < m then b.minimum else m;
    SpinBox(if b.value > m then m else b.value, lo, m)
  }

  // ---------------------------------------------------------------------------
  // The four spin boxes and the slots their changes fire
  // ---------------------------------------------------------------------------

  /** The widget's spin boxes, as values. */
  datatype SpinBoxes = SpinBoxes(left: SpinBox, top: SpinBox, width: SpinBox, height: SpinBox)

  predicate AllWellFormed(b: SpinBoxes) {
    WellFormed(b.left) && WellFormed(b.top) && WellFormed(b.width) && WellFormed(b.height)
  }

  /** The rectangle the boxes describe, as cropRect() builds it. */
  function CropRectOf(b: SpinBoxes): (r: Rect)
    ensures r.Left() == b.left.value && r.Top() == b.top.value
    ensures r.Width() == b.width.value && r.Height() == b.height.value
  {
    MakeRect(b.left.value, b.top.value, b.width.value, b.height.value)
  }

  /** v bounded to [lo, hi]. */
  function Clamp(v: int, lo: int, hi: int): int {
    if v < lo then lo else if v > hi then hi else v
  }

  /**
   * The bounds slotPositionChanged sets before it tests the update flag:
   * the width may reach the right edge and the height the bottom edge. A
   * width those bounds shrink fires slotWidthChanged, whose own setMaximum
   * on the left box then leaves the left value as it is (and likewise for
   * the height and slotHeightChanged), so the cascade stops there.
   */
  function PositionBounds(b: SpinBoxes, image: Size): (r: SpinBoxes)
    requires AllWellFormed(b)
    ensures AllWellFormed(r)
    ensures r.width == SetMaximum(b.width, image.width - b.left.value)
    ensures r.height == SetMaximum(b.height, image.height - b.top.value)
    ensures r.left.value == b.left.value && r.top.value == b.top.value
    ensures r.left.value + r.width.value <= image.width && r.top.value + r.height.value <= image.height
  {
    var w := SetMaximum(b.width, image.width - b.left.value);
    var l := if w.value != b.width.value then SetMaximum(b.left, image.width - w.value) else b.left;
    var h := SetMaximum(b.height, image.height - b.top.value);
    var t := if h.value != b.height.value then SetMaximum(b.top, image.height - h.value) else b.top;
    SpinBoxes(l, t, w, h)
  }

  /**
   * The bound slotWidthChanged sets before it tests the update flag: the
   * left edge may move only as far as keeps the width inside the image. A
   * left value that bound moves fires slotPositionChanged, which leaves the
   * width value as it is.
   */
  function WidthBounds(b: SpinBoxes, image: Size): (r: SpinBoxes)
    requires AllWellFormed(b)
    ensures AllWellFormed(r)
    ensures r.left.value == SetMaximum(b.left, image.width - b.width.value).value
    ensures r.left.maximum == image.width - b.width.value
    ensures r.width.value == b.width.value && r.top.value == b.top.value
    ensures r.left.value + r.width.value <= image.width
  {
    var c := b.(left := SetMaximum(b.left, image.width - b.width.value));
    if c.left.value != b.left.value then PositionBounds(c, image) else c
  }

  /** slotHeightChanged's bound on the top box, the vertical twin of WidthBounds. */
  function HeightBounds(b: SpinBoxes, image: Size): (r: SpinBoxes)
    requires AllWellFormed(b)
    ensures AllWellFormed(r)
    ensures r.top.value == SetMaximum(b.top, image.height - b.height.value).value
    ensures r.top.maximum == image.height - b.height.value
    ensures r.height.value == b.height.value && r.left.value == b.left.value
    ensures r.top.value + r.height.value <= image.height
  {
    var c := b.(top := SetMaximum(b.top, image.height - b.height.value));
    if c.top.value != b.top.value then PositionBounds(c, image) else c
  }

  /** leftSpinBox->setValue(v), and slotPositionChanged's bounds if the value changed. */
  function EditLeft(b: SpinBoxes, v: int, image: Size): (r: SpinBoxes)
    requires AllWellFormed(b)
    ensures AllWellFormed(r)
    ensures r.left.value == Clamp(v, b.left.minimum, b.left.maximum)
  {
    var c := b.(left := SetValue(b.left, v));
    if c.left.value != b.left.value then PositionBounds(c, image) else c
  }

  /** topSpinBox->setValue(v), and slotPositionChanged's bounds if the value changed. */
  function EditTop(b: SpinBoxes, v: int, image: Size): (r: SpinBoxes)
    requires AllWellFormed(b)
    ensures AllWellFormed(r)
    ensures r.top.value == Clamp(v, b.top.minimum, b.top.maximum)
  {
    var c := b.(top := SetValue(b.top, v));
    if c.top.value != b.top.value then PositionBounds(c, image) else c
  }

  /** widthSpinBox->setValue(v), and slotWidthChanged's bound if the value changed. */
  function EditWidth(b: SpinBoxes, v: int, image: Size): (r: SpinBoxes)
    requires AllWellFormed(b)
    ensures AllWellFormed(r)
    ensures r.width.value == Clamp(v, b.width.minimum, b.width.maximum)
  {
    var c := b.(width := SetValue(b.width, v));
    if c.width.value != b.width.value then WidthBounds(c, image) else c
  }

  /** heightSpinBox->setValue(v), and slotHeightChanged's bound if the value changed. */
  function EditHeight(b: SpinBoxes, v: int, image: Size): (r: SpinBoxes)
    requires AllWellFormed(b)
    ensures AllWellFormed(r)
    ensures r.height.value == Clamp(v, b.height.minimum, b.height.maximum)
  {
    var c := b.(height := SetValue(b.height, v));
    if c.height.value != b.height.value then HeightBounds(c, image) else c
  }

  /**
   * setCropRect(rect) with the update flag raised: the four setValue calls in
   * order, each followed by the slot its change fires, which stops at the
   * flag test.
   */
  function SetCropRectBoxes(b: SpinBoxes, rect: Rect, image: Size): (r: SpinBoxes)
    requires AllWellFormed(b)
    ensures AllWellFormed(r)
  {
    var b1 := EditLeft(b, rect.Left(), image);
    var b2 := EditTop(b1, rect.Top(), image);
    var b3 := EditWidth(b2, rect.Width(), image);
    EditHeight(b3, rect.Height(), image)
  }

  /**
   * The boxes are fitted to the image: every minimum is 0, each size box may
   * reach the image edge from the current position, and each position box
   * may move only as far as keeps the current size inside the image.
   */
  predicate Fitted(b: SpinBoxes, image: Size) {
    AllWellFormed(b) &&
    b.left.minimum == 0 && b.top.minimum == 0 && b.width.minimum == 0 && b.height.minimum == 0 &&
    b.width.maximum == image.width - b.left.value && b.left.maximum == image.width - b.width.value &&
    b.height.maximum == image.height - b.top.value && b.top.maximum == image.height - b.height.value
  }

  /** The boxes initSpinBoxes leaves: QSpinBox defaults with the image's sides as maxima. */
  function InitialBoxes(image: Size): (r: SpinBoxes)
    requires image.width >= 0 && image.height >= 0
    ensures AllWellFormed(r)
    ensures r.left.maximum == image.width && r.width.maximum == image.width
    ensures r.top.maximum == image.height && r.height.maximum == image.height
    ensures r.left.value == 0 && r.top.value == 0 && r.width.value == 0 && r.height.value == 0
  {
    SpinBoxes(SetMaximum(DefaultSpinBox, image.width), SetMaximum(DefaultSpinBox, image.height),
              SetMaximum(DefaultSpinBox, image.width), SetMaximum(DefaultSpinBox, image.height))
  }

  /**
   * initSpinBoxes on an image of non-negative size changes no value, so it
   * fires no slot, and leaves the boxes fitted to the image.
   */
  lemma InitialFitted(image: Size)
    requires image.width >= 0 && image.height >= 0
    ensures Fitted(InitialBoxes(image), image)
    ensures InitialBoxes(image).left.value == 0 && InitialBoxes(image).top.value == 0
    ensures InitialBoxes(image).width.value == 0 && InitialBoxes(image).height.value == 0
  {
  }

  /** The boxes the constructor leaves are fitted to the image. */
  lemma ConstructedFitted(image: Size, b: SpinBoxes, rect: Rect)
    requires image.width >= 0 && image.height >= 0 && b == InitialBoxes(image)
    ensures AllWellFormed(b)
    ensures Fitted(SetCropRectBoxes(b, rect, image), image)
  {
    InitialFitted(image);
    SetCropRectFitted(b, rect, image);
  }

  /** A fitted crop lies inside the image. */
  lemma FittedInside(b: SpinBoxes, image: Size)
    requires Fitted(b, image)
    ensures 0 <= b.left.value && 0 <= b.width.value && b.left.value + b.width.value <= image.width
    ensures 0 <= b.top.value && 0 <= b.height.value && b.top.value + b.height.value <= image.height
  {
  }

  /** On fitted boxes, setting the left value bounds it by the current width and re-fits. */
  lemma EditLeftFitted(b: SpinBoxes, v: int, image: Size)
    requires Fitted(b, image)
    ensures var r := EditLeft(b, v, image);
      Fitted(r, image) && r.left.value == Clamp(v, 0, image.width - b.width.value) &&
      r.width.value == b.width.value && r.top == b.top && r.height == b.height
  {
    var c := b.(left := SetValue(b.left, v));
    if c.left.value != b.left.value {
      assert SetMaximum(c.height, image.height - c.top.value) == c.height;
    }
  }

  /** On fitted boxes, setting the top value bounds it by the current height and re-fits. */
  lemma EditTopFitted(b: SpinBoxes, v: int, image: Size)
    requires Fitted(b, image)
    ensures var r := EditTop(b, v, image);
      Fitted(r, image) && r.top.value == Clamp(v, 0, image.height - b.height.value) &&
      r.height.value == b.height.value && r.left == b.left && r.width == b.width
  {
    var c := b.(top := SetValue(b.top, v));
    if c.top.value != b.top.value {
      assert SetMaximum(c.width, image.width - c.left.value) == c.width;
    }
  }

  /** On fitted boxes, setting the width bounds it by the current left value and re-fits. */
  lemma EditWidthFitted(b: SpinBoxes, v: int, image: Size)
    requires Fitted(b, image)
    ensures var r := EditWidth(b, v, image);
      Fitted(r, image) && r.width.value == Clamp(v, 0, image.width - b.left.value) &&
      r.left.value == b.left.value && r.top == b.top && r.height == b.height
  {
  }

  /** On fitted boxes, setting the height bounds it by the current top value and re-fits. */
  lemma EditHeightFitted(b: SpinBoxes, v: int, image: Size)
    requires Fitted(b, image)
    ensures var r := EditHeight(b, v, image);
      Fitted(r, image) && r.height.value == Clamp(v, 0, image.height - b.top.value) &&
      r.top.value == b.top.value && r.left == b.left && r.width == b.width
  {
  }

  /**
   * setCropRect on fitted boxes keeps them fitted. The left value is bounded
   * by the width the boxes held before the call, and only then the width by
   * the new left value; likewise top and height.
   */
  lemma SetCropRectFitted(b: SpinBoxes, rect: Rect, image: Size)
    requires Fitted(b, image)
    ensures var r := SetCropRectBoxes(b, rect, image);
      Fitted(r, image) &&
      r.left.value == Clamp(rect.Left(), 0, image.width - b.width.value) &&
      r.width.value == Clamp(rect.Width(), 0, image.width - r.left.value) &&
      r.top.value == Clamp(rect.Top(), 0, image.height - b.height.value) &&
      r.height.value == Clamp(rect.Height(), 0, image.height - r.top.value)
  {
    var b1 := EditLeft(b, rect.Left(), image);
    EditLeftFitted(b, rect.Left(), image);
    var b2 := EditTop(b1, rect.Top(), image);
    EditTopFitted(b1, rect.Top(), image);
    var b3 := EditWidth(b2, rect.Width(), image);
    EditWidthFitted(b2, rect.Width(), image);
    EditHeightFitted(b3, rect.Height(), image);
  }

  /**
   * On fitted boxes the spin boxes show exactly the rectangle setCropRect was
   * given iff it lies inside the image and its left and top edges also fit
   * beside the width and height the boxes held before the call.
   */
  lemma SetCropRectReadBack(b: SpinBoxes, rect: Rect, image: Size)
    requires Fitted(b, image)
    ensures CropRectOf(SetCropRectBoxes(b, rect, image)) == rect <==>
      0 <= rect.Left() <= image.width - b.width.value && 0 <= rect.Width() <= image.width - rect.Left() &&
      0 <= rect.Top() <= image.height - b.height.value && 0 <= rect.Height() <= image.height - rect.Top()
  {
    SetCropRectFitted(b, rect, image);
    var r := SetCropRectBoxes(b, rect, image);
    RectRoundTrip(rect);
    if r.left.value == rect.Left() && r.top.value == rect.Top() &&
       r.width.value == rect.Width() && r.height.value == rect.Height() {
      assert CropRectOf(r) == MakeRect(rect.Left(), rect.Top(), rect.Width(), rect.Height());
    }
  }

  /**
   * A rectangle inside the image is not always read back: on a 100-wide
   * image cropped from left 0 with width 90, the crop tool's move to left 40
   * with width 20 leaves the left box at 10, because the left value is
   * bounded by the old width of 90 before the new width is set.
   */
  lemma MoveWithShrinkClamped(b: SpinBoxes, rect: Rect, image: Size)
    requires Fitted(b, image) && image.width == 100
    requires b.left.value == 0 && b.width.value == 90
    requires rect.Left() == 40 && rect.Width() == 20
    requires rect.Top() == b.top.value && rect.Height() == b.height.value
    ensures rect.Left() + rect.Width() <= image.width
    ensures CropRectOf(SetCropRectBoxes(b, rect, image)).Left() == 10
    ensures CropRectOf(SetCropRectBoxes(b, rect, image)).Width() == 20
  {
    SetCropRectFitted(b, rect, image);
  }

  /**
   * slotWidthChanged's effect on the boxes: its bound, then, for an edit by
   * the user under a constrained ratio, the height that ratio derives.
   */
  function WidthSlotBoxes(b: SpinBoxes, image: Size, raised: bool, constrainedHeight: Option<int>): (r: SpinBoxes)
    requires AllWellFormed(b)
    ensures AllWellFormed(r)
    ensures r.width.value == b.width.value
    ensures r.left.maximum == image.width - b.width.value
    ensures r.left.value + r.width.value <= image.width
  {
    var c := WidthBounds(b, image);
    if raised || constrainedHeight.None? then c else EditHeight(c, constrainedHeight.value, image)
  }

  /** slotHeightChanged's effect on the boxes, the vertical twin of WidthSlotBoxes. */
  function HeightSlotBoxes(b: SpinBoxes, image: Size, raised: bool, constrainedWidth: Option<int>): (r: SpinBoxes)
    requires AllWellFormed(b)
    ensures AllWellFormed(r)
    ensures r.height.value == b.height.value
    ensures r.top.maximum == image.height - b.height.value
    ensures r.top.value + r.height.value <= image.height
  {
    var c := HeightBounds(b, image);
    if raised || constrainedWidth.None? then c else EditWidth(c, constrainedWidth.value, image)
  }

  // ---------------------------------------------------------------------------
  // The widget
  // ---------------------------------------------------------------------------

  class CropWidget {
    /** The document's size, which the slots read. */
    const image: Size
    var left: SpinBox
    var top: SpinBox
    var width: SpinBox
    var height: SpinBox
    var updatingFromCropTool: bool
    /** The rectangle the crop tool was last given. */
    var toolRect: Rect

    function Boxes(): SpinBoxes
      reads this
    {
      SpinBoxes(left, top, width, height)
    }

    ghost predicate Valid()
      reads this
    {
      AllWellFormed(Boxes())
    }

    /** cropRect(): the rectangle the four spin boxes describe. */
    function CropRect(): (r: Rect)
      reads this
      ensures r.Left() == left.value && r.Top() == top.value
      ensures r.Width() == width.value && r.Height() == height.value
    {
      CropRectOf(Boxes())
    }

    /**
     * The constructor: default spin boxes, initSpinBoxes, then setCropRect
     * with the crop tool's rectangle.
     */
    constructor (image: Size, cropToolRect: Rect)
      requires image.width >= 0 && image.height >= 0
      ensures Valid() && this.image == image
      ensures !updatingFromCropTool && toolRect == cropToolRect
      ensures Boxes() == SetCropRectBoxes(InitialBoxes(image), cropToolRect, image)
      ensures Fitted(Boxes(), image)
    {
      this.image := image;
      // The boxes start at QSpinBox's defaults; initSpinBoxes then sets their
      // maxima to the image's sides, which changes no value, so no slot fires.
      var init := InitialBoxes(image);
      left, top, width, height := init.left, init.top, init.width, init.height;
      updatingFromCropTool := false;
      toolRect := cropToolRect;
      new;
      ghost var before := Boxes();
      ConstructedFitted(image, before, cropToolRect);
      SetCropRect(cropToolRect);
    }

    /**
     * setCropRect(rect): the four spin boxes take the rectangle's values with
     * the update flag raised; each value that changes fires its slot, which
     * sets its bounds and returns before telling the crop tool.
     */
    method SetCropRect(rect: Rect)
      requires Valid()
      modifies this
      ensures Valid()
      ensures !updatingFromCropTool && toolRect == old(toolRect)
      ensures Boxes() == SetCropRectBoxes(old(Boxes()), rect, image)
    {
      updatingFromCropTool := true;
      SetLeftValue(rect.Left());
      SetTopValue(rect.Top());
      SetWidthValue(rect.Width());
      SetHeightValue(rect.Height());
      updatingFromCropTool := false;
    }

    /**
     * leftSpinBox->setValue(v) while the update flag is raised: a change of
     * value fires slotPositionChanged, which stops at the flag test.
     */
    method SetLeftValue(v: int)
      requires Valid() && updatingFromCropTool
      modifies this
      ensures Valid() && updatingFromCropTool && toolRect == old(toolRect)
      ensures Boxes() == EditLeft(old(Boxes()), v, image)
    {
      var was := left.value;
      left := SetValue(left, v);
      if left.value != was {
        SlotPositionChanged();
      }
    }

    /** topSpinBox->setValue(v) while the update flag is raised. */
    method SetTopValue(v: int)
      requires Valid() && updatingFromCropTool
      modifies this
      ensures Valid() && updatingFromCropTool && toolRect == old(toolRect)
      ensures Boxes() == EditTop(old(Boxes()), v, image)
    {
      var was := top.value;
      top := SetValue(top, v);
      if top.value != was {
        SlotPositionChanged();
      }
    }

    /** widthSpinBox->setValue(v) while the update flag is raised: slotWidthChanged fires. */
    method SetWidthValue(v: int)
      requires Valid() && updatingFromCropTool
      modifies this
      ensures Valid() && updatingFromCropTool && toolRect == old(toolRect)
      ensures Boxes() == EditWidth(old(Boxes()), v, image)
    {
      var was := width.value;
      width := SetValue(width, v);
      if width.value != was {
        SlotWidthChanged(None);
      }
    }

    /** heightSpinBox->setValue(v) while the update flag is raised: slotHeightChanged fires. */
    method SetHeightValue(v: int)
      requires Valid() && updatingFromCropTool
      modifies this
      ensures Valid() && updatingFromCropTool && toolRect == old(toolRect)
      ensures Boxes() == EditHeight(old(Boxes()), v, image)
    {
      var was := height.value;
      height := SetValue(height, v);
      if height.value != was {
        SlotHeightChanged(None);
      }
    }

    /**
     * slotPositionChanged: the width and height may now reach only the image's
     * right and bottom edges; the crop tool is told unless the change came
     * from it.
     */
    method SlotPositionChanged()
      requires Valid()
      modifies this
      ensures Valid() && updatingFromCropTool == old(updatingFromCropTool)
      ensures Boxes() == PositionBounds(old(Boxes()), image)
      ensures toolRect == if updatingFromCropTool then old(toolRect) else CropRect()
    {
      var w := width.value;
      width := SetMaximum(width, image.width - left.value);
      if width.value != w {
        // slotWidthChanged, fired by the change: its bound keeps the left value
        left := SetMaximum(left, image.width - width.value);
      }
      var h := height.value;
      height := SetMaximum(height, image.height - top.value);
      if height.value != h {
        // slotHeightChanged, fired by the change: its bound keeps the top value
        top := SetMaximum(top, image.height - height.value);
      }
      if updatingFromCropTool {
        return;
      }
      toolRect := CropRect();
    }

    /**
     * slotWidthChanged: the left edge may now move only as far as keeps the
     * rectangle inside the image. `constrainedHeight` is the height a
     * constrained ratio derives from the width, None when the ratio is free.
     */
    method SlotWidthChanged(constrainedHeight: Option<int>)
      requires Valid()
      modifies this
      ensures Valid() && updatingFromCropTool == old(updatingFromCropTool)
      ensures Boxes() == WidthSlotBoxes(old(Boxes()), image, updatingFromCropTool, constrainedHeight)
      ensures toolRect == if updatingFromCropTool then old(toolRect) else CropRect()
      decreases if constrainedHeight.Some? then 1 else 0
    {
      ghost var before := Boxes();
      var l := left.value;
      left := SetMaximum(left, image.width - width.value);
      if left.value != l {
        SlotPositionChanged();
      }
      assert Boxes() == WidthBounds(before, image);
      if updatingFromCropTool {
        return;
      }
      if constrainedHeight.Some? {
        ghost var bounded := Boxes();
        var h := height.value;
        height := SetValue(height, constrainedHeight.value);
        if height.value != h {
          SlotHeightChanged(None);
        }
        assert Boxes() == EditHeight(bounded, constrainedHeight.value, image);
      }
      toolRect := CropRect();
    }

    /**
     * slotHeightChanged: the top edge may now move only as far as keeps the
     * rectangle inside the image. `constrainedWidth` is the width a
     * constrained ratio derives from the height, None when the ratio is free.
     */
    method SlotHeightChanged(constrainedWidth: Option<int>)
      requires Valid()
      modifies this
      ensures Valid() && updatingFromCropTool == old(updatingFromCropTool)
      ensures Boxes() == HeightSlotBoxes(old(Boxes()), image, updatingFromCropTool, constrainedWidth)
      ensures toolRect == if updatingFromCropTool then old(toolRect) else CropRect()
      decreases if constrainedWidth.Some? then 1 else 0
    {
      ghost var before := Boxes();
      var t := top.value;
      top := SetMaximum(top, image.height - height.value);
      if top.value != t {
        SlotPositionChanged();
      }
      assert Boxes() == HeightBounds(before, image);
      if updatingFromCropTool {
        return;
      }
      if constrainedWidth.Some? {
        ghost var bounded := Boxes();
        var w := width.value;
        width := SetValue(width, constrainedWidth.value);
        if width.value != w {
          SlotWidthChanged(None);
        }
        assert Boxes() == EditWidth(bounded, constrainedWidth.value, image);
      }
      toolRect := CropRect();
    }
  }
}
