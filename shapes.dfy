/** Rectangles and squares with mutable sides (liskov-substitution-principle/01_example.js).
    Dimensions are integers. `SquareTwo` overrides the setters of
    `RectangleTwo`; the model keeps one class and records which of the two
    classes an object was built as, so the setters dispatch as JavaScript does
    and a square can be passed wherever a rectangle is expected. */
module Shapes {
  import opened Decimal
  import opened Seqs

  /** `${width}x${height}`: the width's digits, one 'x', the height's digits.
      No digit text contains an 'x', so the separator is the only one. */
  function Show(width: int, height: int): (shown: string)
    ensures |shown| == |IntToString(width)| + 1 + |IntToString(height)|
    ensures shown[..|IntToString(width)|] == IntToString(width)
    ensures shown[|IntToString(width)| + 1..] == IntToString(height)
    ensures forall i :: 0 <= i < |shown| ==> (shown[i] == 'x' <==> i == |IntToString(width)|)
  {
    IntToString(width) + "x" + IntToString(height)
  }

  /** The text determines both sides: no two shapes of different sizes print alike. */
  lemma ShowDeterminesSides(w1: int, h1: int, w2: int, h2: int)
    requires Show(w1, h1) == Show(w2, h2)
    ensures w1 == w2 && h1 == h2
  {
    assert 'x' !in IntToString(w1) && 'x' !in IntToString(w2);
    assert Show(w1, h1) == IntToString(w1) + ['x'] + IntToString(h1);
    assert Show(w2, h2) == IntToString(w2) + ['x'] + IntToString(h2);
    SplitAtSeparator(IntToString(w1), IntToString(h1), IntToString(w2), IntToString(h2), 'x');
    IntToStringInjective(w1, w2);
    IntToStringInjective(h1, h2);
  }

  // ---------------------------------------------------------------------
  // First version: public fields

  /** `Rectangle`; a `Square` is a `Rectangle` built with equal sides and has
      nothing else of its own, so its fields can still be written one at a time. */
  class Rectangle {
    var width: int
    var height: int

    constructor(width: int, height: int)
      ensures this.width == width && this.height == height
    {
      this.width := width;
      this.height := height;
    }

    /** `new Square(size)`. */
    constructor Square(size: int)
      ensures width == size && height == size
    {
      width := size;
      height := size;
    }

    /** The `area` getter. */
    function Area(): (area: int)
      reads this
      ensures area == width * height
    {
      width * height
    }

    /** `toString()`. */
    function ToString(): (shown: string)
      reads this
      ensures shown == IntToString(width) + "x" + IntToString(height)
    {
      Show(width, height)
    }
  }

  // ---------------------------------------------------------------------
  // Second version: setters

  /** `RectangleTwo`, or `SquareTwo` when `isSquare`. The fields `width` and
      `height` are the backing fields `_width` and `_height`. */
  class RectangleTwo {
    var width: int
    var height: int
    const isSquare: bool

    /** A `SquareTwo` has equal sides. */
    ghost predicate Valid()
      reads this
    {
      isSquare ==> width == height
    }

    constructor(width: int, height: int)
      ensures Valid() && !isSquare
      ensures this.width == width && this.height == height
    {
      this.width := width;
      this.height := height;
      isSquare := false;
    }

    /** `new SquareTwo(size)`. */
    constructor SquareTwo(size: int)
      ensures Valid() && isSquare
      ensures width == size && height == size
    {
      width := size;
      height := size;
      isSquare := true;
    }

    /** The `width` setter: a rectangle changes its width only, a square both sides. */
    method SetWidth(value: int)
      modifies this
      ensures Valid()
      ensures width == value
      ensures height == if isSquare then value else old(height)
    {
      if isSquare {
        width, height := value, value;
      } else {
        width := value;
      }
    }

    /** The `height` setter: a rectangle changes its height only, a square both sides. */
    method SetHeight(value: int)
      modifies this
      ensures Valid()
      ensures height == value
      ensures width == if isSquare then value else old(width)
    {
      if isSquare {
        width, height := value, value;
      } else {
        height := value;
      }
    }

    /** The `area` getter; a square's area is its side squared. */
    function Area(): (area: int)
      reads this
      ensures area == width * height
      ensures Valid() && isSquare ==> area == width * width
    {
      width * height
    }

    /** `toString()`. */
    function ToString(): (shown: string)
      reads this
      ensures shown == IntToString(width) + "x" + IntToString(height)
    {
      Show(width, height)
    }
  }

  /** `useIt`: a caller written for rectangles sets the height to 10 and
      expects the area to be ten times the width it read before. That holds
      for every rectangle, and for a square only when its side was already 10. */
  method UseIt(rc: RectangleTwo) returns (expected: int, got: int)
    modifies rc
    ensures rc.Valid()
    ensures rc.height == 10 && rc.width == if rc.isSquare then 10 else old(rc.width)
    ensures expected == 10 * old(rc.width)
    ensures got == rc.Area()
    ensures got == expected <==> !rc.isSquare || old(rc.width) == 10
  {
    var width := rc.width;
    rc.SetHeight(10);
    expected := 10 * width;
    got := rc.Area();
  }

  // ---------------------------------------------------------------------
  // The script's own shapes

  /** `new Rectangle(200, 300)` prints as 200x300. */
  method RectangleExample() returns (shown: string)
    ensures shown == "200x300"
  {
    var rc := new Rectangle(200, 300);
    shown := rc.ToString();
    assert NatToString(2) == "2";
    assert NatToString(20) == "20";
    assert NatToString(3) == "3";
    assert NatToString(30) == "30";
  }

  /** The texts of the sides the script uses. */
  lemma FiveAndTen()
    ensures IntToString(5) == "5" && IntToString(10) == "10"
  {
    assert NatToString(1) == "1";
  }

  /** Writing the width of a 5x5 `Square` gives 10x5: it is no longer square. */
  method SquareExample() returns (before: string, after: string)
    ensures before == "5x5" && after == "10x5"
  {
    var sq := new Rectangle.Square(5);
    before := sq.ToString();
    sq.width := 10;
    after := sq.ToString();
    assert before == "5x5" && after == "10x5" by {
      FiveAndTen();
    }
  }

  /** Writing the width of a `Square` directly leaves its height alone, so the
      area is no longer the side squared unless the width did not change (or is 0). */
  method SquareWidthWrite(size: int, w: int) returns (area: int)
    ensures area == w * size
    ensures area == w * w <==> w == 0 || w == size
  {
    var sq := new Rectangle.Square(size);
    sq.width := w;
    area := sq.Area();
  }

  /** Setting the width of a 5x5 `SquareTwo` gives 10x10. */
  method SquareTwoExample() returns (before: string, after: string)
    ensures before == "5x5" && after == "10x10"
  {
    var sq := new RectangleTwo.SquareTwo(5);
    before := sq.ToString();
    sq.SetWidth(10);
    after := sq.ToString();
    assert before == "5x5" && after == "10x10" by {
      FiveAndTen();
    }
  }

  /** `useIt` on a 5x10 rectangle expects 50 and gets 50; on a 5x5 square it
      expects 50 and gets 100. */
  method UseItExample() returns (rectExpected: int, rectGot: int, squareExpected: int, squareGot: int)
    ensures rectExpected == 50 && rectGot == 50
    ensures squareExpected == 50 && squareGot == 100
  {
    var rc := new RectangleTwo(5, 10);
    rectExpected, rectGot := UseIt(rc);
    var sq := new RectangleTwo.SquareTwo(5);
    squareExpected, squareGot := UseIt(sq);
  }
}
