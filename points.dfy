/** Two-dimensional points and vectors (row y, column x) and moves between them. */
module Points {

  /** Integer division rounding toward zero, as C++ `/` does; Dafny's `/` is Euclidean instead. */
  function DivTowardZero(n: int, d: nat): int
    requires d > 0
  {
    if n >= 0 then n / d else -((-n) / d)
  }

  function HalveTowardZero(n: int): (r: int)
    ensures 2 * r == n || 2 * r == n - 1 || 2 * r == n + 1
    ensures n >= 0 ==> 0 <= r <= n && r == n / 2
    ensures n < 0 ==> n <= r <= 0 && r == -((-n) / 2)
  {
    DivTowardZero(n, 2)
  }

  function Abs(n: int): (r: nat)
    ensures r == n || r == -n
  {
    if n < 0 then -n else n
  }

  datatype Point = Point(y: int, x: int) {

    function Inverse(): Point {
      Point(-y, -x)
    }

    function Add(p: Point): Point {
      Point(y + p.y, x + p.x)
    }

    function Subtract(p: Point): Point {
      Add(p.Inverse())
    }

    /** Component-wise midpoint with the division truncated toward zero. */
    function Average(p: Point): Point {
      var sum := Add(p);
      Point(HalveTowardZero(sum.y), HalveTowardZero(sum.x))
    }

    function Equals(p: Point): bool {
      p.x == x && p.y == y
    }
  }

  datatype Move = Move(src: Point, dest: Point)

  lemma InverseIsInvolution(a: Point)
    ensures a.Inverse().Inverse() == a
    ensures a.Inverse() == Point(-a.y, -a.x)
  {
  }

  lemma AddCommutes(a: Point, b: Point)
    ensures a.Add(b) == b.Add(a)
    ensures a.Add(b) == Point(a.y + b.y, a.x + b.x)
  {
  }

  lemma SubtractProperties(a: Point, b: Point)
    ensures a.Subtract(b) == a.Add(b.Inverse())
    ensures a.Subtract(b) == Point(a.y - b.y, a.x - b.x)
    ensures a.Subtract(a) == Point(0, 0)
    ensures a.Subtract(b).Inverse() == b.Subtract(a)
  {
  }

  lemma EqualsIsStructural(a: Point, b: Point)
    ensures a.Equals(b) <==> a == b
    ensures a.Equals(a)
    ensures a.Equals(b) == b.Equals(a)
  {
  }

  /** The midpoint rounds toward zero: averaging (0,0) with (-1,-1) yields (0,0), where Dafny's
      floor division of the sum by two would give (-1,-1). */
  lemma AverageTruncatesTowardZero()
    ensures Point(0, 0).Average(Point(-1, -1)) == Point(0, 0)
    ensures (0 + -1) / 2 == -1
    ensures Point(0, 0).Average(Point(3, -3)) == Point(1, -1)
  {
    assert HalveTowardZero(-1) == 0 && HalveTowardZero(3) == 1 && HalveTowardZero(-3) == -1;
    assert Point(0, 0).Add(Point(-1, -1)) == Point(-1, -1);
    assert Point(0, 0).Add(Point(3, -3)) == Point(3, -3);
  }

  lemma AverageProperties(a: Point, b: Point)
    ensures a.Average(b) == b.Average(a)
    ensures a.Average(a) == a
    ensures a.Average(b).Inverse() == a.Inverse().Average(b.Inverse())
  {
  }
}
