/** Checkpoint.js: a mutable 2D point, and a checkpoint that belongs to one colour
    channel. The curve engine computes with `Pt`, the value of a point. */
module Points {
  import opened Wrappers
  import opened RGBColors

  /** The coordinates of a point, as a value. */
  datatype Pt = Pt(x: real, y: real)

  class Point {
    var x: real
    var y: real

    constructor (x: real, y: real)
      ensures this.x == x && this.y == y
      ensures GetX() == x && GetY() == y
    {
      this.x := x;
      this.y := y;
    }

    function GetX(): real reads this { x }
    function GetY(): real reads this { y }

    /** The coordinates this object holds now. */
    function Value(): (p: Pt)
      reads this
      ensures p.x == GetX() && p.y == GetY()
    {
      Pt(x, y)
    }

    method SetX(x: real)
      modifies this
      ensures this.x == x && y == old(y)
    {
      this.x := x;
    }

    method SetY(y: real)
      modifies this
      ensures this.y == y && x == old(x)
    {
      this.y := y;
    }
  }

  /** A point of a colour channel; `Checkpoint extends Point` is modelled by
      composition: the position is the `Point` object `point`. */
  class Checkpoint {
    const point: Point
    const colorName: Symbol

    /** Every checkpoint the constructor lets through carries an RGB colour name. */
    predicate Valid() { colorName.IsRGB() }

    constructor (x: real, y: real, colorName: Symbol)
      requires colorName.IsRGB()
      ensures fresh(point) && point.x == x && point.y == y
      ensures this.colorName == colorName && Valid()
    {
      point := new Point(x, y);
      this.colorName := colorName;
    }

    /** `new Checkpoint(x, y, colorName)`: throws unless the name is one of the
        three RGB symbols. */
    static method Create(x: real, y: real, colorName: Symbol) returns (r: Result<Checkpoint>)
      ensures r.Success? <==> colorName.IsRGB()
      ensures r.Failure? ==> r.error == InvalidArgument
      ensures r.Success? ==> fresh(r.value) && fresh(r.value.point) && r.value.Valid()
      ensures r.Success? ==>
        r.value.point.Value() == Pt(x, y) && r.value.GetColorName() == colorName
    {
      if colorName != Red && colorName != Green && colorName != Blue {
        return Failure(InvalidArgument);
      }
      var c := new Checkpoint(x, y, colorName);
      return Success(c);
    }

    /** The colour name never changes: it is a constant of the object. */
    function GetColorName(): (c: Symbol)
      requires Valid()
      ensures c.IsRGB()
    {
      colorName
    }
  }
}
