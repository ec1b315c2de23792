/** RGBColor.js: the three colour-name symbols and a mutable RGB colour. */
module RGBColors {
  import opened Wrappers

  /** The symbols of the `RGB` table, plus any other value a caller might pass
      where a colour name is expected. */
  datatype Symbol = Red | Green | Blue | OtherSymbol(description: string)
  {
    predicate IsRGB() { Red? || Green? || Blue? }
  }

  /** A component value accepted by the constructor. */
  predicate InUnit(v: real) { 0.0 <= v <= 1.0 }

  class RGBColor {
    var red: real
    var green: real
    var blue: real

    /** The range invariant the constructor establishes (the setters do not keep it). */
    predicate InRange()
      reads this
    {
      InUnit(red) && InUnit(green) && InUnit(blue)
    }

    constructor (red: real, green: real, blue: real)
      requires InUnit(red) && InUnit(green) && InUnit(blue)
      ensures this.red == red && this.green == green && this.blue == blue
      ensures InRange()
    {
      this.red := red;
      this.green := green;
      this.blue := blue;
    }

    /** `new RGBColor(r, g, b)`: throws unless every component lies in [0, 1]. */
    static method Create(red: real, green: real, blue: real) returns (r: Result<RGBColor>)
      ensures r.Success? <==> InUnit(red) && InUnit(green) && InUnit(blue)
      ensures r.Failure? ==> r.error == RangeError
      ensures r.Success? ==> fresh(r.value) && r.value.InRange()
      ensures r.Success? ==>
        r.value.GetRed() == red && r.value.GetGreen() == green && r.value.GetBlue() == blue
    {
      if red < 0.0 || red > 1.0 || green < 0.0 || green > 1.0 || blue < 0.0 || blue > 1.0 {
        return Failure(RangeError);
      }
      var c := new RGBColor(red, green, blue);
      return Success(c);
    }

    function GetRed(): real reads this { red }
    function GetGreen(): real reads this { green }
    function GetBlue(): real reads this { blue }

    /** The three intensities, red first. */
    function GetRGB(): (c: seq<real>)
      reads this
      ensures |c| == 3
      ensures c[0] == GetRed() && c[1] == GetGreen() && c[2] == GetBlue()
    {
      [red, green, blue]
    }

    /** No range check: the colour may leave [0, 1]. */
    method SetRed(red: real)
      modifies this
      ensures this.red == red && green == old(green) && blue == old(blue)
      ensures InRange() <==> InUnit(red) && InUnit(old(green)) && InUnit(old(blue))
    {
      this.red := red;
    }

    method SetGreen(green: real)
      modifies this
      ensures this.green == green && red == old(red) && blue == old(blue)
      ensures InRange() <==> InUnit(old(red)) && InUnit(green) && InUnit(old(blue))
    {
      this.green := green;
    }

    method SetBlue(blue: real)
      modifies this
      ensures this.blue == blue && red == old(red) && green == old(green)
      ensures InRange() <==> InUnit(old(red)) && InUnit(old(green)) && InUnit(blue)
    {
      this.blue := blue;
    }

    method SetRGB(red: real, green: real, blue: real)
      modifies this
      ensures this.red == red && this.green == green && this.blue == blue
      ensures InRange() <==> InUnit(red) && InUnit(green) && InUnit(blue)
    {
      this.red := red;
      this.green := green;
      this.blue := blue;
    }
  }
}
