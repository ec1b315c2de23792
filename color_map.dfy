/** ColorMap.js: a colour map of `size` colours, colour k taking its red, green
    and blue intensities from the three channels at the normalised position
    k / (size - 1). */
module ColorMaps {
  import opened Wrappers
  import opened RGBColors
  import opened Channels

  /** `#normalize`: the position k / (size - 1) at which colour k samples the
      channels. (A map of one colour divides 0 by 0.) */
  function Normalize(k: int, size: int): (x: real)
    requires size != 1
    ensures x * (size - 1) as real == k as real
  {
    k as real / (size - 1) as real
  }

  /** The first colour sits at 0 and the last at 1. */
  lemma NormalizeEnds(size: int)
    requires size >= 2
    ensures Normalize(0, size) == 0.0
    ensures Normalize(size - 1, size) == 1.0
  {
  }

  /** Distinct colours sample distinct positions, in the order of their indices. */
  lemma NormalizeIncreasing(j: int, k: int, size: int)
    requires size >= 2 && j < k
    ensures Normalize(j, size) < Normalize(k, size)
  {
    var d := (size - 1) as real;
    var xj, xk := Normalize(j, size), Normalize(k, size);
    assert (xk - xj) * d == (k - j) as real;
  }

  /** Every colour of the map samples the channels inside [0, 1]. */
  lemma NormalizeInUnit(k: int, size: int)
    requires size >= 2 && 0 <= k < size
    ensures 0.0 <= Normalize(k, size) <= 1.0
  {
    NormalizeEnds(size);
    if 0 < k {
      NormalizeIncreasing(0, k, size);
    }
    if k < size - 1 {
      NormalizeIncreasing(k, size - 1, size);
    }
  }

  /** The red, green and blue intensities of the three channels at x. */
  function Intensities(red: Channel, green: Channel, blue: Channel, x: real): seq<real>
  {
    [red.EvaluateX(x), green.EvaluateX(x), blue.EvaluateX(x)]
  }

  /** Colour k can be built: the `RGBColor` constructor accepts its intensities. */
  predicate Admissible(red: Channel, green: Channel, blue: Channel, size: int, k: int)
    requires size != 1
  {
    var v := Intensities(red, green, blue, Normalize(k, size));
    InUnit(v[0]) && InUnit(v[1]) && InUnit(v[2])
  }

  /** Every colour of a map of that size can be built. */
  predicate AllAdmissible(red: Channel, green: Channel, blue: Channel, size: int)
    requires size != 1
  {
    forall k :: 0 <= k < size ==> Admissible(red, green, blue, size, k)
  }

  /** Where the loop of `update`, started at k, stops: at the first colour it
      cannot build, or at the end of the map. */
  function Stop(red: Channel, green: Channel, blue: Channel, size: int, k: int): (m: int)
    requires size != 1 && 0 <= k
    ensures k <= m && (m == k || m <= size)
    ensures forall j :: k <= j < m ==> Admissible(red, green, blue, size, j)
    ensures m < size ==> !Admissible(red, green, blue, size, m)
    decreases size - k
  {
    if k >= size || !Admissible(red, green, blue, size, k) then k
    else Stop(red, green, blue, size, k + 1)
  }

  /** Started after colours that can all be built, the loop stops where it
      would have stopped started at 0. */
  lemma {:induction false} StopSkips(red: Channel, green: Channel, blue: Channel, size: int, k: int)
    requires size != 1 && 0 <= k && (k == 0 || k <= size)
    requires forall j :: 0 <= j < k ==> Admissible(red, green, blue, size, j)
    ensures Stop(red, green, blue, size, k) == Stop(red, green, blue, size, 0)
  {
    if k > 0 {
      StopSkips(red, green, blue, size, k - 1);
    }
  }

  /** The loop reaches the end of the map exactly when every colour can be built. */
  lemma StopAtEnd(red: Channel, green: Channel, blue: Channel, size: int)
    requires size >= 0 && size != 1
    ensures Stop(red, green, blue, size, 0) == size <==> AllAdmissible(red, green, blue, size)
  {
  }

  class ColorMap {
    const red: Channel
    const green: Channel
    const blue: Channel
    var size: int
    var colors: array<RGBColor?>

    /** The array has `size` entries, whenever `size` is a valid array length. */
    predicate Valid()
      reads this
    {
      size >= 0 ==> colors.Length == size
    }

    /** The first `upTo` colours hold the channels' intensities at their positions. */
    predicate Filled(upTo: int)
      requires size != 1 && upTo <= colors.Length
      reads this, colors, colors[..]
    {
      forall k :: 0 <= k < upTo ==>
        colors[k] != null && colors[k].InRange() &&
        colors[k].GetRGB() == Intensities(red, green, blue, Normalize(k, size))
    }

    /** The allocation part of the constructor: the channels, the size and an
        array of `mapSize` empty slots (`new Array(mapSize)`). */
    constructor (red: Channel, green: Channel, blue: Channel, mapSize: nat)
      ensures this.red == red && this.green == green && this.blue == blue
      ensures size == mapSize && fresh(colors) && colors.Length == mapSize
      ensures forall k :: 0 <= k < mapSize ==> colors[k] == null
      ensures Valid()
    {
      this.red := red;
      this.green := green;
      this.blue := blue;
      size := mapSize;
      colors := new RGBColor?[mapSize](_ => null);
    }

    /** `new ColorMap(red, green, blue, mapSize)`: a negative size is refused by
        `new Array`, and the constructor throws when `update` does. */
    static method Create(red: Channel, green: Channel, blue: Channel, mapSize: int)
      returns (r: Result<ColorMap>)
      requires mapSize != 1
      ensures r.Success? <==> mapSize >= 0 && AllAdmissible(red, green, blue, mapSize)
      ensures r.Failure? ==> r.error == RangeError
      ensures r.Success? ==>
        && fresh(r.value) && fresh(r.value.colors) && r.value.Valid()
        && r.value.red == red && r.value.green == green && r.value.blue == blue
        && r.value.size == mapSize && r.value.Filled(mapSize)
    {
      if mapSize < 0 {
        return Failure(RangeError);
      }
      var cm := new ColorMap(red, green, blue, mapSize);
      var o := cm.Update();
      if o.Fail? {
        return Failure(o.error);
      }
      StopAtEnd(red, green, blue, mapSize);
      return Success(cm);
    }

    /** `getRGBChannel`: the channel of an RGB symbol, `undefined` for any other. */
    function GetRGBChannel(c: Symbol): (r: Option<Channel>)
      ensures r.Some? <==> c.IsRGB()
      ensures c == Red ==> r == Some(red)
      ensures c == Green ==> r == Some(green)
      ensures c == Blue ==> r == Some(blue)
    {
      match c
      case Red => Some(red)
      case Green => Some(green)
      case Blue => Some(blue)
      case OtherSymbol(_) => None
    }

    /** `getRGBChannels`: each channel at the index of its symbol in red, green, blue. */
    function GetRGBChannels(): (r: seq<Channel>)
      ensures |r| == 3
      ensures Some(r[0]) == GetRGBChannel(Red)
      ensures Some(r[1]) == GetRGBChannel(Green)
      ensures Some(r[2]) == GetRGBChannel(Blue)
    {
      [red, green, blue]
    }

    function GetSize(): int
      reads this
    {
      size
    }

    function GetColors(): array<RGBColor?>
      reads this
    {
      colors
    }

    /** `getColorK`: throws outside [0, size), otherwise the k-th slot. */
    function GetColorK(k: int): (r: Result<RGBColor?>)
      requires Valid()
      reads this, colors
      ensures r.Success? <==> 0 <= k < size
      ensures r.Failure? ==> r.error == IndexError
      ensures r.Success? ==> k < colors.Length && r.value == colors[k]
    {
      if k < 0 || k >= size then Failure(IndexError) else Success(colors[k])
    }

    /** Colours that are filled in could be built. */
    lemma FilledAdmissible(upTo: int)
      requires size != 1 && upTo <= colors.Length && Filled(upTo)
      ensures forall k :: 0 <= k < upTo ==> Admissible(red, green, blue, size, k)
    {
      forall k | 0 <= k < upTo
        ensures Admissible(red, green, blue, size, k)
      {
        var c := colors[k].GetRGB();
        assert c == Intensities(red, green, blue, Normalize(k, size));
      }
    }

    /** The body of the loop of `update`: a new `RGBColor` of the intensities of
        colour k, or the error of the `RGBColor` constructor. */
    method NewColor(k: int) returns (color: Result<RGBColor>)
      requires size != 1
      ensures color.Success? <==> Admissible(red, green, blue, size, k)
      ensures color.Failure? ==> color.error == RangeError
      ensures color.Success? ==>
        && fresh(color.value) && color.value.InRange()
        && color.value.GetRGB() == Intensities(red, green, blue, Normalize(k, size))
    {
      var x := Normalize(k, size);
      var rv := red.EvaluateX(x);
      var gv := green.EvaluateX(x);
      var bv := blue.EvaluateX(x);
      color := RGBColor.Create(rv, gv, bv);
    }

    /** Colour k takes the place of its slot in the array. */
    method Store(k: int, c: RGBColor)
      requires size != 1 && 0 <= k < colors.Length && Filled(k)
      requires c.InRange() && c.GetRGB() == Intensities(red, green, blue, Normalize(k, size))
      modifies colors
      ensures colors[..] == old(colors[..])[k := c]
      ensures Filled(k + 1)
    {
      colors[k] := c;
    }

    /** `update`: colour k becomes a new `RGBColor` of the three intensities at
        k / (size - 1), for k from 0 up. The first colour the `RGBColor`
        constructor refuses stops the loop with its error; the colours before
        it are replaced, it and those after it are left as they were. Only the
        array's contents change. */
    method Update() returns (r: Outcome)
      requires Valid() && size != 1
      modifies colors
      ensures r.Pass? <==> AllAdmissible(red, green, blue, size)
      ensures r.Fail? ==> r.error == RangeError
      ensures var m := Stop(red, green, blue, size, 0);
        && m <= colors.Length
        && Filled(m)
        && (forall k :: 0 <= k < m ==> fresh(colors[k]))
        && (forall k :: m <= k < colors.Length ==> colors[k] == old(colors[k]))
    {
      var k := 0;
      while k < size
        invariant 0 <= k && (k == 0 || k <= size)
        invariant Filled(k)
        invariant forall j :: 0 <= j < k ==> fresh(colors[j])
        invariant forall j :: k <= j < colors.Length ==> colors[j] == old(colors[j])
      {
        var color := NewColor(k);
        if color.Failure? {
          FilledAdmissible(k);
          StopSkips(red, green, blue, size, k);
          return Fail(color.error);
        }
        Store(k, color.value);
        k := k + 1;
      }
      FilledAdmissible(k);
      StopSkips(red, green, blue, size, k);
      StopAtEnd(red, green, blue, if size < 0 then 0 else size);
      return Pass;
    }

    /** `updateSize`: the size changes first; a negative one then makes
        `new Array` throw, otherwise a fresh array of that many slots is filled
        by `update`. */
    method UpdateSize(s: int) returns (r: Outcome)
      requires Valid() && s != 1
      modifies this
      ensures size == s && Valid()
      ensures s < 0 ==> r == Fail(RangeError) && colors == old(colors)
      ensures s >= 0 ==>
        && fresh(colors) && colors.Length == s
        && (r.Pass? <==> AllAdmissible(red, green, blue, s))
        && (r.Fail? ==> r.error == RangeError)
        && Filled(Stop(red, green, blue, s, 0))
        && (forall k :: Stop(red, green, blue, s, 0) <= k < s ==> colors[k] == null)
    {
      size := s;
      if s < 0 {
        return Fail(RangeError);
      }
      colors := new RGBColor?[s](_ => null);
      r := Update();
    }
  }
}
