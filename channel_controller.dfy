/** ChannelController.js: the checkpoint accessors and the hit test that tells
    which checkpoint, if any, is drawn at a clicked position. */
module ChannelControllers {
  import opened Points
  import opened Channels

  function Abs(v: real): (a: real)
    ensures a >= 0.0 && (a == v || a == -v)
  {
    if v < 0.0 then -v else v
  }

  /** p lies within hw horizontally and hh vertically of (x, y). */
  predicate InBox(p: Pt, x: real, y: real, hw: real, hh: real)
  {
    Abs(p.x - x) <= hw && Abs(p.y - y) <= hh
  }

  /** The smallest index from i on whose point lies in the box around (x, y),
      or -1 when there is none. */
  function FirstHit(ps: seq<Pt>, x: real, y: real, hw: real, hh: real, i: nat): (r: int)
    requires i <= |ps|
    ensures r == -1 || i <= r < |ps|
    ensures r >= 0 ==> InBox(ps[r], x, y, hw, hh)
    ensures r >= 0 ==> forall j :: i <= j < r ==> !InBox(ps[j], x, y, hw, hh)
    ensures r == -1 <==> forall j :: i <= j < |ps| ==> !InBox(ps[j], x, y, hw, hh)
    decreases |ps| - i
  {
    if i == |ps| then -1
    else if InBox(ps[i], x, y, hw, hh) then i
    else FirstHit(ps, x, y, hw, hh, i + 1)
  }

  /** The current positions of a list of checkpoints. */
  function Positions(cps: seq<Checkpoint>): (ps: seq<Pt>)
    reads set c | c in cps :: c.point
    ensures |ps| == |cps|
    ensures forall i :: 0 <= i < |cps| ==> ps[i] == cps[i].point.Value()
  {
    if cps == [] then [] else [cps[0].point.Value()] + Positions(cps[1..])
  }

  class ChannelController {
    const channelModel: Channel
    const channelView: ChannelView

    constructor (channelModel: Channel, channelView: ChannelView)
      ensures this.channelModel == channelModel && this.channelView == channelView
    {
      this.channelModel := channelModel;
      this.channelView := channelView;
    }

    function GetCheckpoints(): seq<Checkpoint>
      reads channelModel
    {
      channelModel.GetCheckpoints()
    }

    /** `getCheckpointsLength`: the number of checkpoints `getCheckpoints` lists. */
    function GetCheckpointsLength(): (n: int)
      reads channelModel
      ensures n >= 0 && n == |GetCheckpoints()|
    {
      |channelModel.GetCheckpoints()|
    }

    /** Half the width of a checkpoint drawing, as a fraction of the canvas width. */
    function HalfWidth(): real
      requires channelView.canvasWidth > 0
      reads channelView
    {
      Abs(channelView.GetCheckpointWidth() / channelView.canvasWidth as real / 2.0)
    }

    /** Half the height of a checkpoint drawing (which is as tall as it is wide in
        pixels), as a fraction of the canvas height. */
    function HalfHeight(): real
      requires channelView.canvasHeight > 0
      reads channelView
    {
      Abs(channelView.GetCheckpointWidth() / channelView.canvasHeight as real / 2.0)
    }

    /** `checkIfClickedOnACheckpoint`: the checkpoints are tried in order and the
        loop stops at the first one whose drawing contains (x, y); the result
        is its index, or -1 when no drawing does. */
    method CheckIfClickedOnACheckpoint(x: real, y: real) returns (r: int)
      requires channelView.canvasWidth > 0 && channelView.canvasHeight > 0
      ensures r == FirstHit(Positions(GetCheckpoints()), x, y, HalfWidth(), HalfHeight(), 0)
      ensures -1 <= r < GetCheckpointsLength()
    {
      var checkpoints := channelModel.GetCheckpoints();
      ghost var ps := Positions(checkpoints);
      var i := 0;
      var res := false;
      var widthNormalized := channelView.GetCheckpointWidth() / channelView.canvasWidth as real;
      var heightNormalized := channelView.GetCheckpointWidth() / channelView.canvasHeight as real;
      while i < |checkpoints| && !res
        invariant 0 <= i <= |checkpoints|
        invariant res ==> 1 <= i && FirstHit(ps, x, y, HalfWidth(), HalfHeight(), 0) == i - 1
        invariant !res ==>
          FirstHit(ps, x, y, HalfWidth(), HalfHeight(), i) == FirstHit(ps, x, y, HalfWidth(), HalfHeight(), 0)
      {
        res := Abs(checkpoints[i].point.GetX() - x) <= Abs(widthNormalized / 2.0)
          && Abs(checkpoints[i].point.GetY() - y) <= Abs(heightNormalized / 2.0);
        i := i + 1;
      }
      return if res then i - 1 else -1;
    }
  }
}
