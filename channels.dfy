/** The parts of `Channel` (not part of this model) and `ChannelView.js` that the
    colour map and the channel controller rely on: a channel's checkpoints and
    its intensity curve, and the size of the drawn checkpoints and of the canvas. */
module Channels {
  import opened Wrappers
  import opened Points

  /** A colour channel: its list of checkpoints and the intensity `evaluateX`
      gives at each normalised position. How the intensity follows from the
      checkpoints is the business of the `Channel` class and is left open. */
  class Channel {
    var checkpoints: seq<Checkpoint>
    const profile: real -> real

    constructor (checkpoints: seq<Checkpoint>, profile: real -> real)
      ensures this.checkpoints == checkpoints && this.profile == profile
    {
      this.checkpoints := checkpoints;
      this.profile := profile;
    }

    function GetCheckpoints(): seq<Checkpoint>
      reads this
    {
      checkpoints
    }

    /** The intensity of the channel at x. */
    function EvaluateX(x: real): real
    {
      profile(x)
    }
  }

  /** The view of a channel: a canvas of fixed resolution in pixels, and the
      width of a checkpoint drawing, 20 pixels unless changed. */
  class ChannelView {
    const canvasWidth: int
    const canvasHeight: int
    var checkpointWidth: real

    constructor (canvasWidth: int, canvasHeight: int)
      ensures this.canvasWidth == canvasWidth && this.canvasHeight == canvasHeight
      ensures checkpointWidth == 20.0
    {
      this.canvasWidth := canvasWidth;
      this.canvasHeight := canvasHeight;
      checkpointWidth := 20.0;
    }

    function GetCheckpointWidth(): real
      reads this
    {
      checkpointWidth
    }

    /** `setCheckpointWidth`: a negative width throws and changes nothing. */
    method SetCheckpointWidth(width: real) returns (r: Outcome)
      modifies this
      ensures r.Pass? <==> width >= 0.0
      ensures r.Fail? ==> r.error == InvalidArgument
      ensures checkpointWidth == if width >= 0.0 then width else old(checkpointWidth)
    {
      if width < 0.0 {
        return Fail(InvalidArgument);
      }
      checkpointWidth := width;
      return Pass;
    }
  }
}
