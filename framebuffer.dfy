/**
 * The framebuffer as the render loop drives it. Its pixel and depth logic
 * lives in framebuffer.rs, which is not part of this model: the framebuffer
 * is observed through the colour it currently paints with and the sequence
 * of `paint_point` calls it has received, each with the colour current at
 * the time of the call.
 */
module Framebuffers {
  import opened Linear
  import opened Colors

  datatype PaintCall = PaintCall(position: Vec3, color: Color)

  class Framebuffer {
    var currentColor: Color
    var painted: seq<PaintCall>

    /** `set_current_color`: later points are painted with `color`. */
    method SetCurrentColor(color: Color)
      modifies this
      ensures currentColor == color && painted == old(painted)
    {
      currentColor := color;
    }

    /** `paint_point`: one more point, painted with the current colour. */
    method PaintPoint(position: Vec3)
      modifies this
      ensures painted == old(painted) + [PaintCall(position, currentColor)]
      ensures currentColor == old(currentColor)
    {
      painted := painted + [PaintCall(position, currentColor)];
    }
  }
}
