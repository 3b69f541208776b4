/** Plane geometry of a placed object, as the canvas library sees it: an anchor point
    (`left`, `top`), which point of the object that anchor names (`originX`,
    `originY`), and a scale per axis. The user can rotate a logo copy with the library's
    rotation handle; the angle is not modelled, so the centre computed here is that of an
    unrotated object. */
module Geometry {

  /** Which point of the object `left` refers to: `'left'`, `'center'` or `'right'`. */
  datatype OriginX = XLeft | XCenter | XRight

  /** Which point of the object `top` refers to: `'top'`, `'center'` or `'bottom'`. */
  datatype OriginY = YTop | YCenter | YBottom

  datatype Placement = Placement(
    left: real,
    top: real,
    originX: OriginX,
    originY: OriginY,
    scaleX: real,
    scaleY: real)

  datatype Point = Point(x: real, y: real)

  function Abs(x: real): real {
    if x < 0.0 then -x else x
  }

  /** Horizontal centre of an object `width` units wide (before scaling) placed at `p`. */
  function CenterX(p: Placement, width: real): real {
    match p.originX
    case XLeft => p.left + width * p.scaleX / 2.0
    case XCenter => p.left
    case XRight => p.left - width * p.scaleX / 2.0
  }

  /** Vertical centre of an object `height` units tall (before scaling) placed at `p`. */
  function CenterY(p: Placement, height: real): real {
    match p.originY
    case YTop => p.top + height * p.scaleY / 2.0
    case YCenter => p.top
    case YBottom => p.top - height * p.scaleY / 2.0
  }

  /** The library's `getCenterPoint` for an unrotated object. */
  function CenterPoint(p: Placement, width: real, height: real): Point {
    Point(CenterX(p, width), CenterY(p, height))
  }

  /** Upper edge of an object `height` units tall placed at `p`. */
  function TopEdge(p: Placement, height: real): real {
    CenterY(p, height) - height * p.scaleY / 2.0
  }

  /** Distance from a midline, in canvas units, below which a dragged logo snaps to it. */
  const SnapThreshold: real := 10.0

  /** The snap test: strictly closer to `mid` than the threshold. */
  predicate Near(a: real, mid: real) {
    Abs(a - mid) < SnapThreshold
  }

}
