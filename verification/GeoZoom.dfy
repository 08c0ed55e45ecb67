/** Zooming and panning of the traffic map (public/admin.js), over exact reals. */
module GeoZoom {

  datatype Box = Box(x: real, y: real, width: real, height: real)

  datatype Point = Point(x: real, y: real)

  const MAX_SCALE := 8.0

  function Min(a: real, b: real): real {
    if a <= b then a else b
  }

  function Max(a: real, b: real): real {
    if a >= b then a else b
  }

  predicate ProperBase(base: Box) {
    base.width > 0.0 && base.height > 0.0
  }

  function Ratio(base: Box): real
    requires ProperBase(base)
  {
    base.height / base.width
  }

  /** The view lies inside the base, keeps its aspect ratio, and is magnified at most eight times. */
  predicate Inside(base: Box, view: Box)
    requires ProperBase(base)
  {
    && base.width / 8.0 <= view.width <= base.width
    && view.height == view.width * Ratio(base)
    && base.x <= view.x && view.x + view.width <= base.x + base.width
    && base.y <= view.y && view.y + view.height <= base.y + base.height
  }

  /** `clampGeoZoom`. */
  function Clamp(base: Box, view: Box): Box
    requires ProperBase(base)
  {
    var width := Min(base.width, Max(base.width / MAX_SCALE, view.width));
    var height := width * Ratio(base);
    Box(Min(base.x + base.width - width, Max(base.x, view.x)),
        Min(base.y + base.height - height, Max(base.y, view.y)),
        width, height)
  }

  lemma HeightFits(base: Box, width: real)
    requires ProperBase(base) && 0.0 <= width <= base.width
    ensures 0.0 <= width * Ratio(base) <= base.height
  {
    var r := Ratio(base);
    assert r >= 0.0;
    assert base.width * r == base.height;
    assert (base.width - width) * r >= 0.0;
  }

  /** Clamping always lands inside, and does nothing to a view that already is: it is the projection. */
  lemma ClampLaws(base: Box, view: Box)
    requires ProperBase(base)
    ensures Inside(base, Clamp(base, view))
    ensures Clamp(base, view) == view <==> Inside(base, view)
  {
    HeightFits(base, Clamp(base, view).width);
  }

  function Distance(a: real, b: real): real {
    if a <= b then b - a else a - b
  }

  /** Clamping goes no further than it must: to the nearest width allowed, and then to the nearest place. */
  lemma ClampNearest(base: Box, view: Box, width: real, x: real, y: real)
    requires ProperBase(base)
    ensures var c := Clamp(base, view);
      && (base.width / 8.0 <= width <= base.width ==> Distance(c.width, view.width) <= Distance(width, view.width))
      && (base.x <= x <= base.x + base.width - c.width ==> Distance(c.x, view.x) <= Distance(x, view.x))
      && (base.y <= y <= base.y + base.height - c.height ==> Distance(c.y, view.y) <= Distance(y, view.y))
  {
  }

  /** The map point at fraction f of a view's width and g of its height. */
  function PointAt(view: Box, f: real, g: real): Point {
    Point(view.x + f * view.width, view.y + g * view.height)
  }

  /** What `zoomGeoMapAt` assigns before clamping. */
  function Zoomed(base: Box, view: Box, f: real, g: real, factor: real): Box
    requires ProperBase(base) && view.width != 0.0
  {
    var Point(pointX, pointY) := PointAt(view, f, g);
    var newWidth := view.width * factor;
    var scaleChange := newWidth / view.width;
    Box(pointX - (pointX - view.x) * scaleChange, pointY - (pointY - view.y) * scaleChange, newWidth,
        newWidth * Ratio(base))
  }

  /** Zooming keeps the point under the cursor where it is, in both axes. */
  lemma CursorStays(base: Box, view: Box, f: real, g: real, factor: real)
    requires ProperBase(base) && Inside(base, view)
    ensures view.width != 0.0 && PointAt(Zoomed(base, view, f, g, factor), f, g) == PointAt(view, f, g)
  {
    hide Ratio;
    var w, r := view.width, Ratio(base);
    CancelWidth(w, factor);
    Commute(w, factor, r);
    var z, p := Zoomed(base, view, f, g, factor), PointAt(view, f, g);
    AxisStays(view.x, w, f, factor, p.x, z.x, z.width);
    AxisStays(view.y, view.height, g, factor, p.y, z.y, z.height);
  }

  lemma CancelWidth(w: real, factor: real)
    requires w != 0.0
    ensures w * factor / w == factor
  {
  }

  lemma AxisStays(x: real, w: real, f: real, s: real, p: real, x': real, w': real)
    requires p == x + f * w && x' == p - (p - x) * s && w' == w * s
    ensures x' + f * w' == p
  {
    assert (f * w) * s == f * (w * s);
  }

  lemma Commute(w: real, s: real, r: real)
    ensures w * s * r == w * r * s
  {
  }

  class Map {
    const base: Box
    var current: Box

    ghost predicate Valid()
      reads this
    {
      ProperBase(base) && Inside(base, current)
    }

    /** `setupGeoMapZoom`. */
    constructor (base: Box)
      requires ProperBase(base)
      ensures Valid() && this.base == base && current == base
    {
      this.base, current := base, base;
      new;
      assert base.width * Ratio(base) == base.height;
    }

    /** `zoomGeoMapAt`, with the cursor at fractions f and g of the drawn map. An unlaid-out map is ignored. */
    method ZoomAt(clientX: real, clientY: real, left: real, top: real, width: real, height: real, factor: real)
      requires Valid() && width >= 0.0 && height >= 0.0
      modifies this
      ensures Valid()
      ensures width == 0.0 || height == 0.0 ==> current == old(current)
      ensures width != 0.0 && height != 0.0 ==>
                var f, g := (clientX - left) / width, (clientY - top) / height;
                var wanted := Zoomed(base, old(current), f, g, factor);
                && current == Clamp(base, wanted)
                && wanted.width == old(current.width) * factor
                && (Inside(base, wanted) ==> current == wanted && PointAt(current, f, g) == old(PointAt(current, f, g)))
    {
      if width == 0.0 || height == 0.0 {
        return;
      }
      var f, g := (clientX - left) / width, (clientY - top) / height;
      CursorStays(base, current, f, g, factor);
      var wanted := Zoomed(base, current, f, g, factor);
      ClampLaws(base, wanted);
      current := Clamp(base, wanted);
    }

    /** `panGeoMap`. */
    method Pan(deltaX: real, deltaY: real, width: real, height: real)
      requires Valid() && width >= 0.0 && height >= 0.0
      modifies this
      ensures Valid() && current.width == old(current.width)
      ensures width == 0.0 || height == 0.0 ==> current == old(current)
      ensures width != 0.0 && height != 0.0 ==>
                var wanted := old(current).(x := old(current.x) - deltaX / width * old(current.width),
                                            y := old(current.y) - deltaY / height * old(current.height));
                current == Clamp(base, wanted)
    {
      if width == 0.0 || height == 0.0 {
        return;
      }
      var wanted := current.(x := current.x - deltaX / width * current.width,
                             y := current.y - deltaY / height * current.height);
      ClampLaws(base, wanted);
      current := Clamp(base, wanted);
    }

    method Reset()
      requires Valid()
      modifies this
      ensures Valid() && current == base
    {
      current := base;
      assert base.width * Ratio(base) == base.height;
    }
  }
}
