/** One canvas ("surface") and the handlers that act on a single surface: showing and
    hiding its two guide lines, the drag-time snap step, the alignment buttons, the colour
    update and the placement of a freshly uploaded logo. */
module Surfaces {
  import opened Wrappers
  import opened Geometry
  import opened Objects
  import opened LogoFit

  /** A canvas: its size, its objects in stacking order, the identities of its vertical and
      horizontal guide lines (`canvas.centerLines`), and the logo copy placed on it (the
      page's `logos` entry for this canvas). */
  datatype Surface = Surface(
    width: real,
    height: real,
    objects: seq<CanvasObject>,
    vertical: ObjId,
    horizontal: ObjId,
    logo: Option<ObjId>)

  /** Distance of a placed logo's top edge from the top of the canvas. */
  const LogoTop: real := 50.0

  /** Where every logo copy is first placed: centred horizontally, its top edge
      `LogoTop` below the top of a canvas `width` wide. */
  function Home(width: real, scaleX: real, scaleY: real): Placement {
    Placement(width / 2.0, LogoTop, XCenter, YTop, scaleX, scaleY)
  }

  predicate IsGuideLine(o: Option<CanvasObject>) {
    o.Some? && o.value.shape.Line? && !o.value.selectable
  }

  predicate IsLogoImage(o: Option<CanvasObject>) {
    o.Some? && o.value.shape.Image? && o.value.selectable
  }

  /** The shape every reachable surface has: distinct identities, both guide lines present
      (non-selectable lines), the logo reference (if any) naming a selectable image on the
      canvas, and no other image on the canvas. */
  predicate WellFormed(s: Surface) {
    && UniqueIds(s.objects)
    && s.vertical != s.horizontal
    && IsGuideLine(Find(s.objects, s.vertical))
    && IsGuideLine(Find(s.objects, s.horizontal))
    && (s.logo.Some? ==> IsLogoImage(Find(s.objects, s.logo.value)))
    && (forall i | 0 <= i < |s.objects| :: s.objects[i].shape.Image? ==> s.logo == Some(s.objects[i].id))
  }

  function VerticalGuide(s: Surface): CanvasObject
    requires WellFormed(s)
  {
    Find(s.objects, s.vertical).value
  }

  function HorizontalGuide(s: Surface): CanvasObject
    requires WellFormed(s)
  {
    Find(s.objects, s.horizontal).value
  }

  function Logo(s: Surface): CanvasObject
    requires WellFormed(s) && s.logo.Some?
  {
    Find(s.objects, s.logo.value).value
  }

  function LogoPlace(s: Surface): Placement
    requires WellFormed(s) && s.logo.Some?
  {
    Logo(s).shape.place
  }

  function LogoCenter(s: Surface): Point
    requires WellFormed(s) && s.logo.Some?
  {
    var img := Logo(s).shape;
    CenterPoint(img.place, img.naturalWidth, img.naturalHeight)
  }

  /** Frame: `t` has `s`'s size, references and stacking order, and every object whose
      identity is not in `touched` is unchanged. */
  predicate SameExcept(s: Surface, t: Surface, touched: set<ObjId>) {
    && t.width == s.width && t.height == s.height
    && t.vertical == s.vertical && t.horizontal == s.horizontal && t.logo == s.logo
    && SameIds(s.objects, t.objects)
    && forall i | 0 <= i < |s.objects| :: s.objects[i].id !in touched ==> t.objects[i] == s.objects[i]
  }

  lemma SameExceptTrans(s: Surface, m: Surface, t: Surface, a: set<ObjId>, b: set<ObjId>)
    requires SameExcept(s, m, a) && SameExcept(m, t, b)
    ensures SameExcept(s, t, a + b)
  {
  }

  /** Two frames that agree on every touched object are the same surface. */
  lemma SameExceptEqual(s: Surface, t: Surface, touched: set<ObjId>)
    requires UniqueIds(s.objects) && SameExcept(s, t, touched)
    requires forall x: ObjId | x in touched :: Find(t.objects, x) == Find(s.objects, x)
    ensures t == s
  {
    forall i | 0 <= i < |s.objects|
      ensures t.objects[i] == s.objects[i]
    {
      SameExceptAt(s, t, touched, i);
    }
    assert t.objects == s.objects;
  }

  lemma SameExceptAt(s: Surface, t: Surface, touched: set<ObjId>, i: nat)
    requires UniqueIds(s.objects) && SameExcept(s, t, touched) && i < |s.objects|
    requires s.objects[i].id in touched ==> Find(t.objects, s.objects[i].id) == Find(s.objects, s.objects[i].id)
    ensures t.objects[i] == s.objects[i]
  {
    var x := s.objects[i].id;
    if x in touched {
      FindAt(s.objects, i);
      IndexOfSameIds(s.objects, t.objects, x);
    }
  }

  function SetObject(s: Surface, o: CanvasObject): Surface {
    s.(objects := Replace(s.objects, o))
  }

  /** Changing an object's properties keeps the surface well formed as long as guides stay
      guides and the logo stays the logo. */
  lemma SetObjectValid(s: Surface, o: CanvasObject)
    requires WellFormed(s) && Find(s.objects, o.id).Some?
    requires o.shape.Image? == Find(s.objects, o.id).value.shape.Image?
    requires o.id == s.vertical || o.id == s.horizontal ==> IsGuideLine(Some(o))
    requires s.logo == Some(o.id) ==> IsLogoImage(Some(o))
    ensures WellFormed(SetObject(s, o)) && SameExcept(s, SetObject(s, o), {o.id})
    ensures forall x :: Find(SetObject(s, o).objects, x) == if x == o.id then Some(o) else Find(s.objects, x)
  {
    var t := SetObject(s, o);
    forall x
      ensures Find(t.objects, x) == if x == o.id then Some(o) else Find(s.objects, x)
    {
      FindReplace(s.objects, o, x);
    }
    FindReplace(s.objects, o, o.id);
    UniqueSameIds(s.objects, t.objects);
    forall i | 0 <= i < |t.objects| && t.objects[i].shape.Image?
      ensures t.logo == Some(t.objects[i].id)
    {
      if s.objects[i].id == o.id {
        FindAt(s.objects, i);
      }
    }
  }

  /** Sets the visibility of both guide lines; everything else stays put. */
  function SetGuides(s: Surface, showVertical: bool, showHorizontal: bool): (t: Surface)
    requires WellFormed(s)
    ensures WellFormed(t) && SameExcept(s, t, {s.vertical, s.horizontal})
    ensures VerticalGuide(t) == VerticalGuide(s).(visible := showVertical)
    ensures HorizontalGuide(t) == HorizontalGuide(s).(visible := showHorizontal)
    ensures forall x: ObjId | x != s.vertical && x != s.horizontal :: Find(t.objects, x) == Find(s.objects, x)
  {
    var v := VerticalGuide(s).(visible := showVertical);
    var h := HorizontalGuide(s).(visible := showHorizontal);
    SetObjectValid(s, v);
    var m := SetObject(s, v);
    SetObjectValid(m, h);
    SameExceptTrans(s, m, SetObject(m, h), {s.vertical}, {s.horizontal});
    SetObject(m, h)
  }

  /** Both guides hidden: the drag-end (`modified`) handler, and the first step of an export. */
  function HideGuides(s: Surface): (t: Surface)
    requires WellFormed(s)
    ensures WellFormed(t) && SameExcept(s, t, {s.vertical, s.horizontal})
    ensures !VerticalGuide(t).visible && !HorizontalGuide(t).visible
    ensures VerticalGuide(t) == VerticalGuide(s).(visible := false)
    ensures HorizontalGuide(t) == HorizontalGuide(s).(visible := false)
    ensures forall x: ObjId | x != s.vertical && x != s.horizontal :: Find(t.objects, x) == Find(s.objects, x)
  {
    SetGuides(s, false, false)
  }

  /** Replaces the logo copy's placement; nothing else changes. */
  function SetLogoPlace(s: Surface, p: Placement): (t: Surface)
    requires WellFormed(s) && s.logo.Some?
    ensures WellFormed(t) && SameExcept(s, t, {s.logo.value}) && t.logo.Some?
    ensures Logo(t) == Logo(s).(shape := Logo(s).shape.(place := p))
    ensures VerticalGuide(t) == VerticalGuide(s) && HorizontalGuide(t) == HorizontalGuide(s)
  {
    var o := Logo(s);
    var o' := o.(shape := o.shape.(place := p));
    SetObjectValid(s, o');
    SetObject(s, o')
  }

  /** The library's own drag step, before the `moving` handler runs: the logo's anchor
      follows the mouse; origins and scales are kept. */
  function MoveLogo(s: Surface, left: real, top: real): (t: Surface)
    requires WellFormed(s) && s.logo.Some?
    ensures WellFormed(t) && SameExcept(s, t, {s.logo.value}) && t.logo.Some?
    ensures LogoPlace(t) == LogoPlace(s).(left := left, top := top)
  {
    SetLogoPlace(s, LogoPlace(s).(left := left, top := top))
  }

  /** The library's own resize step, through the copy's corner or side handles: the anchor
      and both scales take the values the library computed; origins are kept. The script
      attaches no handler to it. */
  function ScaleLogo(s: Surface, left: real, top: real, scaleX: real, scaleY: real): (t: Surface)
    requires WellFormed(s) && s.logo.Some?
    ensures WellFormed(t) && SameExcept(s, t, {s.logo.value}) && t.logo.Some?
    ensures VerticalGuide(t) == VerticalGuide(s) && HorizontalGuide(t) == HorizontalGuide(s)
    ensures LogoPlace(t).scaleX == scaleX && LogoPlace(t).scaleY == scaleY
    ensures LogoPlace(t).originX == LogoPlace(s).originX && LogoPlace(t).originY == LogoPlace(s).originY
    ensures Logo(t).shape.naturalWidth == Logo(s).shape.naturalWidth
    ensures Logo(t).shape.naturalHeight == Logo(s).shape.naturalHeight
    ensures Logo(t) == Logo(s).(shape := Logo(s).shape.(place :=
      LogoPlace(s).(left := left, top := top, scaleX := scaleX, scaleY := scaleY)))
  {
    SetLogoPlace(s, LogoPlace(s).(left := left, top := top, scaleX := scaleX, scaleY := scaleY))
  }

  /** The snap rule on a placement, for an image of natural size `w` × `h` on a canvas
      `width` × `height`. Each axis is judged on its own against the image's centre: close
      to the midline (strictly under the threshold) the image is anchored on it; otherwise
      that axis keeps the dragged position. Scales never change. */
  function SnapPlacement(p: Placement, w: real, h: real, width: real, height: real): (q: Placement)
    ensures CenterX(q, w) == if Near(CenterX(p, w), width / 2.0) then width / 2.0 else CenterX(p, w)
    ensures CenterY(q, h) == if Near(CenterY(p, h), height / 2.0) then height / 2.0 else CenterY(p, h)
    ensures !Near(CenterX(p, w), width / 2.0) ==> q.left == p.left && q.originX == p.originX
    ensures !Near(CenterY(p, h), height / 2.0) ==> q.top == p.top && q.originY == p.originY
    ensures q.scaleX == p.scaleX && q.scaleY == p.scaleY
  {
    var p1 := if Near(CenterX(p, w), width / 2.0) then p.(left := width / 2.0, originX := XCenter) else p;
    if Near(CenterY(p, h), height / 2.0) then p1.(top := height / 2.0, originY := YCenter) else p1
  }

  /** The `moving` handler: the logo copy snaps per `SnapPlacement`, and each guide line is
      shown exactly when the logo's centre is near the midline it marks. */
  function Snap(s: Surface): (t: Surface)
    requires WellFormed(s) && s.logo.Some?
    ensures WellFormed(t) && t.logo.Some?
    ensures SameExcept(s, t, {s.vertical, s.horizontal, s.logo.value})
    ensures VerticalGuide(t) == VerticalGuide(s).(visible := Near(LogoCenter(s).x, s.width / 2.0))
    ensures HorizontalGuide(t) == HorizontalGuide(s).(visible := Near(LogoCenter(s).y, s.height / 2.0))
    ensures Logo(t) == Logo(s).(shape := Logo(s).shape.(place := LogoPlace(t)))
    ensures var img := Logo(s).shape;
      LogoPlace(t) == SnapPlacement(img.place, img.naturalWidth, img.naturalHeight, s.width, s.height)
  {
    var img := Logo(s).shape;
    var c := LogoCenter(s);
    var m := SetLogoPlace(s, SnapPlacement(img.place, img.naturalWidth, img.naturalHeight, s.width, s.height));
    var t := SetGuides(m, Near(c.x, s.width / 2.0), Near(c.y, s.height / 2.0));
    SameExceptTrans(s, m, t, {s.logo.value}, {s.vertical, s.horizontal});
    assert Logo(t) == Logo(m);
    t
  }

  /** The snap step's effect on the logo's centre: on each axis, exactly on the midline
      when it was near it, unchanged otherwise. */
  lemma SnapCenter(s: Surface)
    requires WellFormed(s) && s.logo.Some?
    ensures LogoCenter(Snap(s)).x
         == if Near(LogoCenter(s).x, s.width / 2.0) then s.width / 2.0 else LogoCenter(s).x
    ensures LogoCenter(Snap(s)).y
         == if Near(LogoCenter(s).y, s.height / 2.0) then s.height / 2.0 else LogoCenter(s).y
  {
  }

  /** The center-horizontal button: the logo copy is anchored on the vertical midline. */
  function CenterLogoHorizontally(s: Surface): (t: Surface)
    requires WellFormed(s)
    ensures WellFormed(t)
    ensures s.logo.None? ==> t == s
    ensures s.logo.Some? ==> t.logo.Some? && SameExcept(s, t, {s.logo.value})
    ensures s.logo.Some? ==>
      Logo(t) == Logo(s).(shape := Logo(s).shape.(place := LogoPlace(s).(left := s.width / 2.0, originX := XCenter)))
  {
    if s.logo.None? then s
    else SetLogoPlace(s, LogoPlace(s).(left := s.width / 2.0, originX := XCenter))
  }

  /** After the center-horizontal button the logo's centre lies on the vertical midline,
      at the height it had before. */
  lemma CenteredOnMidline(s: Surface, t: Surface)
    requires WellFormed(s) && s.logo.Some? && t == CenterLogoHorizontally(s)
    ensures WellFormed(t) && t.logo.Some?
    ensures LogoCenter(t) == Point(s.width / 2.0, LogoCenter(s).y)
  {
    var img := Logo(s).shape;
    assert Logo(t).shape == img.(place := img.place.(left := s.width / 2.0, originX := XCenter));
  }

  /** The center-vertical button: despite its name, it puts the logo copy's top edge back
      at `LogoTop`, leaving the horizontal position alone. */
  function AlignLogoTop(s: Surface): (t: Surface)
    requires WellFormed(s)
    ensures WellFormed(t)
    ensures s.logo.None? ==> t == s
    ensures s.logo.Some? ==> t.logo.Some? && SameExcept(s, t, {s.logo.value})
    ensures s.logo.Some? ==>
      Logo(t) == Logo(s).(shape := Logo(s).shape.(place := LogoPlace(s).(top := LogoTop, originY := YTop)))
  {
    if s.logo.None? then s
    else SetLogoPlace(s, LogoPlace(s).(top := LogoTop, originY := YTop))
  }

  /** After the center-vertical button the logo's top edge is `LogoTop` below the top of
      the canvas and its centre has not moved sideways. */
  lemma AlignedAtTop(s: Surface, t: Surface)
    requires WellFormed(s) && s.logo.Some? && t == AlignLogoTop(s)
    ensures WellFormed(t) && t.logo.Some?
    ensures TopEdge(LogoPlace(t), Logo(s).shape.naturalHeight) == LogoTop
    ensures LogoCenter(t).x == LogoCenter(s).x
  {
    var img := Logo(s).shape;
    assert Logo(t).shape == img.(place := img.place.(top := LogoTop, originY := YTop));
  }

  /** The reset button: back to the upload placement, keeping the current scale. */
  function ResetLogo(s: Surface): (t: Surface)
    requires WellFormed(s)
    ensures WellFormed(t)
    ensures s.logo.None? ==> t == s
    ensures s.logo.Some? ==>
      && t.logo.Some? && SameExcept(s, t, {s.logo.value})
      && LogoPlace(t) == Home(s.width, LogoPlace(s).scaleX, LogoPlace(s).scaleY)
    ensures s.logo.Some? ==>
      Logo(t) == Logo(s).(shape := Logo(s).shape.(place := Home(s.width, LogoPlace(s).scaleX, LogoPlace(s).scaleY)))
  {
    if s.logo.None? then s
    else SetLogoPlace(s, Home(s.width, LogoPlace(s).scaleX, LogoPlace(s).scaleY))
  }

  /** An object the colour picker repaints: not selectable and not one of the two guides. */
  predicate Paintable(s: Surface, o: CanvasObject) {
    !o.selectable && o.id != s.vertical && o.id != s.horizontal
  }

  /** `updateBackgroundColor` on one canvas. */
  function Recolor(s: Surface, color: Color): (t: Surface)
    ensures t.(objects := s.objects) == s && SameIds(s.objects, t.objects)
    ensures forall i | 0 <= i < |s.objects| ::
      t.objects[i].(fill := s.objects[i].fill) == s.objects[i]
    ensures forall i | 0 <= i < |s.objects| && Paintable(s, s.objects[i]) ::
      t.objects[i].fill == Some(color)
    ensures forall i | 0 <= i < |s.objects| && !Paintable(s, s.objects[i]) ::
      t.objects[i] == s.objects[i]
  {
    s.(objects := seq(|s.objects|, i requires 0 <= i < |s.objects| =>
      if Paintable(s, s.objects[i]) then s.objects[i].(fill := Some(color)) else s.objects[i]))
  }

  /** Recolouring never touches the guides or the logo, so it keeps a surface well formed. */
  lemma RecolorKeepsShape(s: Surface, color: Color)
    requires WellFormed(s)
    ensures WellFormed(Recolor(s, color))
    ensures VerticalGuide(Recolor(s, color)) == VerticalGuide(s)
    ensures HorizontalGuide(Recolor(s, color)) == HorizontalGuide(s)
    ensures s.logo.Some? ==> Logo(Recolor(s, color)) == Logo(s)
  {
    var t := Recolor(s, color);
    UniqueSameIds(s.objects, t.objects);
    forall x: ObjId | x == s.vertical || x == s.horizontal || Some(x) == s.logo
      ensures Find(t.objects, x) == Find(s.objects, x)
    {
      IndexOfSameIds(s.objects, t.objects, x);
    }
  }

  /** Only the last colour applied matters; in particular recolouring is idempotent. */
  lemma RecolorLastWins(s: Surface, a: Color, b: Color)
    ensures Recolor(Recolor(s, a), b) == Recolor(s, b)
  {
    var t := Recolor(Recolor(s, a), b);
    var u := Recolor(s, b);
    assert t.objects == u.objects;
  }

  /** Upload placement on one canvas: the image scaled by `scale` on both axes, at the home
      placement, replaces any previous logo copy and goes on top of the stack. */
  function PlaceLogo(s: Surface, size: ImageSize, scale: real, id: ObjId): (t: Surface)
    ensures t.logo == Some(id)
    ensures t.width == s.width && t.height == s.height
    ensures t.vertical == s.vertical && t.horizontal == s.horizontal
  {
    var kept := if s.logo.Some? then Remove(s.objects, s.logo.value) else s.objects;
    s.(objects := kept + [PlacedImage(s, size, scale, id)], logo := Some(id))
  }

  /** Placement allocates nothing but `id`: every identity on the result is `id` or was
      already on `s`. */
  lemma PlaceLogoIds(s: Surface, size: ImageSize, scale: real, id: ObjId, bound: ObjId)
    requires IdsBelow(s.objects, bound) && id < bound
    ensures IdsBelow(PlaceLogo(s, size, scale, id).objects, bound)
    ensures var t := PlaceLogo(s, size, scale, id);
      forall i | 0 <= i < |t.objects| :: t.objects[i].id == id || t.objects[i] in s.objects
  {
    var t := PlaceLogo(s, size, scale, id);
    var kept := if s.logo.Some? then Remove(s.objects, s.logo.value) else s.objects;
    assert t.objects == kept + [PlacedImage(s, size, scale, id)];
    if s.logo.Some? {
      RemoveMembers(s.objects, s.logo.value);
    }
    forall i | 0 <= i < |kept|
      ensures kept[i] in s.objects && kept[i].id < bound
    {
      assert kept[i] in s.objects;
    }
    forall i | 0 <= i < |t.objects|
      ensures t.objects[i].id == id || t.objects[i] in s.objects
    {
      if i < |kept| {
        assert t.objects[i] == kept[i];
      }
    }
  }

  function PlacedImage(s: Surface, size: ImageSize, scale: real, id: ObjId): CanvasObject {
    CanvasObject(id, Image(size.width as real, size.height as real, Home(s.width, scale, scale)),
                 true, None, true)
  }

  /** What an upload of an image of `size` at `scale` does to canvas `s`, giving `t`: the
      copy `id` is visible, of the image's natural size, at the home placement, on top of
      the stack and the only image; the old copy is gone; every other object is unchanged
      and keeps its place in the stacking order; the canvas is still well formed. */
  ghost predicate LogoPlaced(s: Surface, t: Surface, size: ImageSize, scale: real, id: ObjId) {
    && WellFormed(t) && t.logo == Some(id)
    && t.width == s.width && t.height == s.height
    && t.vertical == s.vertical && t.horizontal == s.horizontal
    && LogoPlace(t) == Home(s.width, scale, scale)
    && Logo(t).shape.naturalWidth == size.width as real
    && Logo(t).shape.naturalHeight == size.height as real
    && Logo(t).visible
    && |t.objects| > 0 && t.objects[|t.objects| - 1] == Logo(t)
    && (s.logo.None? ==> t.objects[..|t.objects| - 1] == s.objects)
    && (s.logo.Some? && IndexOf(s.objects, s.logo.value).Some? ==>
          var j := IndexOf(s.objects, s.logo.value).value;
          t.objects[..|t.objects| - 1] == s.objects[..j] + s.objects[j + 1..])
    && (forall i | 0 <= i < |t.objects| :: t.objects[i].shape.Image? <==> t.objects[i].id == id)
    && (s.logo.Some? ==> Find(t.objects, s.logo.value).None?)
    && (forall x: ObjId | x != id && Some(x) != s.logo :: Find(t.objects, x) == Find(s.objects, x))
  }

  /** Upload placement does what `LogoPlaced` describes whenever the new identity is fresh
      on a well-formed canvas. */
  lemma PlaceLogoEffect(s: Surface, size: ImageSize, scale: real, id: ObjId)
    requires WellFormed(s) && Find(s.objects, id).None?
    ensures LogoPlaced(s, PlaceLogo(s, size, scale, id), size, scale, id)
  {
    var img := PlacedImage(s, size, scale, id);
    var kept := if s.logo.Some? then Remove(s.objects, s.logo.value) else s.objects;
    PlaceLogoValid(s, img, kept);
    var t := PlaceLogo(s, size, scale, id);
    assert t.objects[..|t.objects| - 1] == kept;
    if s.logo.Some? {
      RemoveAt(s.objects, s.logo.value);
    }
  }

  lemma PlaceLogoValid(s: Surface, img: CanvasObject, kept: seq<CanvasObject>)
    requires WellFormed(s) && Find(s.objects, img.id).None?
    requires img.shape.Image? && img.selectable
    requires kept == if s.logo.Some? then Remove(s.objects, s.logo.value) else s.objects
    ensures var t := s.(objects := kept + [img], logo := Some(img.id));
      && WellFormed(t) && Logo(t) == img
      && (forall i | 0 <= i < |t.objects| :: t.objects[i].shape.Image? <==> t.objects[i].id == img.id)
      && (s.logo.Some? ==> Find(t.objects, s.logo.value).None?)
      && (forall x: ObjId | x != img.id && Some(x) != s.logo :: Find(t.objects, x) == Find(s.objects, x))
  {
    var t := s.(objects := kept + [img], logo := Some(img.id));
    KeptFacts(s, kept, img.id);
    forall x: ObjId
      ensures Find(t.objects, x)
           == (if Some(x) == s.logo then None else if x == img.id then Some(img) else Find(s.objects, x))
    {
      FindAppend(kept, img, x);
    }
    AppendUnique(kept, img);
    forall i | 0 <= i < |t.objects|
      ensures t.objects[i].shape.Image? <==> t.objects[i].id == img.id
    {
      if i < |kept| {
        assert t.objects[i] == kept[i];
      }
    }
    PlacedWellFormed(s, t, img);
  }

  lemma PlacedWellFormed(s: Surface, t: Surface, img: CanvasObject)
    requires WellFormed(s) && UniqueIds(t.objects)
    requires t == s.(objects := t.objects, logo := Some(img.id))
    requires img.shape.Image? && img.selectable
    requires Find(t.objects, img.id) == Some(img)
    requires Find(t.objects, s.vertical) == Find(s.objects, s.vertical)
    requires Find(t.objects, s.horizontal) == Find(s.objects, s.horizontal)
    requires forall i | 0 <= i < |t.objects| :: t.objects[i].shape.Image? <==> t.objects[i].id == img.id
    ensures WellFormed(t) && Logo(t) == img
  {
  }

  /** What survives removing the old logo copy: unique identities, no image, and the
      lookups of every other object. */
  lemma KeptFacts(s: Surface, kept: seq<CanvasObject>, newId: ObjId)
    requires WellFormed(s) && Find(s.objects, newId).None?
    requires kept == if s.logo.Some? then Remove(s.objects, s.logo.value) else s.objects
    ensures UniqueIds(kept)
    ensures forall x: ObjId :: Find(kept, x) == (if Some(x) == s.logo then None else Find(s.objects, x))
    ensures forall i | 0 <= i < |kept| :: kept[i].id != newId && !kept[i].shape.Image?
  {
    if s.logo.Some? {
      RemoveUnique(s.objects, s.logo.value);
    }
    forall x: ObjId
      ensures Find(kept, x) == if Some(x) == s.logo then None else Find(s.objects, x)
    {
      if s.logo.Some? {
        FindRemove(s.objects, s.logo.value, x);
      }
    }
    if s.logo.Some? {
      RemoveMembers(s.objects, s.logo.value);
    }
    forall i | 0 <= i < |kept|
      ensures kept[i].id != newId && !kept[i].shape.Image?
    {
      assert kept[i] in s.objects;
      var k :| 0 <= k < |s.objects| && s.objects[k] == kept[i];
    }
  }

  lemma AppendUnique(kept: seq<CanvasObject>, o: CanvasObject)
    requires UniqueIds(kept)
    requires forall i | 0 <= i < |kept| :: kept[i].id != o.id
    ensures UniqueIds(kept + [o])
  {
    var t := kept + [o];
    forall i, j | 0 <= i < j < |t|
      ensures t[i].id != t[j].id
    {
      assert t[i] == kept[i];
      if j < |kept| {
        assert t[j] == kept[j];
      }
    }
  }

  /** Reset is the two single-axis buttons together. */
  lemma ResetIsBothAlignments(s: Surface)
    requires WellFormed(s)
    ensures ResetLogo(s) == AlignLogoTop(CenterLogoHorizontally(s))
  {
    if s.logo.Some? {
      var p := LogoPlace(s);
      var p1 := p.(left := s.width / 2.0, originX := XCenter);
      var home := Home(s.width, p.scaleX, p.scaleY);
      var c := SetLogoPlace(s, p1);
      CenterAsSetLogoPlace(s);
      AlignTopAsSetLogoPlace(c, p1, home);
      SetLogoPlaceTwice(s, p1, home);
    }
  }

  lemma CenterAsSetLogoPlace(s: Surface)
    requires WellFormed(s) && s.logo.Some?
    ensures CenterLogoHorizontally(s)
         == SetLogoPlace(s, LogoPlace(s).(left := s.width / 2.0, originX := XCenter))
  {
  }

  lemma AlignTopAsSetLogoPlace(c: Surface, p1: Placement, home: Placement)
    requires WellFormed(c) && c.logo.Some?
    requires LogoPlace(c) == p1
    requires home == p1.(top := LogoTop, originY := YTop)
    ensures AlignLogoTop(c) == SetLogoPlace(c, home)
  {
  }

  lemma SetLogoPlaceTwice(s: Surface, p: Placement, q: Placement)
    requires WellFormed(s) && s.logo.Some?
    ensures SetLogoPlace(SetLogoPlace(s, p), q) == SetLogoPlace(s, q)
  {
    var m := SetLogoPlace(s, p);
    var t := SetLogoPlace(m, q);
    var u := SetLogoPlace(s, q);
    assert SameExcept(u, t, {s.logo.value});
    assert Logo(t) == Logo(u);
    SameExceptEqual(u, t, {s.logo.value});
  }

  /** Reset right after an upload changes nothing: the copy is already at home. */
  lemma ResetAfterPlace(s: Surface, size: ImageSize, scale: real, id: ObjId)
    requires WellFormed(s) && Find(s.objects, id).None?
    ensures WellFormed(PlaceLogo(s, size, scale, id))
    ensures ResetLogo(PlaceLogo(s, size, scale, id)) == PlaceLogo(s, size, scale, id)
  {
    var t := PlaceLogo(s, size, scale, id);
    PlacedAtHome(s, size, scale, id);
    ResetAtHome(t);
  }

  lemma PlacedAtHome(s: Surface, size: ImageSize, scale: real, id: ObjId)
    requires WellFormed(s) && Find(s.objects, id).None?
    ensures var t := PlaceLogo(s, size, scale, id);
      WellFormed(t) && t.logo.Some? && LogoPlace(t) == Home(t.width, scale, scale)
  {
    PlaceLogoEffect(s, size, scale, id);
  }

  /** Reset leaves a copy that is already at its home placement where it is. */
  lemma ResetAtHome(t: Surface)
    requires WellFormed(t) && t.logo.Some?
    requires LogoPlace(t) == Home(t.width, LogoPlace(t).scaleX, LogoPlace(t).scaleY)
    ensures ResetLogo(t) == t
  {
    SameExceptEqual(t, ResetLogo(t), {t.logo.value});
  }

  /** Wherever a logo copy has been dragged and snapped, reset brings its image back to the
      state it had when placed at home, scale included. */
  lemma ResetUndoesDrag(s: Surface, left: real, top: real)
    requires WellFormed(s) && s.logo.Some?
    requires LogoPlace(s) == Home(s.width, LogoPlace(s).scaleX, LogoPlace(s).scaleY)
    ensures Logo(ResetLogo(Snap(MoveLogo(s, left, top)))) == Logo(s)
  {
  }

  /** Reset keeps whatever scale the user gave the copy: after a resize, reset puts the
      image at the home placement with the new scales, and the image is otherwise the one
      that was there before the resize. */
  lemma ResetKeepsUserScale(s: Surface, left: real, top: real, scaleX: real, scaleY: real)
    requires WellFormed(s) && s.logo.Some?
    ensures var t := ResetLogo(ScaleLogo(s, left, top, scaleX, scaleY));
      && WellFormed(t) && t.logo == s.logo && SameExcept(s, t, {s.logo.value})
      && Logo(t) == Logo(s).(shape := Logo(s).shape.(place := Home(s.width, scaleX, scaleY)))
  {
    var m := ScaleLogo(s, left, top, scaleX, scaleY);
    var t := ResetLogo(m);
    SameExceptTrans(s, m, t, {s.logo.value}, {s.logo.value});
    assert {s.logo.value} + {s.logo.value} == {s.logo.value};
  }

  /** Snapping a snapped placement changes nothing. */
  lemma SnapPlacementIdempotent(p: Placement, w: real, h: real, width: real, height: real)
    ensures var q := SnapPlacement(p, w, h, width, height);
      && SnapPlacement(q, w, h, width, height) == q
      && Near(CenterX(q, w), width / 2.0) == Near(CenterX(p, w), width / 2.0)
      && Near(CenterY(q, h), height / 2.0) == Near(CenterY(p, h), height / 2.0)
  {
  }

  /** Repeating the `moving` handler without further mouse motion changes nothing. */
  lemma SnapIdempotent(s: Surface)
    requires WellFormed(s) && s.logo.Some?
    ensures Snap(Snap(s)) == Snap(s)
  {
    var t := Snap(s);
    SnapAgain(s, t);
    SameExceptEqual3(t, Snap(t), s.vertical, s.horizontal, s.logo.value);
  }

  /** `SameExceptEqual` for the three objects the snap step touches. */
  lemma SameExceptEqual3(s: Surface, t: Surface, a: ObjId, b: ObjId, c: ObjId)
    requires UniqueIds(s.objects) && SameExcept(s, t, {a, b, c})
    requires Find(t.objects, a) == Find(s.objects, a)
    requires Find(t.objects, b) == Find(s.objects, b)
    requires Find(t.objects, c) == Find(s.objects, c)
    ensures t == s
  {
    TouchedAgree(s.objects, t.objects, a, b, c);
    SameExceptEqual(s, t, {a, b, c});
  }

  lemma TouchedAgree(a: seq<CanvasObject>, b: seq<CanvasObject>, x: ObjId, y: ObjId, z: ObjId)
    requires Find(b, x) == Find(a, x) && Find(b, y) == Find(a, y) && Find(b, z) == Find(a, z)
    ensures forall w: ObjId | w in {x, y, z} :: Find(b, w) == Find(a, w)
  {
  }

  lemma SnapAgain(s: Surface, t: Surface)
    requires WellFormed(s) && s.logo.Some? && t == Snap(s)
    ensures WellFormed(t) && t.logo == s.logo && t.vertical == s.vertical && t.horizontal == s.horizontal
    ensures Find(Snap(t).objects, s.logo.value) == Find(t.objects, s.logo.value)
    ensures Find(Snap(t).objects, s.vertical) == Find(t.objects, s.vertical)
    ensures Find(Snap(t).objects, s.horizontal) == Find(t.objects, s.horizontal)
  {
    var img := Logo(s).shape;
    var q := LogoPlace(t);
    SnapPlacementIdempotent(img.place, img.naturalWidth, img.naturalHeight, s.width, s.height);
    assert Logo(t).shape == img.(place := q);
    assert LogoCenter(t) == CenterPoint(q, img.naturalWidth, img.naturalHeight);
    var u := Snap(t);
    assert LogoPlace(u) == q;
  }

}
