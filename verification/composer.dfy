/** The page as a whole: the four surfaces, the allocator of object identities, and the
    handlers that act on them (start-up, logo upload, dragging, the colour picker and the
    per-surface alignment buttons). Every handler is one atomic transition. */
module Composer {
  import opened Wrappers
  import opened Geometry
  import opened Objects
  import opened LogoFit
  import opened Surfaces

  datatype SurfaceKey = LandscapeAgency | LandscapeEndcard | PortraitAgency | PortraitEndcard

  /** Insertion order of the page's `canvases` table, which `Object.keys` follows. */
  const SurfaceOrder: seq<SurfaceKey> :=
    [LandscapeAgency, LandscapeEndcard, PortraitAgency, PortraitEndcard]

  function Index(k: SurfaceKey): (i: nat)
    ensures i < |SurfaceOrder| && SurfaceOrder[i] == k
  {
    match k
    case LandscapeAgency => 0
    case LandscapeEndcard => 1
    case PortraitAgency => 2
    case PortraitEndcard => 3
  }

  /** The key as written in the page (`data-canvas` attributes, table keys). */
  function Name(k: SurfaceKey): string {
    match k
    case LandscapeAgency => "landscape-agency"
    case LandscapeEndcard => "landscape-endcard"
    case PortraitAgency => "portrait-agency"
    case PortraitEndcard => "portrait-endcard"
  }

  /** Looking a `data-canvas` attribute up in the page's tables: only the four names hit. */
  function ParseName(name: string): Option<SurfaceKey> {
    if name == "landscape-agency" then Some(LandscapeAgency)
    else if name == "landscape-endcard" then Some(LandscapeEndcard)
    else if name == "portrait-agency" then Some(PortraitAgency)
    else if name == "portrait-endcard" then Some(PortraitEndcard)
    else None
  }

  /** Names and keys correspond one to one. */
  lemma ParseNameInverse(name: string, k: SurfaceKey)
    ensures ParseName(Name(k)) == Some(k)
    ensures ParseName(name) == Some(k) ==> name == Name(k)
  {
  }

  predicate IsLandscape(k: SurfaceKey) {
    k == LandscapeAgency || k == LandscapeEndcard
  }

  predicate IsAgency(k: SurfaceKey) {
    k == LandscapeAgency || k == PortraitAgency
  }

  /** The `sizes` table. */
  function Width(k: SurfaceKey): real {
    if IsLandscape(k) then 1920.0 else 1080.0
  }

  function Height(k: SurfaceKey): real {
    if IsLandscape(k) then 1080.0 else 1920.0
  }

  /** Height of the background rectangle: agency cards only colour a 134-unit band at
      the top, end cards the whole canvas. */
  function BackgroundHeight(k: SurfaceKey): real {
    if IsAgency(k) then 134.0 else Height(k)
  }

  /** The four canvases of the page. */
  datatype Canvases = Canvases(
    landscapeAgency: Surface,
    landscapeEndcard: Surface,
    portraitAgency: Surface,
    portraitEndcard: Surface)

  function Get(c: Canvases, k: SurfaceKey): Surface {
    match k
    case LandscapeAgency => c.landscapeAgency
    case LandscapeEndcard => c.landscapeEndcard
    case PortraitAgency => c.portraitAgency
    case PortraitEndcard => c.portraitEndcard
  }

  /** Replaces the surface under `k`; the other three stay as they were. */
  function Put(c: Canvases, k: SurfaceKey, s: Surface): (r: Canvases)
    ensures Get(r, k) == s
    ensures forall j | j != k :: Get(r, j) == Get(c, j)
  {
    match k
    case LandscapeAgency => c.(landscapeAgency := s)
    case LandscapeEndcard => c.(landscapeEndcard := s)
    case PortraitAgency => c.(portraitAgency := s)
    case PortraitEndcard => c.(portraitEndcard := s)
  }

  /** Two sets of canvases that agree under every key are equal. */
  lemma CanvasesExt(c: Canvases, d: Canvases)
    requires forall k: SurfaceKey :: Get(c, k) == Get(d, k)
    ensures c == d
  {
    assert Get(c, LandscapeAgency) == Get(d, LandscapeAgency);
    assert Get(c, LandscapeEndcard) == Get(d, LandscapeEndcard);
    assert Get(c, PortraitAgency) == Get(d, PortraitAgency);
    assert Get(c, PortraitEndcard) == Get(d, PortraitEndcard);
  }

  datatype AppState = AppState(canvases: Canvases, downloadEnabled: bool, nextId: ObjId)

  function Surf(st: AppState, k: SurfaceKey): Surface {
    Get(st.canvases, k)
  }

  /** Surface `s` can stand under key `k` in a state whose allocator is at `bound`: it is
      well formed, has the tabulated size, and all its objects were allocated before. */
  predicate SurfaceOk(k: SurfaceKey, s: Surface, bound: ObjId) {
    && WellFormed(s)
    && s.width == Width(k) && s.height == Height(k)
    && IdsBelow(s.objects, bound)
  }

  predicate Valid(st: AppState) {
    forall k: SurfaceKey {:trigger SurfaceOk(k, Surf(st, k), st.nextId)} :: SurfaceOk(k, Surf(st, k), st.nextId)
  }

  /** A transition that changes only surface `k`, keeps its identities and allocator, and
      keeps it well formed, keeps the whole state valid. */
  lemma UpdateValid(st: AppState, k: SurfaceKey, s: Surface)
    requires Valid(st) && WellFormed(s)
    requires s.width == Surf(st, k).width && s.height == Surf(st, k).height
    requires SameIds(Surf(st, k).objects, s.objects)
    ensures Valid(st.(canvases := Put(st.canvases, k, s)))
  {
    var r := st.(canvases := Put(st.canvases, k, s));
    forall j: SurfaceKey
      ensures SurfaceOk(j, Surf(r, j), r.nextId)
    {
      assert SurfaceOk(j, Surf(st, j), st.nextId);
    }
  }

  /** The page's initial colour. */
  const DefaultColor: Color := "#ffffff"

  /** What `initializeCanvases` puts on one canvas: the background rectangle, then the
      hidden vertical and horizontal guide lines through the middle. */
  function InitialSurface(k: SurfaceKey, color: Color, base: ObjId): Surface {
    var w := Width(k);
    var h := Height(k);
    Surface(w, h,
      [ CanvasObject(base, Rect(0.0, 0.0, w, BackgroundHeight(k)), false, Some(color), true),
        CanvasObject(base + 1, Line(w / 2.0, 0.0, w / 2.0, h), false, None, false),
        CanvasObject(base + 2, Line(0.0, h / 2.0, w, h / 2.0), false, None, false) ],
      base + 1, base + 2, None)
  }

  /** `initializeCanvases(color)`: surface `k` takes identities `3 * Index(k)` onward. The
      page calls it once, at load time. */
  function InitializeCanvases(color: Color): Canvases {
    Canvases(
      InitialSurface(LandscapeAgency, color, 0),
      InitialSurface(LandscapeEndcard, color, 3),
      InitialSurface(PortraitAgency, color, 6),
      InitialSurface(PortraitEndcard, color, 9))
  }

  /** The state once the page has loaded: white surfaces, no logo, download disabled. */
  function Startup(): AppState {
    AppState(InitializeCanvases(DefaultColor), false, 3 * |SurfaceOrder|)
  }

  /** After `initializeCanvases(c)` every surface holds exactly three objects: a
      non-selectable background of colour `c` and the tabulated width (a 134-unit band on
      agency cards, the whole canvas on end cards), and the two hidden guides through the
      middle of the canvas. */
  lemma InitializeCanvasesShape(color: Color, k: SurfaceKey)
    ensures var s := Get(InitializeCanvases(color), k);
      && SurfaceOk(k, s, 3 * |SurfaceOrder|) && s.logo.None? && |s.objects| == 3
      && !s.objects[0].selectable && s.objects[0].fill == Some(color)
      && s.objects[0].shape == Rect(0.0, 0.0, Width(k), BackgroundHeight(k))
      && VerticalGuide(s).shape == Line(Width(k) / 2.0, 0.0, Width(k) / 2.0, Height(k))
      && HorizontalGuide(s).shape == Line(0.0, Height(k) / 2.0, Width(k), Height(k) / 2.0)
      && !VerticalGuide(s).visible && !HorizontalGuide(s).visible
  {
    var s := Get(InitializeCanvases(color), k);
    assert s == InitialSurface(k, color, 3 * Index(k));
    assert UniqueIds(s.objects);
    FindAt(s.objects, 1);
    FindAt(s.objects, 2);
  }

  lemma StartupValid()
    ensures Valid(Startup()) && !Startup().downloadEnabled
  {
    forall k: SurfaceKey
      ensures SurfaceOk(k, Surf(Startup(), k), Startup().nextId)
    {
      InitializeCanvasesShape(DefaultColor, k);
    }
  }

  /** Logo upload once the image has been decoded (`None`: no file was selected, or no
      image ever arrived). The image is scaled to fit the logo box, and each surface gets
      its own copy with a fresh identity, at the home placement, replacing the old copy. */
  function Upload(st: AppState, file: Option<ImageSize>): (r: AppState)
    requires Valid(st)
    ensures Valid(r) && r.downloadEnabled == st.downloadEnabled
    ensures file.None? ==> r == st
  {
    match file
    case None => st
    case Some(size) =>
      UploadValid(st, size);
      Uploaded(st, size)
  }

  function Uploaded(st: AppState, size: ImageSize): AppState {
    var scale := ScaleLogoToFit(size);
    var n := st.nextId;
    st.(canvases := Canvases(
          PlaceLogo(Surf(st, LandscapeAgency), size, scale, n + Index(LandscapeAgency)),
          PlaceLogo(Surf(st, LandscapeEndcard), size, scale, n + Index(LandscapeEndcard)),
          PlaceLogo(Surf(st, PortraitAgency), size, scale, n + Index(PortraitAgency)),
          PlaceLogo(Surf(st, PortraitEndcard), size, scale, n + Index(PortraitEndcard))),
        nextId := n + |SurfaceOrder|)
  }

  /** Surface `k` after an upload is surface `k` with the copy of identity
      `nextId + Index(k)` placed on it. */
  lemma UploadAt(st: AppState, size: ImageSize, k: SurfaceKey)
    requires Valid(st)
    ensures Find(Surf(st, k).objects, st.nextId + Index(k)).None?
    ensures Surf(Upload(st, Some(size)), k)
         == PlaceLogo(Surf(st, k), size, ScaleLogoToFit(size), st.nextId + Index(k))
  {
    assert SurfaceOk(k, Surf(st, k), st.nextId);
    UploadAtUploaded(st, size, k);
    assert Upload(st, Some(size)) == Uploaded(st, size);
  }

  lemma UploadValid(st: AppState, size: ImageSize)
    requires Valid(st)
    ensures Valid(Uploaded(st, size))
  {
    var r := Uploaded(st, size);
    forall k: SurfaceKey
      ensures SurfaceOk(k, Surf(r, k), r.nextId)
    {
      UploadAtUploaded(st, size, k);
      PlaceLogoOk(k, Surf(st, k), size, ScaleLogoToFit(size), st.nextId, st.nextId + Index(k));
    }
  }

  lemma UploadAtUploaded(st: AppState, size: ImageSize, k: SurfaceKey)
    ensures Surf(Uploaded(st, size), k)
         == PlaceLogo(Surf(st, k), size, ScaleLogoToFit(size), st.nextId + Index(k))
  {
  }

  lemma PlaceLogoOk(k: SurfaceKey, s: Surface, size: ImageSize, scale: real, bound: ObjId, id: ObjId)
    requires SurfaceOk(k, s, bound) && bound <= id < bound + |SurfaceOrder|
    ensures Find(s.objects, id).None?
    ensures SurfaceOk(k, PlaceLogo(s, size, scale, id), bound + |SurfaceOrder|)
  {
    PlaceLogoEffect(s, size, scale, id);
    PlaceLogoIds(s, size, scale, id, bound + |SurfaceOrder|);
  }

  /** The upload placement loop, iteration by iteration over `Object.keys(canvases)`. */
  method PlaceLogos(st: AppState, size: ImageSize) returns (r: AppState)
    requires Valid(st)
    ensures r == Upload(st, Some(size))
  {
    var c := st.canvases;
    var i := 0;
    while i < |SurfaceOrder|
      invariant 0 <= i <= |SurfaceOrder|
      invariant forall k: SurfaceKey ::
        Get(c, k) == if Index(k) < i then Surf(Uploaded(st, size), k) else Surf(st, k)
    {
      var k := SurfaceOrder[i];
      UploadAtUploaded(st, size, k);
      c := Put(c, k, PlaceLogo(Surf(st, k), size, ScaleLogoToFit(size), st.nextId + i));
      i := i + 1;
    }
    r := st.(canvases := c, nextId := st.nextId + |SurfaceOrder|);
    CanvasesExt(c, Uploaded(st, size).canvases);
    assert Upload(st, Some(size)) == Uploaded(st, size);
  }

  /** After an upload every surface carries exactly one logo copy, the only image on it,
      on top of the stack; the previous copy is gone; each copy sits at the home placement
      of its own canvas, scaled to fit; nothing else on any canvas changed. */
  lemma UploadPlacesLogos(st: AppState, size: ImageSize, k: SurfaceKey)
    requires Valid(st)
    ensures SurfaceOk(k, Surf(Upload(st, Some(size)), k), st.nextId + |SurfaceOrder|)
    ensures LogoPlaced(Surf(st, k), Surf(Upload(st, Some(size)), k), size, ScaleLogoToFit(size),
                       st.nextId + Index(k))
  {
    var s := Surf(st, k);
    var id := st.nextId + Index(k);
    assert SurfaceOk(k, s, st.nextId);
    UploadAt(st, size, k);
    PlaceLogoOk(k, s, size, ScaleLogoToFit(size), st.nextId, id);
    PlaceLogoEffect(s, size, ScaleLogoToFit(size), id);
  }

  /** The copies on two different surfaces share their scale, the same on both axes. */
  lemma UploadSameScale(st: AppState, size: ImageSize, j: SurfaceKey, k: SurfaceKey)
    requires Valid(st)
    ensures var r := Upload(st, Some(size));
      && WellFormed(Surf(r, j)) && Surf(r, j).logo.Some?
      && WellFormed(Surf(r, k)) && Surf(r, k).logo.Some?
      && LogoPlace(Surf(r, j)).scaleX == LogoPlace(Surf(r, k)).scaleX
      && LogoPlace(Surf(r, j)).scaleY == LogoPlace(Surf(r, k)).scaleY
      && LogoPlace(Surf(r, k)).scaleX == LogoPlace(Surf(r, k)).scaleY
  {
    UploadPlacesLogos(st, size, j);
    UploadPlacesLogos(st, size, k);
  }

  /** The `moving` handler on surface `k` once the library has moved the logo copy's
      anchor to (`left`, `top`). Only a logo copy is draggable, so without one nothing
      happens. */
  function Moving(st: AppState, k: SurfaceKey, left: real, top: real): (r: AppState)
    requires Valid(st)
    ensures Valid(r) && r.nextId == st.nextId && r.downloadEnabled == st.downloadEnabled
    ensures forall j: SurfaceKey | j != k :: Surf(r, j) == Surf(st, j)
    ensures Surf(st, k).logo.None? ==> r == st
  {
    assert SurfaceOk(k, Surf(st, k), st.nextId);
    var s := Surf(st, k);
    if s.logo.None? then st
    else
      var m := MoveLogo(s, left, top);
      var t := Snap(m);
      SameExceptTrans(s, m, t, {s.logo.value}, {s.vertical, s.horizontal, s.logo.value});
      UpdateValid(st, k, t);
      st.(canvases := Put(st.canvases, k, t))
  }

  /** One drag step: on each axis independently, a logo centre strictly within the
      threshold of the canvas midline lands exactly on it and shows the guide marking that
      midline; otherwise it stays where it was dragged and that guide is hidden. The scale
      and every other object are untouched. */
  lemma MovingEffect(st: AppState, k: SurfaceKey, left: real, top: real)
    requires Valid(st) && Surf(st, k).logo.Some?
    ensures WellFormed(Surf(st, k))
    ensures Surf(Moving(st, k, left, top), k) == Snap(MoveLogo(Surf(st, k), left, top))
    ensures var s := Surf(st, k);
      var m := MoveLogo(s, left, top);
      var t := Surf(Moving(st, k, left, top), k);
      && WellFormed(t) && t.logo == s.logo
      && SameExcept(s, t, {s.vertical, s.horizontal, s.logo.value})
      && VerticalGuide(t).visible == Near(LogoCenter(m).x, Width(k) / 2.0)
      && HorizontalGuide(t).visible == Near(LogoCenter(m).y, Height(k) / 2.0)
      && LogoCenter(t).x == (if Near(LogoCenter(m).x, Width(k) / 2.0) then Width(k) / 2.0 else LogoCenter(m).x)
      && LogoCenter(t).y == (if Near(LogoCenter(m).y, Height(k) / 2.0) then Height(k) / 2.0 else LogoCenter(m).y)
      && LogoPlace(t).scaleX == LogoPlace(s).scaleX && LogoPlace(t).scaleY == LogoPlace(s).scaleY
  {
    var s := Surf(st, k);
    assert SurfaceOk(k, s, st.nextId);
    var m := MoveLogo(s, left, top);
    SnapCenter(m);
    SameExceptTrans(s, m, Snap(m), {s.logo.value}, {s.vertical, s.horizontal, s.logo.value});
  }

  /** The library's resize step on surface `k`: the logo copy takes the anchor and scales
      the library computed from the handle the user pulled. No handler of the page runs;
      the `modified` handler follows when the mouse is released. Without a logo copy there
      is nothing to resize. */
  function Scaling(st: AppState, k: SurfaceKey, left: real, top: real, scaleX: real, scaleY: real): (r: AppState)
    requires Valid(st)
    ensures Valid(r) && r.nextId == st.nextId && r.downloadEnabled == st.downloadEnabled
    ensures forall j: SurfaceKey | j != k :: Surf(r, j) == Surf(st, j)
    ensures Surf(st, k).logo.None? ==> r == st
  {
    assert SurfaceOk(k, Surf(st, k), st.nextId);
    var s := Surf(st, k);
    if s.logo.None? then st
    else
      var t := ScaleLogo(s, left, top, scaleX, scaleY);
      UpdateValid(st, k, t);
      st.(canvases := Put(st.canvases, k, t))
  }

  /** A user-chosen scale survives the reset button: resizing the copy on surface `k` and
      then pressing that surface's reset button leaves the copy at the home placement with
      the scales the user gave it; everything else on the page is as before the resize. */
  lemma ResetAfterScaling(st: AppState, k: SurfaceKey, left: real, top: real, scaleX: real, scaleY: real)
    requires Valid(st) && Surf(st, k).logo.Some?
    ensures WellFormed(Surf(st, k))
    ensures var s := Surf(st, k);
      var r := ClickAlign(Scaling(st, k, left, top, scaleX, scaleY), ResetPosition, Name(k));
      && (forall j: SurfaceKey | j != k :: Surf(r, j) == Surf(st, j))
      && WellFormed(Surf(r, k)) && Surf(r, k).logo == s.logo
      && SameExcept(s, Surf(r, k), {s.logo.value})
      && Logo(Surf(r, k)) == Logo(s).(shape := Logo(s).shape.(place := Home(Width(k), scaleX, scaleY)))
  {
    var s := Surf(st, k);
    assert SurfaceOk(k, s, st.nextId);
    var m := Scaling(st, k, left, top, scaleX, scaleY);
    ClickAlignEffect(m, ResetPosition, k);
    ResetKeepsUserScale(s, left, top, scaleX, scaleY);
    assert Surf(m, k) == ScaleLogo(s, left, top, scaleX, scaleY);
  }

  /** The drag-end (`modified`) handler on surface `k`: both of its guides are hidden. */
  function DragEnd(st: AppState, k: SurfaceKey): (r: AppState)
    requires Valid(st)
    ensures Valid(r) && r.nextId == st.nextId && r.downloadEnabled == st.downloadEnabled
    ensures forall j: SurfaceKey | j != k :: Surf(r, j) == Surf(st, j)
  {
    var s := Surf(st, k);
    assert SurfaceOk(k, s, st.nextId);
    var t := HideGuides(s);
    UpdateValid(st, k, t);
    st.(canvases := Put(st.canvases, k, t))
  }

  /** Drag end hides both guides of its surface and changes nothing else there: the logo
      copy in particular keeps its position. */
  lemma DragEndEffect(st: AppState, k: SurfaceKey)
    requires Valid(st)
    ensures var s := Surf(st, k);
      var t := Surf(DragEnd(st, k), k);
      && WellFormed(s) && WellFormed(t)
      && !VerticalGuide(t).visible && !HorizontalGuide(t).visible
      && VerticalGuide(t) == VerticalGuide(s).(visible := false)
      && HorizontalGuide(t) == HorizontalGuide(s).(visible := false)
      && SameExcept(s, t, {s.vertical, s.horizontal})
      && (s.logo.Some? ==> Logo(t) == Logo(s))
  {
    var s := Surf(st, k);
    assert SurfaceOk(k, s, st.nextId);
  }

  /** A drag ending right after a drag step leaves the logo copy where the step put it,
      with both guides hidden again. */
  lemma DragThenRelease(st: AppState, k: SurfaceKey, left: real, top: real)
    requires Valid(st) && Surf(st, k).logo.Some?
    ensures WellFormed(Surf(st, k))
    ensures var m := Moving(st, k, left, top);
      var t := Surf(DragEnd(m, k), k);
      && WellFormed(Surf(m, k)) && WellFormed(t) && t.logo.Some? && Surf(m, k).logo.Some?
      && Logo(t) == Logo(Surf(m, k))
      && !VerticalGuide(t).visible && !HorizontalGuide(t).visible
  {
    var m := Moving(st, k, left, top);
    MovingEffect(st, k, left, top);
    DragEndEffect(m, k);
  }

  /** `updateBackgroundColor`: every surface is recoloured. */
  function UpdateBackgroundColor(st: AppState, color: Color): (r: AppState)
    ensures Valid(st) ==> Valid(r)
    ensures r.nextId == st.nextId && r.downloadEnabled == st.downloadEnabled
  {
    var r := st.(canvases := Canvases(
      Recolor(Surf(st, LandscapeAgency), color),
      Recolor(Surf(st, LandscapeEndcard), color),
      Recolor(Surf(st, PortraitAgency), color),
      Recolor(Surf(st, PortraitEndcard), color)));
    RecolorValid(st, color, r);
    r
  }

  lemma RecolorAt(st: AppState, color: Color, r: AppState, k: SurfaceKey)
    requires r == st.(canvases := Canvases(
      Recolor(Surf(st, LandscapeAgency), color),
      Recolor(Surf(st, LandscapeEndcard), color),
      Recolor(Surf(st, PortraitAgency), color),
      Recolor(Surf(st, PortraitEndcard), color)))
    ensures Surf(r, k) == Recolor(Surf(st, k), color)
  {
  }

  lemma RecolorValid(st: AppState, color: Color, r: AppState)
    requires r == st.(canvases := Canvases(
      Recolor(Surf(st, LandscapeAgency), color),
      Recolor(Surf(st, LandscapeEndcard), color),
      Recolor(Surf(st, PortraitAgency), color),
      Recolor(Surf(st, PortraitEndcard), color)))
    ensures Valid(st) ==> Valid(r)
  {
    if !Valid(st) {
      return;
    }
    forall k: SurfaceKey
      ensures SurfaceOk(k, Surf(r, k), r.nextId)
    {
      assert SurfaceOk(k, Surf(st, k), st.nextId);
      RecolorAt(st, color, r, k);
      RecolorKeepsShape(Surf(st, k), color);
    }
  }

  /** The colour picker repaints, on every surface, exactly the non-selectable objects that
      are not guide lines; the guides, the logo copy and everything else selectable keep
      their fill, and no object changes in any other way. */
  lemma UpdateBackgroundColorEffect(st: AppState, color: Color, k: SurfaceKey)
    requires Valid(st)
    ensures var s := Surf(st, k);
      var t := Surf(UpdateBackgroundColor(st, color), k);
      && t.(objects := s.objects) == s && |t.objects| == |s.objects|
      && (forall i | 0 <= i < |s.objects| :: t.objects[i].(fill := s.objects[i].fill) == s.objects[i])
      && (forall i | 0 <= i < |s.objects| && Paintable(s, s.objects[i]) :: t.objects[i].fill == Some(color))
      && (forall i | 0 <= i < |s.objects| && !Paintable(s, s.objects[i]) :: t.objects[i] == s.objects[i])
      && WellFormed(s) && WellFormed(t)
      && VerticalGuide(t) == VerticalGuide(s) && HorizontalGuide(t) == HorizontalGuide(s)
      && (s.logo.Some? ==> Logo(t) == Logo(s))
  {
    var s := Surf(st, k);
    assert SurfaceOk(k, s, st.nextId);
    RecolorAt(st, color, UpdateBackgroundColor(st, color), k);
    RecolorKeepsShape(s, color);
  }

  /** Only the last colour picked matters; picking the same colour twice is picking it
      once. */
  lemma UpdateBackgroundColorLastWins(st: AppState, a: Color, b: Color)
    ensures UpdateBackgroundColor(UpdateBackgroundColor(st, a), b) == UpdateBackgroundColor(st, b)
  {
    var m := UpdateBackgroundColor(st, a);
    var r1 := UpdateBackgroundColor(m, b);
    var r2 := UpdateBackgroundColor(st, b);
    forall k: SurfaceKey
      ensures Get(r1.canvases, k) == Get(r2.canvases, k)
    {
      RecolorAt(st, a, m, k);
      RecolorAt(m, b, r1, k);
      RecolorAt(st, b, r2, k);
      RecolorLastWins(Surf(st, k), a, b);
    }
    CanvasesExt(r1.canvases, r2.canvases);
  }

  /** Picking a colour on the freshly loaded page gives the page that initialisation with
      that colour would have built. */
  lemma RecolorInitialized(color: Color)
    ensures UpdateBackgroundColor(Startup(), color)
         == Startup().(canvases := InitializeCanvases(color))
  {
    var r := UpdateBackgroundColor(Startup(), color);
    forall k: SurfaceKey
      ensures Get(r.canvases, k) == Get(InitializeCanvases(color), k)
    {
      RecolorInitializedAt(color, k);
    }
    CanvasesExt(r.canvases, InitializeCanvases(color));
  }

  lemma RecolorInitializedAt(color: Color, k: SurfaceKey)
    ensures Surf(UpdateBackgroundColor(Startup(), color), k) == Get(InitializeCanvases(color), k)
  {
    RecolorAt(Startup(), color, UpdateBackgroundColor(Startup(), color), k);
    RecolorInitialSurface(k, color, 3 * Index(k));
  }

  lemma RecolorInitialSurface(k: SurfaceKey, color: Color, base: ObjId)
    ensures Recolor(InitialSurface(k, DefaultColor, base), color) == InitialSurface(k, color, base)
  {
    var s := InitialSurface(k, DefaultColor, base);
    assert Recolor(s, color).objects == InitialSurface(k, color, base).objects;
  }

  /** The three per-surface buttons. */
  datatype AlignButton = CenterHorizontal | CenterVertical | ResetPosition

  function Align(b: AlignButton, s: Surface): (t: Surface)
    requires WellFormed(s)
    ensures WellFormed(t) && t.width == s.width && t.height == s.height
    ensures SameIds(s.objects, t.objects)
    ensures s.logo.None? ==> t == s
    ensures s.logo.Some? ==> t.logo.Some? && SameExcept(s, t, {s.logo.value})
  {
    match b
    case CenterHorizontal => CenterLogoHorizontally(s)
    case CenterVertical => AlignLogoTop(s)
    case ResetPosition => ResetLogo(s)
  }

  /** Where each button puts a logo copy currently at `p` on a canvas `width` wide. */
  function AlignedPlace(b: AlignButton, width: real, p: Placement): Placement {
    match b
    case CenterHorizontal => p.(left := width / 2.0, originX := XCenter)
    case CenterVertical => p.(top := LogoTop, originY := YTop)
    case ResetPosition => Home(width, p.scaleX, p.scaleY)
  }

  /** A click on button `b` whose `data-canvas` attribute reads `target`. A name that is not
      one of the four keys, or a surface without a logo copy, leaves the page unchanged. */
  function ClickAlign(st: AppState, b: AlignButton, target: string): (r: AppState)
    requires Valid(st)
    ensures Valid(r) && r.nextId == st.nextId && r.downloadEnabled == st.downloadEnabled
    ensures ParseName(target).None? ==> r == st
  {
    match ParseName(target)
    case None => st
    case Some(k) =>
      var s := Surf(st, k);
      assert SurfaceOk(k, s, st.nextId);
      var t := Align(b, s);
      UpdateValid(st, k, t);
      st.(canvases := Put(st.canvases, k, t))
  }

  /** A button acts only on its own surface and only on the logo copy there; without a
      copy it does nothing. The copy's image keeps its natural size, visibility and scale,
      and only the anchor fields the button sets change. */
  lemma ClickAlignEffect(st: AppState, b: AlignButton, k: SurfaceKey)
    requires Valid(st)
    ensures var s := Surf(st, k);
      var r := ClickAlign(st, b, Name(k));
      && (forall j: SurfaceKey | j != k :: Surf(r, j) == Surf(st, j))
      && (s.logo.None? ==> r == st)
      && (s.logo.Some? ==>
        && WellFormed(s) && WellFormed(Surf(r, k)) && Surf(r, k).logo == s.logo
        && SameExcept(s, Surf(r, k), {s.logo.value})
        && Logo(Surf(r, k)) == Logo(s).(shape := Logo(s).shape.(place := AlignedPlace(b, Width(k), LogoPlace(s)))))
  {
    ParseNameInverse(Name(k), k);
    var s := Surf(st, k);
    assert SurfaceOk(k, s, st.nextId);
    var r := ClickAlign(st, b, Name(k));
    assert Surf(r, k) == Align(b, s);
    if s.logo.None? {
      CanvasesExt(r.canvases, st.canvases);
    }
  }

}
