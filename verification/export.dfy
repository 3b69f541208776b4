/** The two export buttons: "generate" posts a snapshot of every surface, under the
    trimmed Agency ID, to the server; "download" sends the browser to the archive of that
    ID. Both refuse to act without an ID. The browser's side effects are returned as an
    `Effect` for the caller to carry out, and the server's reply comes back as an input. */
module Export {
  import opened Wrappers
  import opened Objects
  import opened Surfaces
  import opened Composer
  import opened JsString

  const AgencyIdPrompt: string := "Please enter an Agency ID"
  const SaveEndpoint: string := "/save-images"
  const DownloadPrefix: string := "/download/"
  const SavedMessage: string := "Images generated successfully!"
  const ErrorPrefix: string := "Error: "
  const RequestFailedMessage: string := "An error occurred. Please try again."

  /** The key under which a surface's snapshot travels in the request body. */
  function ImageKey(k: SurfaceKey): string {
    match k
    case LandscapeAgency => "landscape_agency"
    case LandscapeEndcard => "landscape_endcard"
    case PortraitAgency => "portrait_agency"
    case PortraitEndcard => "portrait_endcard"
  }

  /** One rasterised surface, stood for by the surface it is drawn from. */
  datatype Snapshot = Snapshot(key: string, surface: Surface)

  /** What a handler asks of the browser. */
  datatype Effect =
    | NoEffect
    | Alert(message: string)
    | Post(url: string, agencyId: string, images: seq<Snapshot>)
    | Navigate(url: string)

  /** How the save request ended, as the page sees it: a JSON body carrying `success` and
      perhaps `error`, or a failure anywhere along the way (network, non-JSON body). */
  datatype SaveReply = Replied(success: bool, error: Option<string>) | Failed

  /** Every surface with both guides hidden, the first step of an export. */
  function HideAllGuides(st: AppState): (r: AppState)
    requires Valid(st)
    ensures r.nextId == st.nextId && r.downloadEnabled == st.downloadEnabled
  {
    assert SurfaceOk(LandscapeAgency, Surf(st, LandscapeAgency), st.nextId);
    assert SurfaceOk(LandscapeEndcard, Surf(st, LandscapeEndcard), st.nextId);
    assert SurfaceOk(PortraitAgency, Surf(st, PortraitAgency), st.nextId);
    assert SurfaceOk(PortraitEndcard, Surf(st, PortraitEndcard), st.nextId);
    st.(canvases := Canvases(
      HideGuides(Surf(st, LandscapeAgency)),
      HideGuides(Surf(st, LandscapeEndcard)),
      HideGuides(Surf(st, PortraitAgency)),
      HideGuides(Surf(st, PortraitEndcard))))
  }

  /** Surface `k` once every guide is hidden: both of its guides hidden, everything else
      on it as it was, the page still valid. */
  lemma HideAllGuidesAt(st: AppState, k: SurfaceKey)
    requires Valid(st)
    ensures WellFormed(Surf(st, k))
    ensures Surf(HideAllGuides(st), k) == HideGuides(Surf(st, k))
    ensures var t := Surf(HideAllGuides(st), k);
      && WellFormed(t) && SameExcept(Surf(st, k), t, {Surf(st, k).vertical, Surf(st, k).horizontal})
      && VerticalGuide(t) == VerticalGuide(Surf(st, k)).(visible := false)
      && HorizontalGuide(t) == HorizontalGuide(Surf(st, k)).(visible := false)
    ensures SurfaceOk(k, Surf(HideAllGuides(st), k), st.nextId)
  {
    var s := Surf(st, k);
    assert SurfaceOk(k, s, st.nextId);
  }

  lemma HideAllGuidesValid(st: AppState)
    requires Valid(st)
    ensures Valid(HideAllGuides(st))
  {
    var r := HideAllGuides(st);
    forall k: SurfaceKey
      ensures SurfaceOk(k, Surf(r, k), r.nextId)
    {
      HideAllGuidesAt(st, k);
    }
  }

  /** The snapshots of the request body, in the page's surface order. */
  function Snapshots(st: AppState): (images: seq<Snapshot>)
    ensures |images| == |SurfaceOrder|
    ensures forall i | 0 <= i < |images| ::
      images[i] == Snapshot(ImageKey(SurfaceOrder[i]), Surf(st, SurfaceOrder[i]))
  {
    seq(|SurfaceOrder|, i requires 0 <= i < |SurfaceOrder| =>
      Snapshot(ImageKey(SurfaceOrder[i]), Surf(st, SurfaceOrder[i])))
  }

  /** The generate button, given the text of the Agency ID field. */
  function Generate(st: AppState, input: string): (r: (AppState, Effect))
    requires Valid(st)
    ensures Valid(r.0) && r.0.nextId == st.nextId && r.0.downloadEnabled == st.downloadEnabled
  {
    var id := Trim(input);
    if id == [] then (st, Alert(AgencyIdPrompt))
    else
      HideAllGuidesValid(st);
      var hidden := HideAllGuides(st);
      (hidden, Post(SaveEndpoint, id, Snapshots(hidden)))
  }

  /** Without an Agency ID (nothing but white space in the field) generate only prompts for
      one: the page is unchanged and no request is made. With one, the request carries the
      trimmed ID. */
  lemma GenerateGate(st: AppState, input: string)
    requires Valid(st)
    ensures var r := Generate(st, input);
      && (AllWhiteSpace(input) <==> r.1 == Alert(AgencyIdPrompt))
      && (AllWhiteSpace(input) ==> r.0 == st)
      && (!AllWhiteSpace(input) <==> r.1.Post?)
      && (r.1.Post? ==> r.1.url == SaveEndpoint && r.1.agencyId == Trim(input) && r.1.agencyId != [])
  {
  }

  /** Before the snapshots are taken all eight guide lines are hidden; each snapshot is its
      surface as it then stands, and apart from the guides nothing on any surface has
      changed. */
  lemma GenerateHidesGuides(st: AppState, input: string, k: SurfaceKey)
    requires Valid(st) && !AllWhiteSpace(input)
    ensures var r := Generate(st, input);
      var s := Surf(st, k);
      var t := Surf(r.0, k);
      && r.1.Post? && |r.1.images| == |SurfaceOrder|
      && r.1.images[Index(k)] == Snapshot(ImageKey(k), t)
      && WellFormed(s) && WellFormed(t)
      && !VerticalGuide(t).visible && !HorizontalGuide(t).visible
      && SameExcept(s, t, {s.vertical, s.horizontal})
      && (s.logo.Some? ==> Logo(t) == Logo(s))
  {
    HideAllGuidesAt(st, k);
    var s := Surf(st, k);
    if s.logo.Some? {
      assert s.logo.value != s.vertical && s.logo.value != s.horizontal;
    }
  }

  /** The page's reaction to the save request's outcome. */
  function OnSaveReply(st: AppState, reply: SaveReply): (r: (AppState, Effect))
    ensures r.0.canvases == st.canvases && r.0.nextId == st.nextId
    ensures r.1.Alert?
  {
    match reply
    case Replied(true, _) => (st.(downloadEnabled := true), Alert(SavedMessage))
    case Replied(false, error) =>
      var shown := match error case Some(e) => e case None => "undefined";
      (st, Alert(ErrorPrefix + shown))
    case Failed => (st, Alert(RequestFailedMessage))
  }

  /** The download button becomes enabled exactly on a successful reply and is never
      disabled again; a failure only reports itself: the server's error after "Error: ",
      or the generic message when the request itself failed. */
  lemma OnSaveReplyEnables(st: AppState, reply: SaveReply)
    ensures var r := OnSaveReply(st, reply);
      && r.0.downloadEnabled == (st.downloadEnabled || (reply.Replied? && reply.success))
      && (reply.Replied? && reply.success <==> r.1 == Alert(SavedMessage))
      && (reply.Replied? && !reply.success ==> r.1.message[..|ErrorPrefix|] == ErrorPrefix)
      && (forall e :: reply == Replied(false, Some(e)) ==> r.1 == Alert(ErrorPrefix + e))
      && (reply == Replied(false, None) ==> r.1 == Alert("Error: undefined"))
      && (reply.Failed? ==> r.1 == Alert(RequestFailedMessage))
  {
    var r := OnSaveReply(st, reply);
    assert SavedMessage[0] == 'I';
    if reply.Replied? && !reply.success {
      assert r.1.message[0] == ErrorPrefix[0] == 'E';
    }
  }

  /** The download button, given the text of the Agency ID field. While the button is
      disabled a click does nothing; the page itself never changes. */
  function Download(st: AppState, input: string): (e: Effect)
    ensures !st.downloadEnabled ==> e == NoEffect
  {
    if !st.downloadEnabled then NoEffect
    else
      var id := Trim(input);
      if id == [] then Alert(AgencyIdPrompt) else Navigate(DownloadPrefix + id)
  }

  /** Once enabled, download either prompts for a missing ID or navigates to the archive
      of exactly the trimmed ID. */
  lemma DownloadGate(st: AppState, input: string)
    requires st.downloadEnabled
    ensures var e := Download(st, input);
      && (AllWhiteSpace(input) <==> e == Alert(AgencyIdPrompt))
      && (!AllWhiteSpace(input) <==> e.Navigate?)
      && (e.Navigate? ==> e.url == DownloadPrefix + Trim(input))
  {
  }

  /** Generate and download read the field the same way: with the field unchanged, the
      archive download goes to is the one generate asked the server to build. */
  lemma DownloadFollowsGenerate(st: AppState, done: AppState, input: string)
    requires Valid(st) && done.downloadEnabled && !AllWhiteSpace(input)
    ensures Generate(st, input).1.Post?
    ensures var id := Generate(st, input).1.agencyId;
      Download(done, input) == Navigate(DownloadPrefix + id) && id == Trim(input) && Tight(id)
  {
    GenerateGate(st, input);
  }

  /** The archive name is recovered from the download address: it is what follows the
      prefix, free of surrounding white space, and not empty. */
  lemma DownloadTargetParses(st: AppState, input: string)
    requires st.downloadEnabled && !AllWhiteSpace(input)
    ensures Download(st, input).Navigate?
    ensures var url := Download(st, input).url;
      && |DownloadPrefix| < |url| && url[..|DownloadPrefix|] == DownloadPrefix
      && Trim(url[|DownloadPrefix|..]) == url[|DownloadPrefix|..]
  {
    var id := Trim(input);
    var url := DownloadPrefix + id;
    assert url[|DownloadPrefix|..] == id;
    assert url[..|DownloadPrefix|] == DownloadPrefix;
    TrimIdempotent(input);
  }

}
