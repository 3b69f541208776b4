/** A session on the page: the user's actions and the server's answers, each handled as
    one atomic transition, starting from the freshly loaded page. */
module Session {
  import opened Wrappers
  import opened Objects
  import opened LogoFit
  import opened JsString
  import opened Surfaces
  import opened Composer
  import opened Export

  datatype Event =
    | ColorPicked(color: Color)
    | FileChosen(image: Option<ImageSize>)
    | Dragged(key: SurfaceKey, left: real, top: real)
    | Resized(key: SurfaceKey, left: real, top: real, scaleX: real, scaleY: real)
    | Released(key: SurfaceKey)
    | ButtonClicked(button: AlignButton, target: string)
    | GenerateClicked(input: string)
    | SaveAnswered(reply: SaveReply)
    | DownloadClicked(input: string)

  /** The page together with the number of save requests it has sent and not yet heard
      back from. Several can be outstanding: nothing stops a second click on generate. */
  datatype Page = Page(app: AppState, pending: nat)

  /** The freshly loaded page, with no request outstanding. */
  function Loaded(): (p: Page)
    ensures Valid(p.app) && p.pending == 0 && !p.app.downloadEnabled
  {
    StartupValid();
    Page(Startup(), 0)
  }

  /** A click on generate with an Agency ID in the field: it sends a save request. */
  predicate Posts(e: Event) {
    e.GenerateClicked? && !AllWhiteSpace(e.input)
  }

  /** A save request came back reporting success. */
  predicate Succeeded(e: Event) {
    e.SaveAnswered? && e.reply.Replied? && e.reply.success
  }

  /** What the page keeps about its save requests: whether download is enabled, and how
      many requests are outstanding. */
  datatype Ledger = Ledger(enabled: bool, pending: nat)

  function LedgerOf(p: Page): Ledger {
    Ledger(p.app.downloadEnabled, p.pending)
  }

  /** The request bookkeeping on its own: a generate with an Agency ID sends one request; a
      reply answers one outstanding request, enabling download if it reports success; a
      reply with nothing outstanding cannot arrive and changes nothing; no other event
      touches either. */
  function Account(l: Ledger, e: Event): Ledger {
    if Posts(e) then l.(pending := l.pending + 1)
    else if e.SaveAnswered? && l.pending > 0 then Ledger(l.enabled || Succeeded(e), l.pending - 1)
    else l
  }

  /** `Account` over a run of events. */
  function Tally(l: Ledger, es: seq<Event>): Ledger
    decreases |es|
  {
    if es == [] then l else Tally(Account(l, es[0]), es[1..])
  }

  /** An event that only edits the canvases: everything but generate, the server's reply
      and download. */
  predicate IsEdit(e: Event) {
    !e.GenerateClicked? && !e.SaveAnswered? && !e.DownloadClicked?
  }

  /** The handlers of the editing events. None of them touches the download button. */
  function Edit(st: AppState, e: Event): (r: AppState)
    requires Valid(st) && IsEdit(e)
    ensures Valid(r) && st.nextId <= r.nextId && r.downloadEnabled == st.downloadEnabled
  {
    match e
    case ColorPicked(color) => UpdateBackgroundColor(st, color)
    case FileChosen(image) => Upload(st, image)
    case Dragged(k, left, top) => Moving(st, k, left, top)
    case Resized(k, left, top, sx, sy) => Scaling(st, k, left, top, sx, sy)
    case Released(k) => DragEnd(st, k)
    case ButtonClicked(b, target) => ClickAlign(st, b, target)
  }

  /** A click on generate: with an Agency ID the request goes out and is outstanding. */
  function GenerateStep(p: Page, input: string): (r: (Page, Effect))
    requires Valid(p.app)
    ensures Valid(r.0.app) && r.0.app.nextId == p.app.nextId
    ensures LedgerOf(r.0) == Account(LedgerOf(p), GenerateClicked(input))
    ensures r.1.Post? <==> Posts(GenerateClicked(input))
  {
    GenerateGate(p.app, input);
    var (t, effect) := Generate(p.app, input);
    (Page(t, if effect.Post? then p.pending + 1 else p.pending), effect)
  }

  /** The server's reply to one outstanding request; with none
      outstanding no reply can arrive, and the model ignores one. */
  function AnswerStep(p: Page, reply: SaveReply): (r: (Page, Effect))
    requires Valid(p.app)
    ensures Valid(r.0.app) && r.0.app.nextId == p.app.nextId
    ensures LedgerOf(r.0) == Account(LedgerOf(p), SaveAnswered(reply))
    ensures p.pending == 0 ==> r == (p, NoEffect)
    ensures p.pending > 0 ==> r.1.Alert?
  {
    if p.pending == 0 then (p, NoEffect)
    else
      OnSaveReplyEnables(p.app, reply);
      var (t, effect) := OnSaveReply(p.app, reply);
      assert forall k: SurfaceKey :: Surf(t, k) == Surf(p.app, k);
      (Page(t, p.pending - 1), effect)
  }

  /** The handler each event runs. Its request bookkeeping is exactly `Account`, and only a
      generate with an Agency ID asks the browser to post. */
  function Step(p: Page, e: Event): (r: (Page, Effect))
    requires Valid(p.app)
    ensures Valid(r.0.app) && p.app.nextId <= r.0.app.nextId
    ensures LedgerOf(r.0) == Account(LedgerOf(p), e)
    ensures r.1.Post? <==> Posts(e)
    ensures e.SaveAnswered? && p.pending == 0 ==> r == (p, NoEffect)
  {
    match e
    case GenerateClicked(input) => GenerateStep(p, input)
    case SaveAnswered(reply) => AnswerStep(p, reply)
    case DownloadClicked(input) => (p, Download(p.app, input))
    case _ => (p.(app := Edit(p.app, e)), NoEffect)
  }

  /** The page after a run of events, and what it asked of the browser at each one. */
  function Run(p: Page, es: seq<Event>): (r: (Page, seq<Effect>))
    requires Valid(p.app)
    ensures Valid(r.0.app) && p.app.nextId <= r.0.app.nextId && |r.1| == |es|
    decreases |es|
  {
    if es == [] then (p, [])
    else
      var (m, e) := Step(p, es[0]);
      var (t, rest) := Run(m, es[1..]);
      (t, [e] + rest)
  }

  /** The page's request bookkeeping after a run is the tally of the run. */
  lemma {:induction false} RunTallies(p: Page, es: seq<Event>)
    requires Valid(p.app)
    ensures LedgerOf(Run(p, es).0) == Tally(LedgerOf(p), es)
    decreases |es|
  {
    if es != [] {
      RunTallies(Step(p, es[0]).0, es[1..]);
    }
  }

  lemma {:induction false} TallyAppend(l: Ledger, a: seq<Event>, b: seq<Event>)
    ensures Tally(l, a + b) == Tally(Tally(l, a), b)
    decreases |a|
  {
    if a != [] {
      TallyAppend(Account(l, a[0]), a[1..], b);
      assert (a + b)[0] == a[0];
      assert (a + b)[1..] == a[1..] + b;
      assert Tally(l, a + b) == Tally(Account(l, a[0]), a[1..] + b);
    } else {
      assert a + b == b;
    }
  }

  /** The tally of the first `j` events is the tally of the first `i` carried on over the
      events between `i` and `j`. */
  lemma TallySplit(l: Ledger, es: seq<Event>, i: nat, j: nat)
    requires i <= j <= |es|
    ensures Tally(l, es[..j]) == Tally(Tally(l, es[..i]), es[i..j])
  {
    TallyAppend(l, es[..i], es[i..j]);
    assert es[..i] + es[i..j] == es[..j];
  }

  /** Download ends up enabled exactly when it was at the start or some successful reply
      answered a request that was outstanding when it came. */
  lemma {:induction false} EnabledIff(l: Ledger, es: seq<Event>)
    ensures Tally(l, es).enabled
        <==> l.enabled || exists j | 0 <= j < |es| :: Succeeded(es[j]) && Tally(l, es[..j]).pending > 0
    decreases |es|
  {
    if es != [] {
      var m := Account(l, es[0]);
      var rest := es[1..];
      EnabledIff(m, rest);
      assert es[..0] == [];
      forall j | 1 <= j <= |es|
        ensures Tally(l, es[..j]) == Tally(m, rest[..j - 1])
      {
        assert es[..j][1..] == rest[..j - 1];
      }
      if exists j | 0 <= j < |es| :: Succeeded(es[j]) && Tally(l, es[..j]).pending > 0 {
        var j :| 0 <= j < |es| && Succeeded(es[j]) && Tally(l, es[..j]).pending > 0;
        if j > 0 {
          assert Succeeded(rest[j - 1]) && Tally(m, rest[..j - 1]).pending > 0;
        }
      }
      if exists j | 0 <= j < |rest| :: Succeeded(rest[j]) && Tally(m, rest[..j]).pending > 0 {
        var j :| 0 <= j < |rest| && Succeeded(rest[j]) && Tally(m, rest[..j]).pending > 0;
        assert Succeeded(es[j + 1]) && Tally(l, es[..j + 1]).pending > 0;
      }
    }
  }

  /** Outstanding requests only grow through generate: a run that ends with more of them
      than it started with posted one. */
  lemma {:induction false} PendingNeedsPost(l: Ledger, es: seq<Event>)
    ensures Tally(l, es).pending > l.pending ==> exists i | 0 <= i < |es| :: Posts(es[i])
    decreases |es|
  {
    if es != [] && !Posts(es[0]) {
      PendingNeedsPost(Account(l, es[0]), es[1..]);
      if exists i | 0 <= i < |es[1..]| :: Posts(es[1..][i]) {
        var i :| 0 <= i < |es[1..]| && Posts(es[1..][i]);
        assert Posts(es[i + 1]);
      }
    }
  }

  /** Without replies, no outstanding request goes away. */
  lemma {:induction false} PendingKept(l: Ledger, es: seq<Event>)
    requires forall k | 0 <= k < |es| :: !es[k].SaveAnswered?
    ensures Tally(l, es).pending >= l.pending
    decreases |es|
  {
    if es != [] {
      assert forall k | 0 <= k < |es[1..]| :: es[1..][k] == es[k + 1];
      PendingKept(Account(l, es[0]), es[1..]);
    }
  }

  /** From the freshly loaded page, the download button shows the tally of the run from
      "disabled, nothing outstanding". */
  lemma LoadedTallies(es: seq<Event>)
    ensures Run(Loaded(), es).0.app.downloadEnabled == Tally(Ledger(false, 0), es).enabled
  {
    RunTallies(Loaded(), es);
  }

  /** Starting disabled with nothing outstanding, download can only end up enabled after a
      generate with an Agency ID that came before a successful reply answering an
      outstanding request. */
  lemma EnabledNeedsPost(es: seq<Event>)
    ensures Tally(Ledger(false, 0), es).enabled
        ==> exists i, j | 0 <= i < j < |es| ::
              Posts(es[i]) && Succeeded(es[j]) && Tally(Ledger(false, 0), es[..j]).pending > 0
  {
    var l := Ledger(false, 0);
    EnabledIff(l, es);
    if Tally(l, es).enabled {
      var j :| 0 <= j < |es| && Succeeded(es[j]) && Tally(l, es[..j]).pending > 0;
      PendingNeedsPost(l, es[..j]);
      var i :| 0 <= i < |es[..j]| && Posts(es[..j][i]);
      assert Posts(es[i]) && Succeeded(es[j]) && Tally(l, es[..j]).pending > 0;
    }
  }

  /** From the freshly loaded page, the download button is usable exactly when a
      successful reply answered an outstanding request, and then a generate click with an
      Agency ID came before that reply. */
  lemma DownloadNeedsSuccess(es: seq<Event>)
    ensures Run(Loaded(), es).0.app.downloadEnabled
        <==> exists j | 0 <= j < |es| :: Succeeded(es[j]) && Tally(Ledger(false, 0), es[..j]).pending > 0
    ensures Run(Loaded(), es).0.app.downloadEnabled
        ==> exists i, j | 0 <= i < j < |es| ::
              Posts(es[i]) && Succeeded(es[j]) && Tally(Ledger(false, 0), es[..j]).pending > 0
  {
    LoadedTallies(es);
    EnabledIff(Ledger(false, 0), es);
    EnabledNeedsPost(es);
  }

  /** A generate with an Agency ID answered by a successful reply, with no other reply in
      between, leaves download enabled. */
  lemma PostThenSuccess(l: Ledger, es: seq<Event>, i: nat, j: nat)
    requires i < j < |es| && Posts(es[i]) && Succeeded(es[j])
    requires forall k | i < k < j :: !es[k].SaveAnswered?
    ensures Tally(l, es).enabled
  {
    TallySplit(l, es, i, i + 1);
    assert es[i..i + 1] == [es[i]];
    var after := Tally(l, es[..i + 1]);
    assert after.pending >= 1;
    TallySplit(l, es, i + 1, j);
    var between := es[i + 1..j];
    assert forall k | 0 <= k < |between| :: between[k] == es[i + 1 + k];
    PendingKept(after, between);
    EnabledIff(l, es);
  }

  /** Conversely, from the freshly loaded page, a generate click with an Agency ID followed
      by a successful reply, with no other reply in between, enables download. */
  lemma GenerateThenSuccessEnables(es: seq<Event>, i: nat, j: nat)
    requires i < j < |es| && Posts(es[i]) && Succeeded(es[j])
    requires forall k | i < k < j :: !es[k].SaveAnswered?
    ensures Run(Loaded(), es).0.app.downloadEnabled
  {
    PostThenSuccess(Ledger(false, 0), es, i, j);
    LoadedTallies(es);
  }

}
