# Logo composer: the editing state machine

A Dafny model of the page script `static/js/main.js` of a small logo composer. The page
shows four canvases ("surfaces"): landscape-agency, landscape-endcard, portrait-agency and
portrait-endcard. Each carries a background rectangle, two hidden guide lines through its
middle, and, once an image has been uploaded, one copy of the logo. The user drags the
copies (they snap to the midlines), aligns them with three buttons per surface, picks a
background colour for all surfaces at once, and exports the four surfaces to the server
under an Agency ID before downloading the archive.

The model is functional. Every handler is a pure transition over an immutable
`AppState`: the four surfaces, the identity allocator and the `downloadEnabled` flag.
The library's object references are modelled as object identities (`ObjId`). A surface
names its two guides and its logo copy by identity, which is how the script's `!==`
tests and `canvas.remove(logo)` behave. Coordinates and scales are exact `real`s.

Modules, one per file:

- `Wrappers`: `Option`.
- `JsString`: `String.prototype.trim`.
- `Geometry`: placements, centre points, the snap test.
- `Objects`: canvas objects and identity lookup, `add` and `remove`.
- `LogoFit`: `scaleLogoToFit`.
- `Surfaces`: one canvas and the handlers that act on it alone.
- `Composer`: the page state, start-up, upload, drag, colour and the alignment buttons.
- `Export`: the generate and download buttons.
- `Session`: runs of events from page load.

The portrait-agency canvas is 1080 × 1920, like the portrait end card (lines 33-38).
Only the background rectangles of the two agency cards are 134 units tall (lines 44-75).
The "center-vertical" button puts the logo's top edge 50 units below the top and does
not centre it vertically (lines 297-301).

## Model

| member | source | states |
|---|---|---|
| JsString.Trim | static/js/main.js:330 | the trimmed Agency ID starts and ends with a non-white-space character, and is empty exactly when the field holds only white space |
| JsString.TrimIsInfix | static/js/main.js:330 | the field is the trimmed ID with a run of white space on each side, so trimming only removes characters from the ends |
| JsString.TrimUnique | static/js/main.js:330 | whatever white space surrounds an ID that has none at its ends, trimming recovers exactly that ID |
| JsString.TrimIdempotent | static/js/main.js:381 | trimming an already trimmed ID changes nothing |
| LogoFit.ScaleLogoToFit | static/js/main.js:176-191 | the scale is positive, never enlarges, fits the scaled image in 300 × 100, and is 1 exactly when the image already fits |
| LogoFit.ScaleIsMinimum | static/js/main.js:176-191 | for a non-empty image the scale is min(1, 300/w, 100/h) |
| LogoFit.ScaleIsLargestFit | static/js/main.js:176-191 | no larger non-enlarging scale fits the box, so the scale is the largest that fits |
| Objects.Remove | static/js/main.js:154-156 | no object with the removed identity is left on the canvas |
| Objects.RemoveMembers | static/js/main.js:154-156 | removing keeps every other object, and only those objects |
| Objects.RemoveAt | static/js/main.js:154-156 | with unique identities, removing an object cuts exactly its slot out of the stack, and the objects below and above keep their order; removing an absent object changes nothing |
| Objects.FindRemove | static/js/main.js:154-156 | after a removal every other lookup by identity finds what it found before |
| Objects.FindAppend | static/js/main.js:159 | adding an object on top keeps every earlier lookup and makes the new object findable |
| Objects.FindReplace | static/js/main.js:204-207 | setting an object's properties changes what a lookup of that object finds and nothing else |
| Surfaces.SetGuides | static/js/main.js:208-221 | the two guides get the requested visibility; every other object and the surface's references stay as they were |
| Surfaces.HideGuides | static/js/main.js:227-231 | both guides are hidden, each keeping its position and every other field; nothing else on the surface changes |
| Surfaces.SnapPlacement | static/js/main.js:203-222 | on each axis separately, a centre strictly within 10 of the midline moves exactly onto it; otherwise that axis keeps the dragged anchor and origin; scales never change |
| Surfaces.SnapPlacementIdempotent | static/js/main.js:203-222 | snapping a snapped placement changes nothing and keeps each axis's near or far verdict |
| Surfaces.Snap | static/js/main.js:195-225 | the logo copy takes the snapped placement, each guide is shown exactly when the centre was near its midline, and only the logo and guides are touched |
| Surfaces.SnapCenter | static/js/main.js:200-222 | after the step, each coordinate of the logo's centre is the midline when it was near, and unchanged otherwise |
| Surfaces.SnapIdempotent | static/js/main.js:195-225 | running the moving handler again without mouse motion changes nothing |
| Surfaces.CenterLogoHorizontally | static/js/main.js:275-289 | with a logo, only its left anchor and horizontal origin change, to the vertical midline; without one, nothing changes |
| Surfaces.CenteredOnMidline | static/js/main.js:281-285 | after center-horizontal the logo's centre lies on the vertical midline at its previous height |
| Surfaces.AlignLogoTop | static/js/main.js:291-305 | with a logo, only its top anchor and vertical origin change, to 50 from the top; without one, nothing changes |
| Surfaces.AlignedAtTop | static/js/main.js:297-301 | after center-vertical the logo's top edge is 50 below the canvas top and its centre has not moved sideways |
| Surfaces.ResetLogo | static/js/main.js:308-326 | with a logo, it returns to the upload placement, keeping its current scale, and the copy is otherwise unchanged; without one, nothing changes |
| Surfaces.ResetIsBothAlignments | static/js/main.js:308-326 | reset is center-horizontal followed by center-vertical |
| Surfaces.ResetAfterPlace | static/js/main.js:308-326 | reset right after an upload changes nothing |
| Surfaces.ScaleLogo | static/js/main.js:193-232 | a resize through the library's handles sets the copy's anchor and both scales, keeps its origins and natural size, and touches nothing else on the surface |
| Surfaces.ResetKeepsUserScale | static/js/main.js:308-326 | after the user resizes a copy, reset puts it at the home placement with the user's scales; the image is otherwise as before the resize |
| Surfaces.ResetUndoesDrag | static/js/main.js:308-326 | after one drag step and its snap, reset brings the logo back to the state it had at its home placement |
| Surfaces.Recolor | static/js/main.js:243-247 | exactly the non-selectable objects that are not guides get the new fill; no object changes in any other way |
| Surfaces.RecolorKeepsShape | static/js/main.js:244 | recolouring never touches the guides or the logo copy, and the surface stays well formed |
| Surfaces.RecolorLastWins | static/js/main.js:241-272 | only the last colour applied matters, so recolouring is idempotent |
| Surfaces.PlaceLogo | static/js/main.js:146-163 | the surface's logo reference becomes the new copy; the size and the guide references are kept |
| Surfaces.PlaceLogoIds | static/js/main.js:140-168 | placement introduces no identity other than the new copy's: every object on the result is the new copy or was already on the canvas, and every identity stays below the allocator's bound |
| Surfaces.PlaceLogoEffect | static/js/main.js:140-168 | the new copy is visible, at its natural size and the home placement, on top of the stack and the only image; the old copy is gone; every other object is unchanged and keeps its stacking order |
| Composer.Index | static/js/main.js:17-22 | each surface has one position in the order in which the page visits its canvases |
| Composer.ParseNameInverse | static/js/main.js:277-279 | a `data-canvas` name selects a surface exactly when it is that surface's key |
| Composer.InitializeCanvasesShape | static/js/main.js:41-125 | after start-up each surface holds exactly three objects: a non-selectable background of the given colour (a 134 band on agency cards), then hidden guides at x = W/2 and y = H/2 |
| Composer.StartupValid | static/js/main.js:391 | the loaded page is a valid state with download disabled |
| Composer.Upload | static/js/main.js:128-173 | an upload keeps the page valid and leaves download alone; without an image nothing changes |
| Composer.PlaceLogos | static/js/main.js:140-168 | the placement loop over the four canvases, one canvas per iteration, ends in the upload's state |
| Composer.UploadPlacesLogos | static/js/main.js:140-168 | after an upload every surface carries exactly one logo copy, at its own home placement, scaled to fit; the old copy is gone and nothing else changed |
| Composer.UploadSameScale | static/js/main.js:137-147 | all four copies carry the same scale, equal on both axes |
| Composer.Moving | static/js/main.js:195-225 | a drag step keeps the page valid and changes no other surface; without a logo it changes nothing |
| Composer.MovingEffect | static/js/main.js:195-225 | per axis, a centre strictly within 10 of the midline lands on it and shows that guide; otherwise it stays and the guide is hidden; the scale is kept; the surface is exactly the library's move followed by the snap step |
| Composer.Scaling | static/js/main.js:193-232 | a resize keeps the page valid and changes no other surface; without a logo it changes nothing |
| Composer.ResetAfterScaling | static/js/main.js:308-326 | resizing the copy on a surface and then pressing its reset button leaves the copy at home with the user's scales, and every other surface as it was |
| Composer.DragEnd | static/js/main.js:227-231 | drag end keeps the page valid and changes no other surface |
| Composer.DragEndEffect | static/js/main.js:227-231 | drag end hides both guides of its surface and changes nothing else there; the logo keeps its position |
| Composer.DragThenRelease | static/js/main.js:195-231 | releasing after a drag step leaves the logo where the step put it, with both guides hidden |
| Composer.UpdateBackgroundColor | static/js/main.js:241-272 | recolouring keeps the page valid and touches neither the allocator nor the download flag |
| Composer.UpdateBackgroundColorEffect | static/js/main.js:241-272 | on every surface exactly the non-selectable, non-guide objects get the colour; guides and logo copy are unchanged |
| Composer.UpdateBackgroundColorLastWins | static/js/main.js:241-272 | only the last colour picked matters |
| Composer.RecolorInitialized | static/js/main.js:41-92 | picking a colour on the freshly loaded page gives the page that start-up with that colour builds |
| Composer.Align | static/js/main.js:275-326 | every button keeps the surface well formed, touches at most the logo copy, and does nothing without one |
| Composer.ClickAlign | static/js/main.js:275-326 | a click keeps the page valid; an unknown `data-canvas` name changes nothing |
| Composer.ClickAlignEffect | static/js/main.js:275-326 | a button acts only on its own surface and only on the logo copy there, setting only the anchor fields it names |
| Export.HideAllGuidesAt | static/js/main.js:337-343 | before an export every surface has both guides hidden, each guide keeping its other fields, and is otherwise unchanged |
| Export.Generate | static/js/main.js:329-377 | generate keeps the page valid and leaves the download flag alone |
| Export.GenerateGate | static/js/main.js:330-334 | an ID of only white space prompts for one, changes nothing and sends nothing; otherwise the request goes to /save-images with the trimmed ID |
| Export.GenerateHidesGuides | static/js/main.js:337-351 | all eight guides are hidden before the snapshots are taken, and each snapshot is its surface as it then stands |
| Export.OnSaveReply | static/js/main.js:364-376 | a reply never touches the surfaces, and always alerts |
| Export.OnSaveReplyEnables | static/js/main.js:364-376 | download becomes enabled exactly on a success reply and is never disabled again; a failure reply alerts "Error: " followed by the server's error (or "undefined" without one); a failed request alerts the generic retry message |
| Export.Download | static/js/main.js:380-388 | a disabled download button does nothing |
| Export.DownloadGate | static/js/main.js:380-388 | an enabled download prompts for a missing ID, and otherwise navigates to /download/ plus the trimmed ID |
| Export.DownloadFollowsGenerate | static/js/main.js:329-388 | with the field unchanged, download goes to the archive generate asked the server to build |
| Export.DownloadTargetParses | static/js/main.js:387 | the download address is /download/ followed by a non-empty ID free of surrounding white space |
| Session.Loaded | static/js/main.js:391 | the freshly loaded page is valid, with download disabled and no request outstanding |
| Session.Edit | static/js/main.js:128-326 | the editing handlers keep the page valid, never move the identity allocator back, and leave the download button alone |
| Session.GenerateStep | static/js/main.js:329-377 | a generate click posts exactly when the field holds an Agency ID, and the posted request becomes outstanding |
| Session.AnswerStep | static/js/main.js:364-376 | a reply settles one outstanding request and enables download if it reports success; with none outstanding it changes nothing |
| Session.Step | static/js/main.js:128-388 | every handler keeps the page valid and never moves the identity allocator back; its effect on the download button and on the outstanding requests is the bookkeeping `Account` describes, and it asks to post exactly on a generate with an Agency ID |
| Session.Run | static/js/main.js:128-388 | any run of events keeps the page valid and yields one effect per event |
| Session.RunTallies | static/js/main.js:329-377 | the page's download flag and outstanding requests after a run are the tally of the run |
| Session.TallySplit | static/js/main.js:329-377 | tallying a prefix in two stretches gives the tally of the whole prefix |
| Session.EnabledIff | static/js/main.js:364-369 | download ends up enabled exactly when it was at the start or some successful reply answered a request outstanding when it came |
| Session.PendingNeedsPost | static/js/main.js:353-377 | a run that ends with more requests outstanding than it started with contains a generate with an Agency ID |
| Session.PendingKept | static/js/main.js:353-377 | without replies, no outstanding request goes away |
| Session.EnabledNeedsPost | static/js/main.js:329-369 | starting disabled with nothing outstanding, download can only end up enabled after a generate with an Agency ID followed by a successful reply that answered an outstanding request |
| Session.DownloadNeedsSuccess | static/js/main.js:329-369 | from page load, download is usable exactly when a successful reply answered an outstanding request, and then a generate with an Agency ID came before that reply |
| Session.PostThenSuccess | static/js/main.js:329-369 | a generate with an Agency ID answered by a success, with no other reply in between, leaves download enabled |
| Session.GenerateThenSuccessEnables | static/js/main.js:329-369 | from page load, a generate with an Agency ID followed by a successful reply, with no other reply in between, enables download |

## Left out

- Rendering (`renderAll`) is not modelled, and neither is the library's event wiring (`on('moving')`, `on('modified')`). Each handler is a transition that the caller applies.
- `bringToFront` is not modelled separately. The new copy is added last, so it is already on top.
- The library's drag step is modelled as moving the logo copy's anchor (`Surfaces.MoveLogo`), and its resize step as setting the anchor and both scales (`Surfaces.ScaleLogo`). How the library computes these from the mouse is not modelled; the values are inputs.
- Rotation is not modelled. The user can rotate a copy with the library's rotation handle, but the model keeps no angle. So the centre that the snap test and `Geometry.CenterPoint` use is that of an unrotated copy, and the reset button's effect on a rotated copy's angle is not covered.
- Object cloning is not modelled. Each copy is a fresh object with its own identity.
- Reading the file and decoding the image are not modelled. Their outcome is an input: the decoded natural size, or none.
- `toDataURL` is not modelled. A snapshot is the surface it would be drawn from.
- `fetch` and JSON parsing are not modelled. Their outcome is an input (`SaveReply`).
- `alert` and navigation are not performed. They are returned as an `Effect`, and `console.error` is dropped.
- The server side, `app.py`, is not part of this model.
- Coordinates and scales are exact reals, not IEEE doubles.
- Overlapping exports are counted but not told apart. The page keeps the number of outstanding save requests; each reply settles one of them, whichever request it answers. A reply with no request outstanding cannot happen, and the model ignores one.
- The snap test reads the canvas size, while placement reads the `sizes` table. The model keeps one size per surface, equal to the table.
- `initializeCanvases` is modelled only as the start-up it is used for (line 391). Calling it again would leave the `logos` entries pointing at objects no longer on the canvas.
- Export.OnSaveReply: the `error` field is taken as a string or absent. Other JSON values and their string conversion are not modelled, and the `success` field is taken as a boolean rather than as any truthy value.
