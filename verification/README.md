# A verified model of the e-paper display pipeline

This project models the pipeline that carries pictures from a producer to an
e-paper panel, and proves what it is for: whatever is superseded, refused,
frozen, replaced or lost to a failing panel, the receiver never shows a picture
it should not, every frame gets exactly one answer, and both ends agree on what
the receiver holds. It also covers the machines at its sides: the delta encoder,
the damage geometry and the framebuffer writer of the driver, the touch parser,
the cleanup gesture, the input queue and the framed stream.

The layers, bottom up:

- `Geometry`, `Pixels`, `Raster`, `Regions`, `Tiles`, `Ink`, `Refresh` say what
  rectangles, pixels, images, region lists, tile grids, strokes and the refresh
  policy mean, and `Strokes` what a pen line leaves on a plane. `Surface` and
  `TileSearch` carry this out on arrays.
- `Core` says what each operation of the display core does to one value:
  base, three local planes, at most one pending frame, the two software buffers
  and the bookkeeping. `Backend`, `Buffers` and `DisplayCore` carry it out on
  buffers that are copied, blended and swapped in place, in front of a panel that
  may accept or fail at every call. `Composition`, `PanelSafety`, `PlaneDebt`,
  `Reliability`, `Glass` and `Cadence` prove the run theorems: what the software
  picture is, what is on the glass and which waveform drove it last, and how often
  it is cleaned. `Waveforms`, `FastDebt` and `Timing` prove how, why and when it is
  driven.
- `Semantic` is the validator of arriving frames and `Delta` the encoder of the
  producer.
- `Receiver` says what every message and local event does to a session, `Session`
  carries it out, and `Results`, `SessionPicture`, `SessionReliability`,
  `SessionGlass`, `SessionInk` and `SessionCadence` prove whole session runs.
  `Answers` and `PenInk` prove what results, overlay commands and pen records mean.
- `Producer` says what the producer's protocol steps are, `Client` carries out its
  calls as sequences of such steps, and `Link` joins both sides with two ordered
  channels into one step relation; `Recovery` proves how a lost base is replaced.
- `TouchParser`, `Gesture`, `Capture`, `Quill`, `NativePixels` and `Wire` are the
  side machines.
- `Findings` holds what the code does not guarantee, with concrete inputs and the
  exact conditions.

Where the source changes objects in place the model has classes and methods whose
contracts tie the new state to the specification functions; the theorems are
lemmas about those functions. A failing operation that ends a session is `None` or
a failed outcome: the run theorems speak of runs up to that point.

The panel is a script of answers, each of which accepts (with some number of
physical updates) or fails and leaves any picture and any drive history on the
glass; theorems hold for every script. Clocks, readable device reports, arriving
results and bytes are parameters. Compression and the checksum are arbitrary
functions, and so is the payload serializer apart from being invertible.

The code and its documentation disagree in two places, and the model follows the
code. The comment at `crates/rm-display-core/src/scheduler.rs:357-360` says that
completing pending work first keeps unacknowledged base pixels from becoming
visible; when that flush fails they do become visible
(`Findings.ShownBaseIsAcknowledged`). Clearing the ink drops the dirty rectangle,
so presenting it afterwards repaints nothing (`Findings.ClearedInkStaysVisible`),
although `crates/rm-display-receiver/src/session.rs:255-270` offers it as erasing
what is drawn.

In four more places the code keeps less than a reader may expect, though no
documentation promises it: a repainted plane may forget fast-driven pixels
(`PlaneDebt.RepaintForgetsFastPixels`) and take an unknown glass for certain
(`PlaneDebt.RepaintTrustsTheGlass`), and the touch parser may cancel a contact it
never announced (`TouchParser.StreamLegal`) or lose one it did
(`TouchParser.RunKeepsHeld`). Each has its exact condition and a concrete input.

## Model

| member | source | states |
|---|---|---|
| Pixels.PackExpand | crates/rm-display-core/src/surface.rs:613-625 | packing after expanding is the identity on every RGB565 value |
| Pixels.OverZero | crates/rm-display-core/src/surface.rs:161-199 | a sample with alpha 0 leaves a pixel of either format exactly as it was, which the row and pixel shortcuts rely on |
| Pixels.OverOpaque | crates/rm-display-core/src/surface.rs:224-234 | an opaque sample replaces a pixel of either format by the plain colour of its luma |
| Pixels.OverMixes | crates/rm-display-core/src/surface.rs:608-611 | at every alpha each channel is mixed on its own and lands within half a level of the exact mixture, before a packed pixel drops its low bits |
| Pixels.PackKeepsHighBits | crates/rm-display-core/src/surface.rs:613-625 | what was packed unpacks to the high bits of each channel, channel by channel |
| Pixels.ExpandEnds | crates/rm-display-core/src/surface.rs:613-621 | black and white of a channel expand to black and white, and the low bits repeat the high ones |
| Raster.TopmostShows | crates/rm-display-core/src/surface.rs:137-299 | in the composed picture the topmost opaque sample of menu, ink and peer shows as the plain colour of its luma, and under three clear samples the base shows |
| Raster.CompositionPathsAgree | crates/rm-display-core/src/surface.rs:137-299 | copying the base into disjoint rectangles and blending three planes in place gives the same picture as composing peer, ink and menu and taking those rectangles |
| Raster.BlendPathExact | crates/rm-display-core/src/surface.rs:201-240 | blending rectangles in place agrees with layering the plane on every image and plane if and only if the rectangles are pairwise disjoint; overlaps blend twice |
| Regions.ApplyAllAt | crates/rm-display-core/src/surface.rs:120-135 | each pixel of an applied region list holds the pixel of the region it lies in, and is unchanged outside all of them |
| Regions.ApplyAllOrderFree | crates/rm-display-core/src/surface.rs:120-135 | two accepted lists that are permutations of one another give the same surface |
| Regions.ApplyTaken | crates/rm-display-core/src/surface.rs:120-135 | regions cut from an image, laid over another that agrees outside them, give that image |
| Surface.CheckRegions | crates/rm-display-core/src/surface.rs:563-606 | the two validation passes answer with the first shape error in list order, or the overlap error, or accept |
| Surface.PixelSurface.ApplyRegionsAtomic | crates/rm-display-core/src/surface.rs:120-135 | on an error nothing changes; on success the surface is the regions written one after the other |
| Surface.PixelSurface.CopyRegionsFrom | crates/rm-display-core/src/surface.rs:137-159 | exactly the listed rectangles are taken from the source, row by row |
| Surface.PixelSurface.Compose | crates/rm-display-core/src/surface.rs:161-199 | the composed copy is the plane layered over every pixel, despite the transparent, zero-row and zero-pixel shortcuts |
| Surface.PixelSurface.BlendRegions | crates/rm-display-core/src/surface.rs:201-240 | the plane is blended in place rectangle after rectangle |
| Surface.PixelSurface.ComposeRegionsInto | crates/rm-display-core/src/surface.rs:242-299 | the target holds the composition inside the listed rectangles and its old pixels elsewhere |
| Surface.LocalOverlay.Clear | crates/rm-display-core/src/surface.rs:345-349 | all alpha becomes zero, the luma stays, and the dirty rectangle is lost |
| Surface.LocalOverlay.Patch | crates/rm-display-core/src/surface.rs:351-383 | one rectangle of both planes is replaced and the transparent flag recomputed, or the patch is rejected and nothing changes |
| Surface.LocalOverlay.StampDisc | crates/rm-display-core/src/surface.rs:389-435 | one nib position marks exactly the pixels of a clipped disc |
| Surface.LocalOverlay.InkSegment | crates/rm-display-core/src/surface.rs:389-435 | a raster segment marks the union of the discs along the line, which Strokes.StrokeDrawn places on the plane, and grows the dirty rectangle |
| Surface.LocalOverlay.ReplacePlanes | crates/rm-display-core/src/surface.rs:437-445 | both planes are replaced when their sizes fit and nothing changes otherwise |
| Ink.AlongBetween | crates/rm-display-core/src/surface.rs:389-435 | truncating division never carries the pen past either end of the stroke |
| Ink.InkLineDirty | crates/rm-display-core/src/surface.rs:389-435 | whatever the radius, a stroke changes only pixels of the new dirty rectangle, which stays on the panel and contains the previous one |
| Strokes.StrokeDrawn | crates/rm-display-core/src/surface.rs:389-435 | a stroke marks exactly the pixels under a nib that moves from one end to the other without a gap, black and opaque or clear when erasing, so both ends are marked, and changes no pixel farther from the segment than the radius and one |
| Answers.PatchedAt | crates/rm-display-core/src/surface.rs:351-383 | a patch puts its samples row by row into its rectangle and changes nothing outside |
| TileSearch.SearchAll | crates/rm-display-core/src/surface.rs:448-487 | the full tile search returns the changed tiles in grid order |
| TileSearch.SearchRegions | crates/rm-display-core/src/surface.rs:489-552 | the restricted search returns the changed tiles among those its rectangles touch, in grid order |
| Tiles.TileDamageExact | crates/rm-display-core/src/surface.rs:448-487 | the damage is valid, disjoint, covers every differing pixel, and each of its tiles really differs |
| Tiles.RestrictedSearchIsFull | crates/rm-display-core/src/surface.rs:489-552 | when two surfaces agree outside the listed rectangles, the restricted search returns the very sequence of the full one |
| TileSearch.MergeDamage | crates/rm-display-core/src/scheduler.rs:921-961 | the grid marked from both lists and read back is the merged damage |
| Tiles.MergeIsTouchedTiles | crates/rm-display-core/src/scheduler.rs:921-961 | merged damage is disjoint grid tiles, and a tile is in it if and only if one of the inputs touches it |
| Tiles.MergeCovers | crates/rm-display-core/src/scheduler.rs:921-961 | a pixel is covered by merged damage if and only if its tile is touched, so both inputs are covered |
| Tiles.MergeCommutes | crates/rm-display-core/src/scheduler.rs:921-961 | merging does not depend on the order of its inputs |
| Tiles.MergeIdempotent | crates/rm-display-core/src/scheduler.rs:921-961 | merging merged damage with itself or with an input it already contains changes nothing |
| Tiles.DisjointArea | crates/rm-display-core/src/scheduler.rs:915-919 | the summed area of disjoint rectangles is the number of distinct covered pixels, never more than the panel |
| Tiles.MergeAreaCountsPixels | crates/rm-display-core/src/scheduler.rs:765-796 | the area compared with the large-damage threshold counts every covered pixel once |
| Refresh.DecideWaveform | crates/rm-display-core/src/refresh.rs:252-312 | a complete refresh always has a reason and a full-grayscale waveform, a partial one never uses the reserved waveform, and a forced one is complete |
| Waveforms.TickLogsRight | crates/rm-display-core/src/refresh.rs:252-312 | a tick logs nothing or one submission, complete on the listed grounds and no other, and otherwise driven by the configured waveform of its intent and content class |
| Waveforms.ContentChoosesWaveform | crates/rm-display-core/src/scheduler.rs:478-547 | the waveform of a partial update follows the content class the frame was committed with, whatever it superseded |
| Waveforms.OnlyOwnWaveform | crates/rm-display-core/src/refresh.rs:290-306 | edits of waveforms change neither whether, why nor where the panel is driven, and edits of those of other classes change nothing at all |
| Waveforms.PlaneLogsRight | crates/rm-display-core/src/scheduler.rs:416-440 | ink is driven with its own waveform and never completes, and a menu or overlay completes on the listed grounds and is otherwise driven as settled |
| Waveforms.PresetsOrdered | crates/rm-display-core/src/refresh.rs:80-170 | every preset is valid, from realtime to quality no waveform gets quicker, and photos and settled frames always get quality |
| Refresh.SwitchKeeps | crates/rm-display-core/src/refresh.rs:196-216 | a switch of the preset takes the new waveforms, keeps operator overrides and surface settings, and keeps a valid configuration valid |
| FastDebt.StaticCleanupComes | crates/rm-display-core/src/scheduler.rs:775-796 | after any run of latest frames on an accepting panel the next settled frame is a complete refresh once the logged fast updates since the last one reach the limit, and gives them as its reason exactly then |
| FastDebt.InkCounts | crates/rm-display-core/src/scheduler.rs:447-466 | ink at the fastest waveform is counted like a fast frame |
| Refresh.SwitchBackExact | crates/rm-display-core/src/refresh.rs:196-216 | switching to a preset and back restores the configuration if and only if no operator override coincides with the other preset value |
| Refresh.PeriodicDebtBound | crates/rm-display-core/src/refresh.rs:252-344 | with an interval n the partial-update debt never passes n |
| Refresh.PeriodicRunCleans | crates/rm-display-core/src/refresh.rs:252-344 | no n + 1 accepted submissions in a row are all partial |
| Refresh.RefreshPolicy.PresentedSubmissions | crates/rm-display-core/src/refresh.rs:318-326 | a complete refresh resets the debt, a partial one adds its physical updates, saturating |
| Refresh.RefreshPolicy.RestoreDebt | crates/rm-display-core/src/refresh.rs:339-344 | debt is installed if and only if it is consistent, and nothing changes otherwise |
| Refresh.RefreshPolicy.Reconfigure | crates/rm-display-core/src/refresh.rs:352-356 | only a valid configuration is taken, and the counters stay |
| Backend.PanelBackend.Pump | crates/rm-display-core/src/panel.rs:46-48 | the event pump may fail, and a failure may leave the glass in any state |
| Backend.PanelBackend.Submit | crates/rm-display-core/src/panel.rs:39-44 | an accepted submission shows the frame inside the damage and drives those pixels with its waveform; a refused one may leave the glass in any state |
| Buffers.BufferSet.ComposeInto | crates/rm-display-core/src/scheduler.rs:344-351 | recomposing rectangles of the working buffer paints exactly the composed picture into them |
| Buffers.BufferSet.BlendInto | crates/rm-display-core/src/scheduler.rs:396-399 | the copy-and-blend path paints the same picture |
| Buffers.BufferSet.SwapBuffers | crates/rm-display-core/src/scheduler.rs:834-872 | the buffers change roles and the new working buffer catches up on the damage |
| DisplayCore.DisplayCore.constructor | crates/rm-display-core/src/scheduler.rs:157-194 | a new core is blank, without base, pending frame or debt |
| DisplayCore.DisplayCore.MarkPanelFailure | crates/rm-display-core/src/scheduler.rs:897-904 | a failure loses the base, forgets the fast debt and leaves the panel uncertain |
| DisplayCore.DisplayCore.CancelPending | crates/rm-display-core/src/scheduler.rs:552-561 | the pending frame, if any, is reported as cancelled once |
| DisplayCore.DisplayCore.FreezePresented | crates/rm-display-core/src/scheduler.rs:337-343 | the pending frame is cancelled and the base falls back to the presented one and loses validity |
| DisplayCore.DisplayCore.Commit | crates/rm-display-core/src/scheduler.rs:478-547 | a refused frame changes nothing and names the first reason; an accepted one is in the base and pending, and supersedes the previous one |
| DisplayCore.DisplayCore.PresentPending | crates/rm-display-core/src/scheduler.rs:736-895 | recompose, find damage, decide, submit, and either account for it or roll back |
| DisplayCore.DisplayCore.TickInner | crates/rm-display-core/src/scheduler.rs:701-895 | one tick of the core, with the pump in front and the deadline respected or ignored |
| DisplayCore.DisplayCore.TickInteractive | crates/rm-display-core/src/scheduler.rs:681-699 | an idle panel with enough partial updates behind it is cleaned once, otherwise frame deadlines apply |
| DisplayCore.DisplayCore.RequestCleanup | crates/rm-display-core/src/scheduler.rs:611-671 | a cleanup flushes the pending frame completely, waits for the first frame, or resubmits the presented picture; a failure keeps it armed |
| DisplayCore.DisplayCore.UpdateRefreshConfig | crates/rm-display-core/src/scheduler.rs:313-321 | a valid configuration replaces the old one without touching debt |
| DisplayCore.DisplayCore.ChangeRefreshProfile | crates/rm-display-core/src/scheduler.rs:580-609 | a changed profile, or an armed cleanup, goes through a complete refresh |
| DisplayCore.DisplayCore.Repaint | crates/rm-display-core/src/scheduler.rs:386-466 | a plane repaint recomposes its rectangles, submits what changed, and accounts for it |
| DisplayCore.DisplayCore.PresentPlane | crates/rm-display-core/src/scheduler.rs:377-467 | pending work is flushed first whatever its deadline, then the plane is repainted |
| DisplayCore.DisplayCore.RestoreRefreshDebt | crates/rm-display-core/src/scheduler.rs:271-274 | carried debt is installed if and only if it is consistent |
| DisplayCore.DisplayCore.InkStroke | crates/rm-display-core/src/scheduler.rs:334-336 | a stroke on the ink plane of the core |
| Composition.CommitSound | crates/rm-display-core/src/scheduler.rs:478-547 | a commit keeps both software buffers equal and the base equal to the presented base outside the pending damage |
| Composition.CommitInv | crates/rm-display-core/src/scheduler.rs:478-547 | a commit keeps the picture invariant: outside pending damage and unpresented strokes the software picture is the full recomposition |
| Composition.TickOutcome | crates/rm-display-core/src/scheduler.rs:701-895 | a tick does nothing, or fails its frame without touching picture and presented base, or shows it and records its base |
| Composition.TickInv | crates/rm-display-core/src/scheduler.rs:701-895 | a tick keeps the picture invariant, and after a presented frame nothing is owed any more |
| Composition.ForcedCompletes | crates/rm-display-core/src/scheduler.rs:765-796 | a forced cleanup is always decided as a complete refresh of the full panel |
| Composition.BuffersConverge | crates/rm-display-core/src/scheduler.rs:834-872 | after an accepted frame both software buffers hold exactly the submitted picture, because the damage missed no change |
| Composition.RepaintOutcome | crates/rm-display-core/src/scheduler.rs:386-466 | a plane repaint leaves both buffers equal and moves no frame identity |
| Composition.PresentPlaneInv | crates/rm-display-core/src/scheduler.rs:377-467 | presenting an overlay restores the picture invariant from any edited planes, and leaves exactly the recomposition |
| Composition.FreezeInv | crates/rm-display-core/src/scheduler.rs:337-343 | freezing leaves no pending frame and the presented base |
| Composition.CleanupInv | crates/rm-display-core/src/scheduler.rs:611-671 | a requested cleanup keeps the picture invariant and leaves nothing pending |
| Composition.ProfileInv | crates/rm-display-core/src/scheduler.rs:580-609 | a profile change keeps the picture invariant |
| Composition.StrokeInv | crates/rm-display-core/src/surface.rs:389-435 | an unpresented stroke makes the picture stale only inside the dirty rectangle |
| Composition.RunShowsComposition | crates/rm-display-core/src/scheduler.rs:377-467 | over every run of commits, ticks, cleanups, freezes, profile changes, overlay edits with presentation and strokes, the buffers are equal and a valid base is shown with exactly its full recomposition outside the pending damage |
| PanelSafety.RunKeepsPanelSafe | crates/rm-display-core/src/scheduler.rs:745-904 | over every run without plane presentation, every pixel last driven fast lies in the fast debt and the glass shows the software picture, unless a failed submission left the panel uncertain |
| PanelSafety.FullWhenUntrusted | crates/rm-display-core/src/scheduler.rs:745-813 | on an uncertain or never presented panel a frame is driven on every pixel |
| PanelSafety.SettledPresentationIsClean | crates/rm-display-core/src/scheduler.rs:745-872 | after every presented settled frame of such a run no pixel was last driven fast and the glass is the recomposition |
| Cadence.RunPaced | crates/rm-display-core/src/refresh.rs:252-344 | over every run the debt counter is the number of partial submissions since the last complete one, and never passes the interval |
| Cadence.TickKeepsPace | crates/rm-display-core/src/scheduler.rs:701-735 | a tick never resolves a latest frame within one frame interval of the last presentation, resolves it once that has passed, and resolves a settled frame at its deadline |
| Timing.TickWhenDue | crates/rm-display-core/src/scheduler.rs:563-577 | a tick resolves the pending frame if and only if it is due, and before that does nothing at all |
| Timing.CommittedWhenDue | crates/rm-display-core/src/scheduler.rs:535-577 | the clock of a frame starts when it is committed, also when it supersedes an earlier one |
| Timing.IntervalKeepsRate | crates/rm-display-core/src/scheduler.rs:162-184 | the frame interval is the shortest in whole microseconds that keeps the frame rate |
| Timing.IdleCleanupExactly | crates/rm-display-core/src/scheduler.rs:681-699 | an idle tick with nothing pending touches the panel if and only if the budget of screens and idle time of the profile is spent and no failure is younger than five seconds |
| Timing.CleanupTells | crates/rm-display-core/src/scheduler.rs:611-671 | a cleanup reports performed if and only if the panel accepted a complete refresh and owes nothing, and otherwise stays owed |
| Timing.ProfileFlushes | crates/rm-display-core/src/scheduler.rs:580-609 | a changed profile or an armed cleanup refreshes a panel that shows something under the new configuration, and the same profile again leaves the panel alone |
| Timing.FramesRecorded | crates/rm-display-core/src/scheduler.rs:280-290 | every partial submission of a frame is counted with its pixels and time, a complete one starts the count again, and nothing else moves it |
| Timing.PlanesRecorded | crates/rm-display-core/src/scheduler.rs:440-445 | so is every presentation of a plane |
| Glass.RunKeepsGlass | crates/rm-display-core/src/scheduler.rs:377-467 | over every run with overlays and ink, whatever the panel answers, a glass not left uncertain is the software picture, provided no plane is presented between a failed call and the next cleanup that succeeds or frame reported as presented; where the run ends in trust the glass shows it for certain |
| Glass.PlanIsSchedule | crates/rm-display-core/src/scheduler.rs:377-467 | planes planned on cleanups alone satisfy this whatever the run reports |
| Glass.InkRunKeepsPanelSafe | crates/rm-display-core/src/scheduler.rs:377-467 | with the fastest ink waveform the same runs without overlays also remember every fast-driven pixel |
| PlaneDebt.TrustedRepaint | crates/rm-display-core/src/scheduler.rs:431-458 | a plane repainted over a certain glass, or over all of it, leaves the glass equal to the software picture |
| PlaneDebt.RepaintTrustsTheGlass | crates/rm-display-core/src/scheduler.rs:447-450 | certainty after a plane repaint is right for every picture a failure may have left on the glass if and only if the glass was certain, or nothing or everything is driven |
| PlaneDebt.RepaintKeepsDebt | crates/rm-display-core/src/scheduler.rs:449-465 | a repaint under which the debt survives leaves every fast-driven pixel remembered |
| PlaneDebt.RepaintForgetsFastPixels | crates/rm-display-core/src/scheduler.rs:449-465 | over all drive histories the receiver cannot see, a repaint of ink or overlay forgets no fast-driven pixel if and only if nothing is submitted, the refresh is complete, the waveform is the fastest (over a known glass), or a slow one covers the whole debt |
| PlaneDebt.SlowInkForgets | crates/rm-display-core/src/scheduler.rs:451-465 | ink at another waveform than the fastest keeps the debt if and only if it is slow and draws over all of it |
| Cadence.PeriodicCleanupInRun | crates/rm-display-core/src/refresh.rs:252-344 | over every run of one surface, started with a carried debt of at most n, any n + 1 consecutive accepted submissions contain a complete refresh |
| SessionCadence.SessionPaced | crates/rm-display-receiver/src/session.rs:1184-1209 | over every session run the debt counter goes on counting the partial submissions since the last complete one from surface to surface |
| SessionCadence.PeriodicCleanupInSession | crates/rm-display-receiver/src/session.rs:1184-1209 | over every session, surfaces opened, replaced and closed, any n + 1 consecutive accepted submissions on the panel contain a complete refresh |
| Cadence.IdleCleanupIsEarned | crates/rm-display-core/src/scheduler.rs:292-311 | in every run an idle tick touches the panel only after as many partial submissions in a row as the budget of the profile |
| Cadence.IdlePanelIsCleanedOnce | crates/rm-display-core/src/scheduler.rs:681-699 | after an idle cleanup no later tick touches an idle panel, and after a failed one none does for five seconds |
| Findings.ClearedInkIsNotRepainted | crates/rm-display-receiver/src/session.rs:257-270 | clearing the ink and presenting it does no more than completing the pending frame |
| Findings.ClearedInkStaysVisible | crates/rm-display-receiver/src/session.rs:257-270 | from every state that shows its picture, the picture is right after clear_ink if and only if every visible ink pixel lies in what the pending frame recomposes |
| Findings.ClearedInkExample | crates/rm-display-core/src/surface.rs:345-349 | a one-pixel panel on which the cleared stroke stays visible |
| SessionInk.SessionDrawn | crates/rm-display-receiver/src/session.rs:374-501 | over every session run, between events no stroke waits to be presented |
| SessionInk.SessionClearsInk | crates/rm-display-receiver/src/session.rs:257-270 | after every session run that shows its picture, it is right after clear_ink if and only if no ink can be seen outside what the pending frame recomposes, or the base is lost |
| Findings.ShownBaseIsAcknowledged | crates/rm-display-core/src/scheduler.rs:357-392 | after presenting an overlay the shown base is the acknowledged one if and only if the panel accepts the pending frame or both were equal before |
| Findings.QuietBaseIsAcknowledged | crates/rm-display-core/src/scheduler.rs:357-392 | so it is on every valid base with nothing pending |
| Findings.UnacknowledgedBaseExample | crates/rm-display-core/src/scheduler.rs:357-392 | a one-pixel panel that shows a frame whose result was a backend failure |
| Findings.OverlayForgetsExample | crates/rm-display-core/src/scheduler.rs:449-465 | two pixels on which an overlay beside a fast-driven pixel makes the receiver forget it |
| Findings.InkForgetsExample | crates/rm-display-core/src/scheduler.rs:449-465 | the same for a stroke at the fast or quality waveform |
| Findings.UncertainGlassExample | crates/rm-display-core/src/scheduler.rs:447-450 | a failed cleanup and then a stroke after which the receiver believes in a picture the glass does not show |
| Semantic.ValidateAndDecode | crates/rm-display-protocol/src/semantic.rs:70-156 | what the validator answers, which Semantic.AcceptedExactly says without its loop |
| Semantic.AcceptedExactly | crates/rm-display-protocol/src/semantic.rs:69-145 | a frame is accepted if and only if its identities, base and intent are right, its regions legal, disjoint and unharmed with matching lengths and checksums, both byte sums within the limit, and a keyframe is one full region; and then it is read as sent |
| Semantic.RawChecked | crates/rm-display-protocol/src/semantic.rs:99-145 | a raw frame of legal disjoint regions within the limit is accepted if and only if every checksum matches and a keyframe is one full region, and any mismatch is answered as a bad checksum |
| Semantic.BaseDecides | crates/rm-display-protocol/src/semantic.rs:69-97 | of a delta with nothing else wrong only the base is left to decide |
| Semantic.AcceptedFrameApplies | crates/rm-display-protocol/src/semantic.rs:70-156 | whatever the validator accepts has a fresh identity, the right base, legal disjoint regions, a full region when it is a keyframe, and fits the byte limit |
| Semantic.CommitOnlyRefusesBase | crates/rm-display-receiver/src/session.rs:1751-1783 | after validation a commit can only fail for the settled barrier or a lost base; the catch-all error arm of the session is unreachable |
| Semantic.ScanRaw | crates/rm-display-protocol/src/semantic.rs:70-156 | raw regions of legal shape are read back exactly if and only if they fit the byte limit |
| Semantic.RawFits | crates/rm-display-protocol/src/semantic.rs:70-156 | disjoint regions never carry more pixels than the panel has |
| Semantic.RawFrameAccepted | crates/rm-display-protocol/src/semantic.rs:70-156 | a raw frame with a good header is accepted if and only if it fits the byte limit and, as a keyframe, is one full region; and then it decodes to what was encoded |
| Semantic.ApplyValidated | crates/rm-display-protocol/src/semantic.rs:158-174 | the producer-side writer gives the same surface as the receiver |
| Delta.FindRects | crates/rm-display-cli/src/client.rs:1144-1185 | the grown rectangles are disjoint and cover exactly the changed tiles |
| Delta.HullContains | crates/rm-display-cli/src/client.rs:1186-1197 | the bounding box is valid and covers every rectangle |
| Delta.HullEdges | crates/rm-display-cli/src/client.rs:1186-1197 | the bounding box is tight: each of its edges is an edge of some rectangle |
| Delta.ChooseRects | crates/rm-display-cli/src/client.rs:1144-1205 | the rectangles are valid, disjoint, at least one, at most the limit, cover every change, and are the changed tiles, their bounding box, or one placeholder pixel |
| Delta.ExtractRegion | crates/rm-display-cli/src/client.rs:1215-1222 | the copied rows are the pixels of the rectangle |
| Delta.EncodeDelta | crates/rm-display-cli/src/client.rs:1136-1213 | the encoder yields a delta of at most the limit whose application to the previous image gives the current one |
| Delta.DeltaRoundTrip | crates/rm-display-cli/src/client.rs:1136-1222 | every delta passes the receiver validation of regions, and applying it to the previous image gives exactly the current image |
| Client.ProducerClient.constructor | crates/rm-display-cli/src/client.rs:526-539 | the books of a surface that has just become ready |
| Client.ProducerClient.ApplyFrameResult | crates/rm-display-cli/src/client.rs:902-949 | a result is refused and changes nothing when it grants too much or names no unresolved frame; otherwise credits, base and recovery wish follow it |
| Client.ProducerClient.SettlePending | crates/rm-display-cli/src/client.rs:878-900 | results are taken in until every frame has one, and all reports are kept in order |
| Client.ProducerClient.WaitForReport | crates/rm-display-cli/src/client.rs:959-984 | the awaited report is returned and every other one kept in order |
| Client.ProducerClient.Attempt | crates/rm-display-cli/src/client.rs:752-862 | one synchronous attempt: checked against both credits, sent, and answered |
| Client.ProducerClient.SendSettled | crates/rm-display-cli/src/client.rs:739-864 | at most two frames go out, the second only as a keyframe; a report is returned only for a clean or ink-frozen result of the last one; the call is a sequence of protocol steps |
| Client.ProducerClient.SendFrame | crates/rm-display-cli/src/client.rs:729-864 | a synchronous call is the protocol step that starts it followed by the steps that take in exactly the results used |
| Client.ProducerClient.AwaitRoom | crates/rm-display-cli/src/client.rs:655-671 | waiting for room takes in results in order and ends with room, a lost base, no credit at all, or a broken connection |
| Client.ProducerClient.Speculate | crates/rm-display-cli/src/client.rs:672-704 | a queued delta names the latest frame as its base, and the oldest report on hand is handed back |
| Client.ProducerClient.QueueDelta | crates/rm-display-cli/src/client.rs:626-705 | a speculative call is a sequence of protocol steps that begins with the delta against the given previous image |
| Session.Session.RejectEarly | crates/rm-display-receiver/src/session.rs:1678-1730 | the checks before validation, in order: frozen, encoding, frame credit, byte credit, surface |
| Session.Session.CommitFrame | crates/rm-display-receiver/src/session.rs:1751-1789 | the result of a commit, or of the frame it superseded, with the answers of Results.BaseAsksKeyframe |
| Session.Session.AcceptFrame | crates/rm-display-receiver/src/session.rs:1678-1790 | one arriving frame is answered or accepted exactly as specified, on the buffers, and Results.BaseAsksKeyframe says which |
| Session.Session.Report | crates/rm-display-receiver/src/session.rs:1792-1832 | terminals of the core become results with the credits and identities of the moment |
| Session.Session.SetLocalInk | crates/rm-display-receiver/src/session.rs:224-239 | switching local ink needs a pen and a surface, and only rearms |
| Session.Session.SetInkPaused | crates/rm-display-receiver/src/session.rs:243-253 | pausing only rearms |
| Session.Session.SetFrozen | crates/rm-display-receiver/src/session.rs:275-310 | freezing needs a presented frame, cancels the pending one, and falls back to the presented base; releasing only lifts the barrier; a refused call changes nothing |
| Session.Session.Poll | crates/rm-display-receiver/src/session.rs:712-737 | one poll ticks the core and remembers its debt |
| Session.Session.RequestCleanup | crates/rm-display-receiver/src/session.rs:314-338 | a cleanup request is carried out, or armed while there is no surface |
| Session.Session.SetProfile | crates/rm-display-receiver/src/session.rs:1416-1441 | a negotiated profile change flushes through the core, or arms a cleanup while there is no surface |
| Session.Session.UpdateRefresh | crates/rm-display-receiver/src/session.rs:1568-1577 | refresh parameters reach the core without touching debt |
| Session.Session.RenderMenu | crates/rm-display-receiver/src/session.rs:953-975 | the menu plane is replaced and presented |
| Session.Session.ClearInk | crates/rm-display-receiver/src/session.rs:257-270 | the ink plane is cleared and presented |
| Session.Session.UpdateOverlay | crates/rm-display-receiver/src/session.rs:504-598 | an overlay command is checked, applied to the planes and flags, and presented |
| Session.Session.InkRecord | crates/rm-display-receiver/src/session.rs:427-470 | one pen record: gated, perhaps freezing the background, perhaps drawing |
| Session.Session.PenReport | crates/rm-display-receiver/src/session.rs:374-501 | all reports of a call in order, ignored ones rearming and records without a contact dropped, then one ink presentation |
| Session.Session.OpenSurface | crates/rm-display-receiver/src/session.rs:1168-1260 | a surface replaces the old one with its debt and armed cleanup carried over and the old pending frame cancelled |
| Session.Session.CloseSurface | crates/rm-display-receiver/src/session.rs:1262-1290 | only the named surface is closed; its pending frame is cancelled and its debt remembered |
| Results.TickSettles | crates/rm-display-core/src/scheduler.rs:701-895 | a tick resolves at most the pending frame, revives no base and leaves a frozen core alone |
| Results.FrameKept | crates/rm-display-receiver/src/session.rs:1678-1790 | an arriving frame is answered at once or becomes the one frame owed a result, and the frame it supersedes is answered |
| Results.OpenKept | crates/rm-display-receiver/src/session.rs:1168-1260 | opening a surface never fails on the carried debt, answers the cancelled frame, and starts without a base |
| Results.HandleKept | crates/rm-display-receiver/src/session.rs:651-737 | every event of a session keeps its invariant and answers exactly what is no longer owed |
| Answers.CreditsCount | crates/rm-display-receiver/src/session.rs:1918-1940 | credit is whole while nothing is pending, and an accepted frame takes one credit and the bytes it declared |
| Answers.NoCreditExactly | crates/rm-display-receiver/src/session.rs:1701-1722 | want of credit is the answer if and only if the frame is one too many or carries more bytes than are left |
| Answers.HeaderFaults | crates/rm-display-receiver/src/session.rs:1731-1762 | a frame with a fault in its header is refused with the first fault and changes nothing |
| Answers.HarmedIsRefused | crates/rm-display-receiver/src/session.rs:1731-1762 | a raw frame whose pixels were harmed on the way is refused for its checksum |
| Answers.PollDrivesContent | crates/rm-display-receiver/src/session.rs:1751-1789 | the update that shows an accepted frame is driven as configured for the content class the producer named |
| Answers.PollAnswers | crates/rm-display-receiver/src/session.rs:1792-1832 | a poll answers nothing or the pending frame, as presented and then it is the one shown, or as failed and then the base is gone |
| Answers.FreezeAnswers | crates/rm-display-receiver/src/session.rs:275-310 | freezing answers the pending frame as frozen |
| Answers.OpenAnswers | crates/rm-display-receiver/src/session.rs:1168-1260 | replacing a surface answers its pending frame as withdrawn, with all credit back |
| Answers.GenerationsDiffer | crates/rm-display-receiver/src/session.rs:1182-1183 | a surface never has the generation of the one it replaces |
| Answers.CleanupMovesOver | crates/rm-display-receiver/src/session.rs:1168-1209 | a cleanup armed without a surface or owed by the old one is owed by the next, with the debt |
| Answers.OpenedBlank | crates/rm-display-receiver/src/session.rs:1168-1260 | a new surface shows nothing, draws nothing before it is told to, and hears no input from before it was there |
| Answers.ClosesNamed | crates/rm-display-receiver/src/session.rs:1262-1290 | only the surface named by both of its names is closed |
| Answers.FreezeNeedsPicture | crates/rm-display-receiver/src/session.rs:275-310 | freezing is refused if and only if nothing was presented, and rearms the pen |
| Answers.SettingsMoveOver | crates/rm-display-receiver/src/session.rs:1416-1441 | a profile or refresh setting is remembered for the next surface, and a changed profile without a surface is owed a cleanup |
| Answers.PollCleans | crates/rm-display-receiver/src/session.rs:712-737 | a poll with nothing pending touches the panel if and only if cleanups are automatic and this one is earned |
| Answers.OverlayOnce | crates/rm-display-receiver/src/session.rs:518-521 | an overlay command is applied at most once: after it, whatever else happened, the same or an older one changes nothing |
| Answers.OverlayRefusedExactly | crates/rm-display-receiver/src/session.rs:504-560 | a command is refused, with only its number used up, if and only if it is for another surface, not new, too long, does not fit or asks for nothing |
| Answers.OverlayApplied | crates/rm-display-receiver/src/session.rs:545-598 | an acceptable overlay command leaves its patch in place on a cleared or kept overlay, and clears ink, switches the pen and lifts the freeze exactly as told |
| PenInk.NoContactNoInk | crates/rm-display-receiver/src/session.rs:374-470 | on a surface that is shut to drawing, and before a contact begins, no records draw, freeze or cancel anything |
| PenInk.ContactDraws | crates/rm-display-receiver/src/session.rs:427-501 | a contact that begins on an open surface draws the line through all of its points and nothing else, and freezes the background at its start if wanted |
| PenInk.ContactEnds | crates/rm-display-receiver/src/session.rs:374-470 | the end of a contact, or an ignored report, ends its line |
| PenInk.UnheardDrawsNothing | crates/rm-display-receiver/src/session.rs:374-501 | a call of the pen from before the surface, under a menu, or that nobody wants leaves ink and barrier alone, and what follows it has to begin a new contact |
| PenInk.ContactReported | crates/rm-display-receiver/src/session.rs:374-501 | a call that is heard with the records of one contact, however split into reports, draws the line through its points |
| Results.OneResultPerFrame | crates/rm-display-receiver/src/session.rs:651-737 | over every run that does not fail, the results sent and the frame still pending are exactly the frames received and the one pending at the start |
| Results.StaysFrozen | crates/rm-display-receiver/src/session.rs:275-310 | only a release, or the end of the surface, lifts the barrier |
| Results.FrozenMeansFrozen | crates/rm-display-receiver/src/session.rs:275-310 | over every run without a release no frame is pending, the base is the presented base, and neither it nor the presented identity moves |
| Results.LostBaseRefuses | crates/rm-display-core/src/scheduler.rs:496-498 | on a lost base every frame that is not a keyframe is refused and changes nothing |
| Results.BaseAsksKeyframe | crates/rm-display-receiver/src/session.rs:1763-1769 | a delta with nothing else wrong is answered by asking for a keyframe, with nothing changed, if and only if the base is lost or another one, and otherwise is taken unless a settled frame is pending |
| Results.OnlyBaseAsksKeyframe | crates/rm-display-receiver/src/session.rs:1751-1789 | whatever frame arrives, no other fault is answered that way |
| Results.RevivalNeedsKeyframe | crates/rm-display-core/src/scheduler.rs:496-498 | over every run, a lost base comes back only with a keyframe among the frames received |
| Link.TakenStable | crates/rm-display-cli/src/client.rs:902-935 | a result either asks the producer for a keyframe or leaves its latest frame where it was, so a prepared delta stays good |
| Link.ResultExpected | crates/rm-display-cli/src/client.rs:902-914 | no result of this receiver is ever unexpected |
| Link.QueuedInv | crates/rm-display-cli/src/client.rs:672-704 | a queued delta leads from the latest frame to its own image whatever results came in while it waited |
| Link.TransmittedInv | crates/rm-display-cli/src/client.rs:751-834 | a synchronous frame, delta, whole or keyframe, leads to its own image and travels alone |
| Link.AcceptedFaithful | crates/rm-display-receiver/src/session.rs:1731-1783 | an accepted delta is applied to the very image it was made against, so the new base is the encoded image |
| Link.RoomOnArrival | crates/rm-display-receiver/src/session.rs:1701-1707 | an arriving frame always finds frame credit and no settled barrier |
| Link.BaseFidelity | crates/rm-display-receiver/src/session.rs:1678-1790 | in every interleaving of sends, deliveries, local events, failures, freezes and recoveries, a valid base is exactly the image the producer encoded for the frame it names, and no delta is applied to another base |
| Link.FlowControl | crates/rm-display-cli/src/client.rs:747-934 | in every run at most min(2, max_inflight) frames have no result, each is in exactly one place, a settled frame is alone, and no frame is refused for frame credit or the barrier |
| Link.ChainAccepted | crates/rm-display-receiver/src/session.rs:1678-1790 | with byte credits off and the base not lost, the next frame of the chain is accepted |
| Link.SpeculationHolds | crates/rm-display-cli/src/client.rs:626-705 | with byte credits off, a panel that accepts and no event that freezes, after every run the next arriving frame is accepted and a delta names the frame the receiver holds |
| Recovery.LostBaseRecovers | crates/rm-display-cli/src/client.rs:747-864 | on an accepting panel without freeze a synchronous delta that arrives on a lost base leads, whatever local events come between, through its refusal, the answer, the whole image as a keyframe and its acceptance to a base that is the image of the call, and none of these steps can get stuck |
| Recovery.KeyframeTaken | crates/rm-display-receiver/src/session.rs:1678-1790 | a keyframe that arrives alone while nothing is frozen is taken, whatever the base was |
| Recovery.FirstFrameIsKeyframe | crates/rm-display-cli/src/client.rs:915-934 | after a refusal the first frame the producer sends, whatever results and calls come before it, is a keyframe |
| Recovery.CallIsBounded | crates/rm-display-cli/src/client.rs:747-864 | a call sends at most two frames whatever it is answered, and the second is a keyframe |
| Recovery.CallEnds | crates/rm-display-cli/src/client.rs:836-864 | an answer ends the call unless it asks for a keyframe in place of a delta, and then the same image is sent whole |
| Recovery.SyncSendsDelta | crates/rm-display-cli/src/client.rs:747-834 | a synchronous call sends the whole image as a keyframe if and only if the receiver holds nothing or asked for it, and otherwise what leads from the given image to the new one on the base the receiver holds |
| Recovery.QueuedGoesOut | crates/rm-display-cli/src/client.rs:651-704 | a prepared delta goes out if and only if fewer than two frames have no result and there is frame and byte credit for it |
| SessionReliability.HandleSteady | crates/rm-display-receiver/src/session.rs:651-737 | on a panel that accepts, every event keeps the glass certain, and without a freeze the base valid |
| Link.OpenedIsFresh | crates/rm-display-receiver/src/session.rs:1168-1260 | whatever happened before, an opened surface and a new producer account start the link afresh, so these theorems hold on every surface |
| SessionPicture.HandleShown | crates/rm-display-receiver/src/session.rs:651-737 | every message and local event, surface replacement included, keeps the picture of the active surface current |
| SessionPicture.SessionShowsComposition | crates/rm-display-receiver/src/session.rs:651-737 | over every session run in which ink clearings are followed by a menu, a freeze or a new surface, the active surface shows the recomposition of its valid base outside the pending damage |
| SessionGlass.SessionKeepsGlass | crates/rm-display-receiver/src/session.rs:651-737 | over every session run, surface replacement included, the glass is the software picture unless a failure left it uncertain, and for certain where the run ends in trust, under the same schedule; without overlays and with the fastest ink the fast debt is remembered too |
| SessionGlass.PresentedIsCertain | crates/rm-display-receiver/src/session.rs:651-737 | on a panel that accepts, a frame whose result says presented leaves the glass certain |
| TouchParser.MapAxis | crates/rm-display-receiver/src/evdev.rs:585-620 | a raw position lands on the panel, and everything at or beyond the ends of the device axis on its edges, mirrored if inverted |
| TouchParser.MapAxisScales | crates/rm-display-receiver/src/evdev.rs:585-620 | between the ends a position is scaled to the whole pixel below it, and an inverted axis counts from the other edge |
| TouchParser.MoveIsReported | crates/rm-display-receiver/src/evdev.rs:490-583 | a held contact given a position in either order is reported there, each coordinate on its own axis |
| TouchParser.DownIsReported | crates/rm-display-receiver/src/evdev.rs:470-583 | a new contact goes down where its first position says |
| TouchParser.EndIsReported | crates/rm-display-receiver/src/evdev.rs:518-583 | a contact that leaves is lifted where it was last, and one that was placed when events were lost is cancelled there |
| TouchParser.Usable | crates/rm-display-receiver/src/evdev.rs:426-452 | a reported axis is repaired only if it is empty |
| TouchParser.TypeBParser.PushEvent | crates/rm-display-receiver/src/evdev.rs:455-516 | one kernel event changes the slots, the current slot and the identities as specified, and reports at the end of a report |
| TouchParser.TypeBParser.FinishReport | crates/rm-display-receiver/src/evdev.rs:518-583 | a report in slot order; after lost events a cancellation of every placed contact and empty slots |
| TouchParser.ReportLegal | crates/rm-display-receiver/src/evdev.rs:543-583 | every ordinary report continues each contact legally, and keeps the slots in step with what was announced |
| TouchParser.DroppedLegal | crates/rm-display-receiver/src/evdev.rs:519-541 | the report after lost events is legal if and only if no contact is cancelled before it was announced |
| TouchParser.PushSound | crates/rm-display-receiver/src/evdev.rs:455-583 | every event keeps identities distinct, new and in step with what was announced; it reports illegally exactly when it ends lost events over an unannounced contact |
| TouchParser.StreamLegal | crates/rm-display-receiver/src/evdev.rs:455-583 | over every run of kernel events the stream of reports is legal if and only if events were never lost over an unannounced contact |
| TouchParser.KernelToProducer | crates/rm-display-receiver/src/session.rs:748-832 | from kernel events through parser, recognizer, early-input gate and menu the producer sees each contact go down, move, and end at most once |
| TouchParser.CancelBeforeDown | crates/rm-display-receiver/src/evdev.rs:519-541 | five kernel events after which the parser cancels a contact it never announced |
| TouchParser.EventLoses | crates/rm-display-receiver/src/evdev.rs:455-583 | one event makes an announced contact stay open in no slot if and only if it is an ordinary report of a tap, or a new identity in a slot that holds an announced contact |
| TouchParser.EventKeepsHeld | crates/rm-display-receiver/src/evdev.rs:455-583 | so one event leaves the open contacts and the held ones the same if and only if they were and it loses none |
| TouchParser.RunKeepsHeld | crates/rm-display-receiver/src/evdev.rs:455-583 | over every run the contacts open at the end are those the parser holds if and only if they were at the start and no event lost one |
| TouchParser.LostForGood | crates/rm-display-receiver/src/evdev.rs:455-583 | over every later run of events no report mentions a lost contact again, and it stays open |
| TouchParser.TapIsNeverLifted | crates/rm-display-receiver/src/evdev.rs:455-583 | a contact that went down and up within one report is announced, and over every later run of events no report mentions it again |
| TouchParser.TapExample | crates/rm-display-receiver/src/evdev.rs:555-581 | five kernel events, a tap, after which one contact is down for good |
| TouchParser.ReplacedExample | crates/rm-display-receiver/src/evdev.rs:480-488 | five kernel events without a tap, the last giving a slot a new identity, after which the contact it held is down for good |
| Gesture.FiveFingerCleanupGesture.SurfaceTransition | crates/rm-display-receiver/src/evdev.rs:307-321 | all forwarded contacts are cancelled and held ones suppressed |
| Gesture.FiveFingerCleanupGesture.ProcessReport | crates/rm-display-receiver/src/evdev.rs:323-394 | one report: suppressed, recognised as the chord, swallowed, or forwarded |
| Gesture.StepLegal | crates/rm-display-receiver/src/evdev.rs:307-394 | each step continues every contact the producer sees legally, and the contacts it still sees are the forwarded ones |
| Gesture.TraceLegal | crates/rm-display-receiver/src/evdev.rs:307-394 | over every mix of reports, early reports, menu input and surface changes each contact the producer sees goes down, moves, and is lifted or cancelled once |
| Gesture.ChordCancels | crates/rm-display-receiver/src/evdev.rs:347-375 | reaching five contacts cancels every forwarded contact exactly once, at its latest position, and asks for at most one cleanup |
| Gesture.PlainTouchPasses | crates/rm-display-receiver/src/evdev.rs:323-394 | as long as fewer than five contacts are down the producer sees every event as it was, in order, and no cleanup |
| Gesture.SuppressedUntilClear | crates/rm-display-receiver/src/evdev.rs:340-346 | after the chord nothing is forwarded and no cleanup requested until all contacts have left |
| Capture.InputCapture.PushReport | crates/rm-display-receiver/src/input_capture.rs:60-75 | a report is queued, refused after the stop, or turned into one fault entry when the queue is full |
| Capture.InputCapture.Drain | crates/rm-display-receiver/src/input_capture.rs:76-82 | a drain takes everything |
| Capture.InputCapture.Round | crates/rm-display-receiver/src/input_capture.rs:111-145 | one round reads both devices, orders by time, and pushes what is due, or ends on a refusal or an exhausted buffer |
| Capture.RoundOrders | crates/rm-display-receiver/src/input_capture.rs:133-145 | a round emits exactly what is due, in order, and keeps the rest |
| Capture.CapturedInOrder | crates/rm-display-receiver/src/input_capture.rs:60-145 | in every interleaving of rounds, pushes, device failures, drains and stops, drained and queued reports are a prefix of the due ones, in nondecreasing time, with at most one fault, at the end and never while the reader runs; nothing is lost while it runs, and the queue stays within its bound |
| Capture.PushesAreRound | crates/rm-display-receiver/src/input_capture.rs:111-145 | a round without interruption is its read followed by one push per due report |
| Capture.QueueLossless | crates/rm-display-receiver/src/input_capture.rs:60-82 | over every run drains and queue together are the accepted reports in order, the queue holds at most one entry above its capacity, and a fault is the last entry |
| Quill.CheapestPair | crates/rm-display-receiver/src/quill.rs:309-323 | the first pair of neighbours whose union adds the fewest pixels |
| Quill.JoinFree | crates/rm-display-receiver/src/quill.rs:287-305 | joining for free loses no rectangle and no pixels are added |
| Quill.ClusterDamage | crates/rm-display-receiver/src/quill.rs:287-328 | at most the limit of valid rectangles that together cover all of the damage |
| Quill.ChooseSubmission | crates/rm-display-receiver/src/quill.rs:163-185 | what is submitted covers all of the damage, stays on the panel, never costs more pixels than the bounding box, and is the clusters if and only if they save more than 8192 pixels each |
| NativePixels.BranchesAgree | crates/rm-display-receiver/src/native_pixels.rs:76-137 | all conversion branches, plain copies included, give the native bytes of the colour of the pixel |
| NativePixels.ColourSurvives | crates/rm-display-receiver/src/native_pixels.rs:144-172 | 32-bit formats keep the colour of every pixel, and the other formats that of their own kind |
| NativePixels.LumaNearest | crates/rm-display-receiver/src/native_pixels.rs:161-164 | the luma of a colour is its weighted sum of channels, rounded to the nearest level |
| NativePixels.UpdateShows | crates/rm-display-receiver/src/native_pixels.rs:36-142 | a framebuffer that showed one image shows another after the update if and only if their native bytes agree outside the damage |
| NativePixels.WriterRefinesGlass | crates/rm-display-receiver/src/native_pixels.rs:36-142 | writing damage follows the painting of damage on the abstract glass of the display core |
| NativePixels.WrittenAgain | crates/rm-display-receiver/src/native_pixels.rs:72-140 | writing two lists one after the other is writing both at once |
| NativePixels.WriteRow | crates/rm-display-receiver/src/native_pixels.rs:74-138 | the pixels of one row run hold the bytes of the source picture and no other byte changes, padding included |
| NativePixels.WriteDamage | crates/rm-display-receiver/src/native_pixels.rs:36-142 | the argument checks in order; every valid rectangle before the first invalid one is written, and nothing else |
| Wire.WireCodec.Encode | crates/rm-display-protocol/src/wire.rs:48-64 | an envelope within the limit is appended as one frame, and a larger one leaves the buffer alone |
| Wire.WireCodec.Decode | crates/rm-display-protocol/src/wire.rs:66-86 | one envelope is taken from the front, or an error is reported, or no byte is consumed |
| Wire.TakenExactly | crates/rm-display-protocol/src/wire.rs:66-86 | one whole frame within the limit at the front is taken, or found malformed, and the rest is left |
| Wire.GotIsFrame | crates/rm-display-protocol/src/wire.rs:66-86 | every envelope taken was one whole frame at the front, not above the limit |
| Wire.TooLargeIsRefused | crates/rm-display-protocol/src/wire.rs:73-79 | a length above the limit is refused as soon as its header is there, with nothing consumed |
| Wire.DecodeExtends | crates/rm-display-protocol/src/wire.rs:66-86 | bytes that arrive later never change what was decoded already |
| Wire.ChunkingIndependent | crates/rm-display-protocol/src/wire.rs:66-86 | cutting any byte stream anywhere yields the same envelopes, the same error and the same remainder |
| Wire.StreamRoundTrip | crates/rm-display-protocol/src/wire.rs:48-86 | envelopes within the limit, encoded, joined and cut into arbitrary chunks, come back exactly and in order |

## Left out

- PanelSafety.RunKeepsPanelSafe: runs with overlay or ink presentation are excluded, because the code may forget fast-driven pixels there; `PlaneDebt.RepaintForgetsFastPixels` gives the exact condition, and `Glass.InkRunKeepsPanelSafe` covers ink at the fastest waveform.
- Composition.RunShowsComposition: runs with `clear_ink` are excluded, because the code does not repaint; `Findings.ClearedInkStaysVisible` gives the exact condition.
- Link.FlowControl: says nothing about byte credits, whose absolute values each result overwrites while another frame may be in flight.
- Link.SpeculationHolds: speaks of an accepting panel without freeze and byte credits; otherwise `Link.BaseFidelity` still holds and recovery goes through keyframes.
- Recovery.LostBaseRecovers: speaks of an accepting panel without freeze and of credit for one whole image, without which the call of the source fails too.
- FastDebt.StaticCleanupComes: speaks of runs of latest frames with one physical update each; planes and settled frames reset the count.
- SessionCadence.PeriodicCleanupInSession: speaks of one physical update per accepted submission, one fixed interval and no local ink, as the bound is meant.
- Gesture.TraceLegal: speaks of what the recognizer emits; where a surface is opened or closed the session drops the cancellations it returns, since their surface is gone.
- TouchParser.KernelToProducer: has a condition, because a report after lost events may cancel a contact that was never announced; `TouchParser.StreamLegal` shows that it is exact for the parser. It does not promise a lift for every contact: a tap within one report, or a new identity in a slot whose contact was not lifted, loses one for good; `TouchParser.RunKeepsHeld` shows that nothing else does.
- Glass.RunKeepsGlass: excludes presenting a plane between a failed call and the next successful cleanup or presented frame, because the code takes such a repaint for certainty; `PlaneDebt.RepaintTrustsTheGlass` gives the exact condition of one repaint.
- SessionPicture.SessionShowsComposition: an ink clearing must have been followed by an event that repaints all planes or has no base to show.
- Client.ProducerClient.QueueDelta: `flush_frame_reports`, `wait_for_frame_credit_report` and `pump_once` are not modelled; they only apply results in the way modelled here.
- Bytes of surfaces: in a surface a pixel is one value, so the two bytes of RGB565 and row strides appear only in the framebuffer writer (`NativePixels`).
- Integer widths: identities, sequence numbers, generations beyond their wrap to one, and pixel counts are unbounded; the saturating counters of the refresh policy are modelled.
- Compressed regions of the producer: its frames are raw, and the receiver side of compression is an arbitrary function.
- Metrics, timestamps of frames, statistics and log text: they do not influence any state.
- Hello negotiation, the result codes of profile, refresh and overlay requests, and the pointer and pen batches the session sends: long tables without state of their own.
- The local menu: its plane is an arbitrary one; drawing, glyphs, hit testing and the fallback picture are not modelled.
- Input devices: kernel event decoding, device discovery, the pen, and the reset of touch parser and recognizer after a capture failure are not modelled; contact identities do not wrap.
- The foreign calls of the driver and their choice of waveform mode.
- Locks, atomics, sockets, event descriptors, poll loops and TLS.
