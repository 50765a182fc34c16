# Drawing trail and firework engine — a Dafny model

This project models the `DrawingManager` of `firebase-web-hosting/scripts/drawing.js`. The
manager draws a fading trail behind the mouse on a full-page canvas, and a particle burst
where the user double-clicks.

The model keeps the manager's own state and steps, and leaves out the DOM and the canvas:

- **Pointer handlers.** `mousedown` starts a stroke. `mousemove` drops samples closer than
  `minDistance` to the stroke's last point. It pushes every other sample into a five-entry
  FIFO window (`pointsBuffer`) and appends the window's mean to the stroke. `mouseup` and
  `mouseleave` stop drawing and clear the window.
- **Path store.** Each frame, `drawPaths` evicts every path whose last point is at least
  `fadeTimeout + fadeDuration` old.
- **Curve renderer.** For each remaining path with at least two points, the renderer
  produces one canvas path. It has a `moveTo` the first point, then one quadratic curve
  for each visible point among indices 1 .. n − 3, in index order. Then, when the path
  has more than two points, it has a closing curve controlled by point n − 2 and ending on
  point n − 1. That curve is drawn on from where the last drawn curve ended, or from point 0
  if no loop curve was drawn. So point n − 2 never gets a midpoint curve of its own: a
  three-point path is one curve from point 0, controlled by point 1, ending on point 2. The
  model returns these as values instead of making canvas calls.
- **Particles.** `createFirework` appends a burst of 100 particles. `updateParticles`
  advances each one physics step and drops the dead. `drawParticles` fills one disc per
  particle.
- **Frame.** `animate` runs one frame: paths, then particles.

The modules follow the components:

- `Points` (points.dfy): points, the window mean, the squared-distance test.
- `Hex` (hex.dfy): the `toString(16)` / `padStart(2, '0')` alpha suffix.
- `Fade` (fade.dfy): path and point opacity.
- `Paths` (paths.dfy): paths and eviction.
- `Render` (render.dfy): curve selection and stroke styles.
- `Particles` (particles.dfy): burst, physics step, filter, discs.
- `Drawing` (drawing.dfy): the `DrawingManager` class, its handlers and its frame.

Coordinates, times and opacities are `real`. The clock, the random draws and the host's
cosine and sine are passed in as parameters.

Behaviours of the code that a reader of its comments or names might not expect:

- **Fade order.** The point fade time is `fadeDuration * (1 - progress * 0.5)`. So at equal
  age, a point LATER in its path fades faster than an earlier one. The comment above the
  formula (drawing.js:225) calls it a "more aggressive fade for older points". But the
  older, earlier points get the longer fade. The model follows the formula.
  `Fade.LaterPointsFadeNoSlower` proves the code's ordering, and
  `Fade.EarlierPointOutlastsLaterAtEqualAge` shows it is strict at positions the loop visits.
- **One style per path.** Each path is stroked once, with whatever `strokeStyle` the
  canvas holds at that moment. That is the path's colour with the alpha of its last
  visible point among indices 1 .. n − 3. If the path has no such point (for example a
  three-point path), the style is inherited: from the previous path, or from an earlier
  frame. If nothing has set it since the last canvas resize, it is the context's default `#000000`. Resizing
  happens at construction and on every window `resize`. Assigning the canvas size resets
  the context, so the inherited style goes back to black. A per-segment colour is what
  the per-point opacity suggests, but the code does not do it. The model keeps the canvas
  `strokeStyle` as a field of the manager. `Drawing.DrawingManager.Resize` resets it.
- **Faded stroke, live tail.** Eviction looks only at the last point's age, and the loop
  draws only visible points. So a long stroke whose path opacity has reached 0 while its
  last point is still young keeps being drawn: every loop index is hidden, and what is left
  is the closing curve alone, from point 0 through point n − 2 to point n − 1, stroked in
  the inherited style, which can be fully opaque. `Render.FadedStrokeKeepsClosingCurve`
  shows this on a five-point stroke.
- **Jitter distance.** It is measured from the last *smoothed* point, not from the last
  raw sample. Take a press at (100,100), a move to (103,100), then a move to (104,100). A
  naive reading expects the second move to be dropped: it is 1 from the previous raw
  sample. But the code accepts it, because it is 2.5 from the smoothed point (101.5,100). `Drawing.PressAndMoveScenario` proves this.
- **Particle alpha.** It is `floor(life * 255)`, not a rounding.
- **Mouse held past eviction.** The button is held, but eviction has removed every path.
  `mousemove` then reads `points` of `undefined` and throws before changing anything. The
  model makes this the outcome `NoCurrentPath` with the state unchanged.
  `Drawing.HeldPastEvictionScenario` reaches it.

## Model

| member | source | states |
|---|---|---|
| `Points.Average` | firebase-web-hosting/scripts/drawing.js:95-97 | there is no average exactly when the window is empty |
| `Points.GetAveragePoint` | firebase-web-hosting/scripts/drawing.js:95-114 | the summing loop returns the per-coordinate and timestamp mean of the window, or nothing for an empty window |
| `Points.SumWithinBounds` | firebase-web-hosting/scripts/drawing.js:103-107 | a sum of n values in [lo, hi] lies in [n·lo, n·hi] |
| `Points.MeanWithinBounds` | firebase-web-hosting/scripts/drawing.js:109-113 | a mean of values in [lo, hi] lies in [lo, hi] |
| `Points.AverageInBox` | firebase-web-hosting/scripts/drawing.js:95-114 | the smoothed point's x, y and timestamp each lie within any bounds that hold for every sample of the window, so between the window's least and greatest |
| `Points.SqDistance` | firebase-web-hosting/scripts/drawing.js:91-93 | the square of `getDistance`: never negative, and 0 for two samples at the same position |
| `Points.TooClose` | firebase-web-hosting/scripts/drawing.js:152 | the jitter test, on squared distances; a sample at the last point's position, whatever its time, is always rejected |
| `Points.TooCloseIffDistanceBelow` | firebase-web-hosting/scripts/drawing.js:91-93 | comparing squared distance with minDistance² agrees with comparing the Euclidean distance with minDistance |
| `Hex.ToHex` | firebase-web-hosting/scripts/drawing.js:239 | `toString(16)` gives at least one lower-case hex digit, one exactly for values below 16 and at most two exactly for values below 256 |
| `Hex.ParseToHex` | firebase-web-hosting/scripts/drawing.js:239 | reading the numeral back gives the original number |
| `Hex.PadStart2` | firebase-web-hosting/scripts/drawing.js:239 | `padStart(2, '0')` left-pads a shorter string with zeros to length 2 and leaves longer ones alone |
| `Hex.AlphaHex` | firebase-web-hosting/scripts/drawing.js:86 | `Math.floor(v * 255).toString(16).padStart(2, '0')`, used for both the stroke alpha (line 239) and the particle fill: at least two characters, all lower-case hex digits |
| `Hex.ParseLeadingZero` | firebase-web-hosting/scripts/drawing.js:239 | a leading zero does not change a numeral's value |
| `Hex.AlphaHexIsByte` | firebase-web-hosting/scripts/drawing.js:239 | for opacity in [0,1] the suffix is exactly two lower-case hex digits whose value is floor(op·255) ≤ 255 |
| `Hex.AlphaHexEnds` | firebase-web-hosting/scripts/drawing.js:239 | opacity 0 gives "00" and opacity 1 gives "ff" |
| `Fade.Clamp01` | firebase-web-hosting/scripts/drawing.js:208 | the clamp lands in [0,1], is the identity on [0,1], and gives 0 and 1 for values beyond those |
| `Fade.PathOpacity` | firebase-web-hosting/scripts/drawing.js:203-209 | path opacity is in [0,1], is 1 while the path's age is at most fadeTimeout, and is 0 from fadeTimeout + fadeDuration on |
| `Fade.EffectiveDuration` | firebase-web-hosting/scripts/drawing.js:226 | for progress in [0,1] the point fade time lies between fadeDuration/2 and fadeDuration |
| `Fade.PointOpacity` | firebase-web-hosting/scripts/drawing.js:221-228 | point opacity is in [0,1], is 1 while the point's age is at most fadeTimeout, and is 0 once its effective fade time is over |
| `Fade.PathOpacityAt` | firebase-web-hosting/scripts/drawing.js:203-209 | the statements computing `pathOpacity` give exactly `PathOpacity` of the path's age, so the range and fade properties proved about `PathOpacity` hold for them |
| `Fade.PointOpacityAt` | firebase-web-hosting/scripts/drawing.js:221-228 | the statements computing `pointOpacity` give exactly `PointOpacity` of the point's age and progress, so the range and ordering properties proved about `PointOpacity` hold for them |
| `Fade.PathOpacityNonIncreasing` | firebase-web-hosting/scripts/drawing.js:203-209 | an older path is never more opaque |
| `Fade.PointOpacityNonIncreasing` | firebase-web-hosting/scripts/drawing.js:221-228 | an older point is never more opaque at the same position |
| `Fade.LaterPointsFadeNoSlower` | firebase-web-hosting/scripts/drawing.js:220-228 | at equal age, a point with larger progress is never more opaque than one with smaller progress |
| `Fade.EarlierPointOutlastsLaterAtEqualAge` | firebase-web-hosting/scripts/drawing.js:215-226 | in a five-point path, 5250 ms into the fade, loop point 1 (progress 0.25) is at opacity 1/7 while loop point 2 (progress 0.5) is at 0, so the ordering is strict for points the loop draws |
| `Fade.Progress` | firebase-web-hosting/scripts/drawing.js:220 | `i / (length - 1)` lies in [0,1] for an index of the path |
| `Fade.LoopProgressBelowOne` | firebase-web-hosting/scripts/drawing.js:215-226 | for the loop's indices 1 ≤ i ≤ length−3 the progress is strictly between 0 and 1, so the fade time is at least fadeDuration/2 > 0 |
| `Paths.Evict` | firebase-web-hosting/scripts/drawing.js:192-196 | eviction keeps only live paths, never more than it was given, all taken from the input |
| `Paths.IsLive` | firebase-web-hosting/scripts/drawing.js:195 | the eviction test; a path whose last point is no older than fadeTimeout is always kept, so nothing is evicted before it starts to fade |
| `Paths.EvictKeepsExactlyLive` | firebase-web-hosting/scripts/drawing.js:192-196 | a path survives if and only if it was in the store and now − its last timestamp < fadeTimeout + fadeDuration |
| `Paths.EvictConcat` | firebase-web-hosting/scripts/drawing.js:192 | eviction distributes over concatenation, so survivors keep their order |
| `Paths.EvictIdempotent` | firebase-web-hosting/scripts/drawing.js:192-196 | evicting twice at the same time equals evicting once |
| `Paths.SinglePointPathEvicted` | firebase-web-hosting/scripts/drawing.js:192-196 | a one-point path stamped T is gone at T + fadeTimeout + fadeDuration + 1 |
| `Render.FinalOpacity` | firebase-web-hosting/scripts/drawing.js:230 | the product of path and point opacity lies in [0,1] |
| `Render.FinalOpacityAt` | firebase-web-hosting/scripts/drawing.js:220-230 | one loop iteration's opacity statements give exactly `FinalOpacity` of that index |
| `Render.Visible` | firebase-web-hosting/scripts/drawing.js:232 | the `finalOpacity > 0` test; a visible index needs both the path and the point to be younger than fadeTimeout + fadeDuration |
| `Render.InteriorCurve` | firebase-web-hosting/scripts/drawing.js:216-217 | the curve drawn at line 233 for loop index i: controlled by point i and ending at the midpoint of points i and i + 1: equally far from each on both axes, hence between them |
| `Render.ClosingCurve` | firebase-web-hosting/scripts/drawing.js:244-251 | the final curve has the second-to-last point as its control point and ends exactly on the last sample |
| `Render.Emitted` | firebase-web-hosting/scripts/drawing.js:215-233 | after the loop has visited indices 1 .. n − 1 there are at most n − 1 interior curves, and none before index 1 has been visited |
| `Render.EmittedAreVisible` | firebase-web-hosting/scripts/drawing.js:230-233 | every interior curve emitted is the curve of some visited index whose final opacity is positive, ending at the midpoint of that point and the next |
| `Render.VisibleIsEmitted` | firebase-web-hosting/scripts/drawing.js:230-233 | every visited index with positive final opacity does get its curve |
| `Render.VisibleIndices` | firebase-web-hosting/scripts/drawing.js:215-232 | the loop indices whose final opacity is positive, each in 1 .. n − 1 and strictly increasing |
| `Render.VisibleIndicesComplete` | firebase-web-hosting/scripts/drawing.js:215-232 | every visited index with positive final opacity is listed |
| `Render.EmittedInIndexOrder` | firebase-web-hosting/scripts/drawing.js:215-233 | the interior curves come out once each and in increasing index order: the k-th curve belongs to the k-th visible loop index |
| `Render.StyleInheritedWhenNoneVisible` | firebase-web-hosting/scripts/drawing.js:215-240 | when no visited loop index 1 .. n − 1 is visible, the path is stroked in the style inherited from before |
| `Render.StyleFromLastVisible` | firebase-web-hosting/scripts/drawing.js:215-253 | otherwise the path is stroked in its colour with the two-digit alpha of the last visible visited loop index, whatever the earlier ones were; points after the loop's last index play no part |
| `Render.StyleInheritedOrOwn` | firebase-web-hosting/scripts/drawing.js:215-240 | the style `StyleAfter` that the loop leaves, through the assignment at lines 239-240, is either the inherited one or the path's colour followed by exactly two more characters; no other colour can appear |
| `Render.PathCurves` | firebase-web-hosting/scripts/drawing.js:211-251 | a path of n ≥ 2 points yields at most n − 2 curves, none for n = 2, and ends with the closing curve (control point n − 2, end point n − 1) exactly when n > 2 |
| `Render.FadedStrokeKeepsClosingCurve` | firebase-web-hosting/scripts/drawing.js:192-251 | a five-point stroke drawn 10000 ms after it started, with its last point 1000 ms old, survives eviction, yet every loop index is hidden; it is drawn as the single closing curve from point 0, controlled by point 3, ending on point 4, in the inherited style |
| `Render.DrawPath` | firebase-web-hosting/scripts/drawing.js:198-253 | a path with fewer than 2 points draws nothing and keeps the style; otherwise it starts at its first point and is stroked in the style it leaves behind |
| `Render.TraceStep` | firebase-web-hosting/scripts/drawing.js:216-240 | one iteration at loop index i extends the curves and style exactly as visiting index i does: the midpoint curve is added and the style set from its alpha when the point is visible, and nothing changes otherwise |
| `Render.TraceCurves` | firebase-web-hosting/scripts/drawing.js:215-242 | the index loop emits exactly the curves of the visible loop indices, in order, and leaves exactly the style of the last visible loop index (or the inherited one) |
| `Render.TracePath` | firebase-web-hosting/scripts/drawing.js:199-253 | the index loop computes the opacities inline and produces exactly the stroke and style of `DrawPath` |
| `Render.RenderPaths` | firebase-web-hosting/scripts/drawing.js:198-254 | drawing the paths yields at most one stroke per path, and nothing at all, with the style untouched, when no path has two points |
| `Render.OneStrokePerDrawablePath` | firebase-web-hosting/scripts/drawing.js:198-200 | the number of strokes equals the number of paths with at least two points; with `RenderPathsConcat`, which fixes which path each stroke comes from, that is one stroke per such path, in order |
| `Render.RenderPathsConcat` | firebase-web-hosting/scripts/drawing.js:198-254 | rendering a + b is rendering a, then b starting from the style a left: strokes keep path order and the stroke style carries from path to path |
| `Particles.RandomPastelColor` | firebase-web-hosting/scripts/drawing.js:45-47 | a random draw picks one of the eight pastel colours |
| `Particles.Speed` | firebase-web-hosting/scripts/drawing.js:56 | a particle's speed lies in [8, 14) |
| `Particles.Decay` | firebase-web-hosting/scripts/drawing.js:66 | a particle's decay lies in [0.01, 0.02) |
| `Particles.BurstParticle` | firebase-web-hosting/scripts/drawing.js:55-67 | the object pushed for particle i: at (x, y) with the burst's colour, radius 3, life 1, decay in [0.01, 0.02) |
| `Particles.Burst` | firebase-web-hosting/scripts/drawing.js:49-68 | a burst is 100 particles at (x, y) with radius 3, life 1, one shared pastel colour and decay in [0.01, 0.02); particle i moves along the host's cosine and sine of angle i |
| `Particles.Step` | firebase-web-hosting/scripts/drawing.js:73-77 | one frame of the filter callback: radius, colour and decay are kept, and life drops exactly when decay is positive |
| `Particles.BurstSpeedRange` | firebase-web-hosting/scripts/drawing.js:55-62 | given a unit direction, a burst particle's squared speed lies in [64, 196) |
| `Particles.UnstepStep` | firebase-web-hosting/scripts/drawing.js:72-77 | one physics step is undone exactly by moving back by the velocity from before gravity and air resistance, so the step moves by the old velocity |
| `Particles.StepNClosedForm` | firebase-web-hosting/scripts/drawing.js:73-77 | after n steps, life has dropped by exactly n·decay, vy has gained n·0.1 and vx is scaled by 0.99ⁿ; radius, colour and decay do not change |
| `Particles.Advance` | firebase-web-hosting/scripts/drawing.js:71-80 | after an update the list is no longer than before, every particle has positive life, and each is the stepped form of an input particle |
| `Particles.AdvanceKeepsSurvivors` | firebase-web-hosting/scripts/drawing.js:78 | every particle whose stepped life is positive is kept |
| `Particles.AdvanceConcat` | firebase-web-hosting/scripts/drawing.js:72 | the update distributes over concatenation, so survivors keep their order |
| `Particles.AdvanceLowersCap` | firebase-web-hosting/scripts/drawing.js:77-78 | one update lowers every particle's maximum life by at least 0.01 |
| `Particles.AdvanceNLowersCap` | firebase-web-hosting/scripts/drawing.js:71-80 | n updates lower it by at least n·0.01 |
| `Particles.AdvanceEmptiesSpentParticles` | firebase-web-hosting/scripts/drawing.js:77-78 | particles with at most 0.01 life all disappear in the next update |
| `Particles.AllGoneAfterHundredFrames` | firebase-web-hosting/scripts/drawing.js:65-78 | particles with life at most 1 and decay at least 0.01, such as any burst, are all gone after 100 updates |
| `Particles.Discs` | firebase-web-hosting/scripts/drawing.js:82-89 | one disc per particle, in order, at the particle's position and radius, its fill starting with the particle's colour |
| `Particles.DiscFill` | firebase-web-hosting/scripts/drawing.js:86 | for life in [0,1] the fill is the colour plus exactly two hex digits worth floor(life·255) |
| `Drawing.Slide` | firebase-web-hosting/scripts/drawing.js:156-159 | after a push, the window holds between 1 and 5 samples, grows by one until it has 5, and is the tail of old window + sample, so the new sample is last |
| `Drawing.WindowAfter` | firebase-web-hosting/scripts/drawing.js:127-159 | the window never exceeds 5 samples |
| `Drawing.WindowIsLatestSamples` | firebase-web-hosting/scripts/drawing.js:127-159 | after a press and any accepted moves, the window is exactly the latest min(n, 5) samples, oldest first |
| `Drawing.DrawingManager.constructor` | firebase-web-hosting/scripts/drawing.js:2-14 | a new manager is not drawing, has no paths, particles or window, and the colour is #FF69B4 |
| `Drawing.DrawingManager.SelectColor` | firebase-web-hosting/scripts/drawing.js:184 | picking a colour changes only the current colour |
| `Drawing.DrawingManager.MouseDown` | firebase-web-hosting/scripts/drawing.js:120-134 | drawing starts; the window is the one sample; one path with that single point, the current colour and opacity 1 is appended; nothing else changes |
| `Drawing.DrawingManager.MouseMove` | firebase-web-hosting/scripts/drawing.js:140-165 | a move while not drawing, with no path left, or closer than minDistance to the last point changes nothing; otherwise the window slides and exactly the window's average is appended to the last path, all other paths unchanged |
| `Drawing.DrawingManager.AppendSample` | firebase-web-hosting/scripts/drawing.js:156-164 | an accepted move slides the window over the sample and appends exactly the window's average to the last path, keeping every path non-empty |
| `Drawing.DrawingManager.MouseUp` | firebase-web-hosting/scripts/drawing.js:167-170 | drawing stops and the window empties; paths are untouched |
| `Drawing.DrawingManager.MouseLeave` | firebase-web-hosting/scripts/drawing.js:172-175 | as for mouseup |
| `Drawing.DrawingManager.Resize` | firebase-web-hosting/scripts/drawing.js:37-43 | a canvas resize resets the stroke style to the context default #000000 and changes nothing else |
| `Drawing.DrawingManager.CreateFirework` | firebase-web-hosting/scripts/drawing.js:49-69 | exactly the burst is appended after the existing particles, which are unchanged |
| `Drawing.DrawingManager.UpdateParticles` | firebase-web-hosting/scripts/drawing.js:71-80 | the particles become the update of the old ones; every particle keeps life in (0,1] |
| `Drawing.DrawingManager.DrawPaths` | firebase-web-hosting/scripts/drawing.js:189-255 | the store becomes the evicted store; the strokes and the canvas style that is left are those rendered from the survivors |
| `Drawing.DrawingManager.Animate` | firebase-web-hosting/scripts/drawing.js:291-299 | one frame evicts and draws the paths, then updates the particles and draws them |
| `Drawing.PressAndFirstMove` | firebase-web-hosting/scripts/drawing.js:120-165 | press (100,100) at 0, then move (103,100) at 10: the move is accepted, the window is both samples and the stroke is (100,100,0), (101.5,100,5) |
| `Drawing.PressAndMoveScenario` | firebase-web-hosting/scripts/drawing.js:120-165 | press (100,100) at 0, move (103,100) at 10, move (104,100) at 20: both moves are accepted and the stroke is (100,100,0), (101.5,100,5), (307/3,100,10) |
| `Drawing.JitterScenario` | firebase-web-hosting/scripts/drawing.js:152-154 | a move 1 unit from a fresh stroke's point is rejected and leaves stroke and window as they were |
| `Drawing.HeldPastEvictionScenario` | firebase-web-hosting/scripts/drawing.js:149-150 | a stroke held still for fadeTimeout + fadeDuration is evicted, and the next move finds no current path |

Helpers without a row: arithmetic order facts (`Fade.ClampMonotone`, `Fade.DivAntitone`,
`Fade.DivMonotone`, `Points.MulNonNegative`). There are also one-step facts used by the inductions and loops
beside them: `Drawing.SliceSnoc` (a suffix is its last element appended to the rest),
`Drawing.InitSuffix` and `Drawing.SuffixTail` (slices of slices, for `WindowIsLatestSamples`),
`Drawing.ExtendLastKeepsPoints`, `Render.FinalOpacityOf`, `Render.LoopStepVisible`,
`Render.LoopStepHidden` and `Render.RenderPathsStep` (one more path drawn by the
`forEach`). `Drawing.SumOfThree` and `Drawing.ScenarioAverages` compute the window averages
for the scenarios.

Definitions without a contract of their own, stated through the lemmas about them:
`Render.StyleAfter` (the `strokeStyle` assignment at drawing.js:239-240 carried across the
loop; see `StyleInheritedWhenNoneVisible`, `StyleFromLastVisible`, `StyleInheritedOrOwn`)
and `Render.Drawable` (the number of paths with at least two points, the reference count for
`OneStrokePerDrawablePath`).

## Left out

- The canvas and the DOM are not modelled: the canvas size, the `resize` listener
  registration in `initializeCanvas`, the colour picker's DOM wiring, `createReminderMessage`, `clearRect`, and the `dblclick`
  listener registration. `SelectColor` models only the picker's assignment to
  `currentColor`. The model's outputs are `PathStroke` and `Disc` values, not canvas calls.
- `resizeCanvas` is modelled by `Drawing.DrawingManager.Resize` only for its effect on
  `strokeStyle`, the one piece of context state the model keeps.
- `lineWidth`, `lineCap` and `lineJoin` are not modelled. They are canvas state set to the
  same constants with every visible segment. Only `strokeStyle` is kept.
- The self-rescheduling `requestAnimationFrame` loop is not modelled; `Animate` is one frame.
  The constructor's initial `animate()` call is not made by the model's constructor.
- `Math.random`, `Math.cos`, `Math.sin` and `Math.sqrt` are not modelled. Random draws are
  parameters in [0, 1). Cosine and sine are per-particle input tables. Distances are
  compared squared.
- IEEE floating point is not modelled: the arithmetic is exact over `real`. Rounding, NaN
  and infinities are not captured.
- `Date.now()` is not modelled: times are parameters.
- The unused fields `smoothingFactor` and `lastPoint` are not modelled.
- `main.js` (a page-view counter and a cursor-following element) is not part of this model.
- Particles.BurstSpeedRange: proves the speed range only when the host's cosine and sine
  form an exact unit vector. This is because trigonometry is not modelled.
- Points.TooCloseIffDistanceBelow: relates the squared test to any non-negative `d` with
  `d * d` equal to the squared distance, standing in for `Math.sqrt`.
