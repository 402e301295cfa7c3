# music-visualizer core, modelled in Dafny

The music visualizer is a single React component, `src/App.tsx`, with two independent loops.

- **Frame loop** (`animate`). Each animation frame reads the analyser's 4096 byte
  magnitudes. It groups the frequency bins into 250 contiguous slices. Slice `i` keeps
  taking bins, at least one, until the running frequency reaches `2000 / 250^2 * i^2` Hz.
  Each slice's mean magnitude moves one vertex of a closed polygon around a circle.
  `bucketizer.dfy` models this as `Bucketizer.DrawFrame`, which calls `Bucketizer.TakeSlice`
  for the inner `do … while`. Both are specified against the grouping predicate `IsBucketing`
  and the outline predicate `TracesOutline`.
- **Background generator** (`backgroundGenerator`). An endless async generator that
  requests a batch of photographs and yields them one by one. When the batch is used up, it
  requests the next one. `backgrounds.dfy` models it as the class `Backgrounds.Cursor`.
  The k-th response is `fetch(k)`. The ghost field `Yielded` is everything handed out, and it
  is always a prefix of the concatenated responses (`Fetched`).
- **Slideshow** (the second `init`). Two background slots take turns: fade slot 1 in and
  wait 10 s; pull a background into slot 2 hidden, bump `zIndex` and wait 50 s; fade slot 2
  in and wait 10 s; pull a background into slot 1 hidden, bump `zIndex` and wait 50 s.
  `slideshow.dfy` models it as the class `Slideshow.Controller`. The methods issue one style
  write each and return the wait that follows as a delay. The ghost field `log` records
  every style write. Its invariant is that `log` is a prefix of the reference schedule
  `Scheduled(k, pulled)`. Write `k` of that schedule carries z-index `k / 2` and background
  number `(k + 1) / 2`.

Frequencies are exact reals (`Freq(bin, fpb) = bin * fpb`). `Math.pow`, `Math.cos` and
`Math.sin` are the abstract functions of a `Plotter`.

In the code, each slot is at opacity 1 for 70 s of every 120 s cycle: from its fade-in until
its own hidden preparation, 10 s after the other slot's fade-in. It is at opacity 0 for the
remaining 50 s, which end with its next fade-in. `Slideshow.IterationSchedule` states the four
writes of a cycle exactly.

## Model

| member | source | states |
|---|---|---|
| Bucketizer.Target | src/App.tsx:36-38 | The stopping frequency of slice `i` (`targetFrequencyCoefficient * i^2`) is never negative, and is positive for every slice after the first |
| Bucketizer.TakeSlice | src/App.tsx:69-79 | Starting at `currentBin`, the slice takes at least one bin. It stops at the first bin whose running frequency reaches the slice's target. Every bin read lies inside the array. It returns the sum of the magnitudes read and the new running frequency |
| Bucketizer.DrawFrame | src/App.tsx:66-96 | The 250 slices run contiguously from bin 0, each obeys the exit rule and totals its own bins. The path is a moveTo to vertex 0, a lineTo for each later vertex placed by its slice's mean, and a final lineTo back to vertex 0. The vertex coordinates (`Vertex`, lines 80-83) and the moveTo/lineTo choice (`Command`, lines 85-91) are the helpers it uses |
| Bucketizer.BinsStayBounded | src/App.tsx:72-79 | Each slice ends no more bins beyond its index than the next target allows, so the bin cursor never outruns the array |
| Bucketizer.ExitRuleDeterminesCount | src/App.tsx:76-79 | Two slices that start at the same bin and both obey the loop's exit condition take the same number of bins |
| Bucketizer.SumBound | src/App.tsx:73 | `decibelTotal` over `n` bins is at most `255 * n` |
| Bucketizer.SumOfSilence | src/App.tsx:73 | Bins of magnitude 0 add up to 0 |
| Bucketizer.SingleBinIff | src/App.tsx:72-79 | Slice `i` holds exactly one bin iff the frequency one bin past its start already reaches its target (both directions) |
| Bucketizer.FirstSliceIsBinZero | src/App.tsx:66-79 | Slice 0 (target 0) is bin 0 alone, with total `dataArray[0]` |
| Bucketizer.SlicesInOrder | src/App.tsx:66-73 | Slices never overlap, and a later slice starts after an earlier one ends |
| Bucketizer.EveryBinInOneSlice | src/App.tsx:66-79 | Every bin below the last slice's end belongs to some slice, and to only one |
| Bucketizer.BucketingIsUnique | src/App.tsx:66-79 | Two groupings that obey the rules agree slice for slice on their common length |
| Bucketizer.FrameIsDeterministic | src/App.tsx:66-94 | The complete grouping is determined by the data and the bin width: two complete groupings are equal |
| Bucketizer.MeansAreBytes | src/App.tsx:80 | `decibelTotal / binCount` is defined (`binCount > 0`) and lies in 0..255 for every slice |
| Bucketizer.SilenceDrawsCircle | src/App.tsx:80-96 | A silent frame puts every vertex at displacement `jump(0)`, a circle, and the path closes at vertex 0 |
| Bucketizer.AnalyserCoversBins | src/App.tsx:33-47 | With `fftSize` 8192, and so 4096 bins, any sample rate of 8000 Hz or more covers every bin the loop reads |
| Backgrounds.FetchedGrows | src/App.tsx:110-124 | Responses only append: what the first `j` requests returned is a prefix of what the first `k >= j` returned |
| Backgrounds.PacingIsInvisible | src/App.tsx:109-126 | Two consumers of the same responses see the same stream: the shorter view is a prefix of the longer, whatever the batch boundaries |
| Backgrounds.Cursor.constructor | src/App.tsx:129 | A fresh generator has made no request and yielded nothing |
| Backgrounds.Cursor.Refill | src/App.tsx:110-122 | Requests batches until one is non-empty. At least one request is made, only empty batches are skipped, and nothing is yielded |
| Backgrounds.Cursor.Next | src/App.tsx:109-126 | Yields the next image of the current batch without a request. Once the batch is used up, it yields the first image of the next non-empty batch, skipping only empty ones. Everything yielded is a prefix of the responses, in order |
| Slideshow.IterationSchedule | src/App.tsx:132-170 | Iteration `c` writes: slot 1 shown with background `2c` at z `2c`, wait 10 s; slot 2 hidden with background `2c+1` at z `2c`, wait 50 s; slot 2 shown with the same background at z `2c+1`, wait 10 s; slot 1 hidden with background `2c+2` at z `2c+1`, wait 50 s |
| Slideshow.ZIndexNeverDecreases | src/App.tsx:130-166 | The z-index written never goes down |
| Slideshow.IterationRaisesZIndexByTwo | src/App.tsx:147-166 | One loop iteration raises the z-index by exactly two |
| Slideshow.FadeInPaintsAbove | src/App.tsx:133-157 | Every fade-in carries a z-index strictly above every style written before it |
| Slideshow.PreparedSlotShownNext | src/App.tsx:142-157 | A hidden preparation (opacity 0) is followed by the fade-in (opacity 1) of the same slot, with the same background, one z-index higher |
| Slideshow.PreparationPullsFresh | src/App.tsx:142-161 | A preparation uses background number `(k + 1) / 2`, the one pulled for it. Every earlier write used a lower-numbered background |
| Slideshow.ScheduleKeeps | src/App.tsx:131-161 | Pulling more backgrounds leaves the writes already scheduled unchanged |
| Slideshow.FadeInOnTop | src/App.tsx:133-157 | Right after a fade-in, the slot faded in holds that style and sits above the other slot's current style |
| Slideshow.LastStyleWasWritten | src/App.tsx:11-12 | A slot's current style is one that some earlier write put in that slot |
| Slideshow.ShowFirstKeeps | src/App.tsx:133-140 | Fading slot 1 in at the counter is the next scheduled write, keeps the state consistent, and puts slot 1 above slot 2 |
| Slideshow.PrepareSecondKeeps | src/App.tsx:142-150 | Preparing slot 2 hidden with the new background is the next scheduled write, and the state stays consistent once `zIndex++` runs |
| Slideshow.ShowSecondKeeps | src/App.tsx:152-159 | Fading slot 2 in at the counter is the next scheduled write, keeps the state consistent, and puts slot 2 above slot 1 |
| Slideshow.PrepareFirstKeeps | src/App.tsx:161-169 | Preparing slot 1 hidden with the new background is the next scheduled write, and the state stays consistent once `zIndex++` closes the iteration |
| Slideshow.Controller.constructor | src/App.tsx:128-131 | The generator is created, `zIndex` is 0, exactly one background is pulled into `background1`, and nothing is written yet |
| Slideshow.Controller.ShowFirstSlot | src/App.tsx:133-140 | Writes slot 1 with fade-in, opacity 1 and the current z-index, then waits 10 s. The write is the next scheduled one, and slot 1 ends above slot 2 |
| Slideshow.Controller.PrepareSecondSlot | src/App.tsx:142-150 | Pulls exactly one background and writes it into slot 2 at opacity 0 with the old z-index. The counter rises by one and a 50 s wait follows |
| Slideshow.Controller.HideSecond | src/App.tsx:144-150 | The slot 2 style write and `zIndex++` after the pull: the next scheduled write |
| Slideshow.Controller.ShowSecondSlot | src/App.tsx:152-159 | Writes slot 2 with fade-in, opacity 1 and the current z-index, then waits 10 s. Slot 2 ends above slot 1 |
| Slideshow.Controller.PrepareFirstSlot | src/App.tsx:161-169 | Pulls exactly one background into `background1` and writes it into slot 1 at opacity 0 with the old z-index. The counter rises by one and a 50 s wait follows |
| Slideshow.Controller.HideFirst | src/App.tsx:163-169 | The slot 1 style write and `zIndex++` after the pull: the next scheduled write, which completes an iteration |
| Slideshow.Controller.Step | src/App.tsx:132-170 | Issues the next write of the reference schedule, whatever the phase, and returns its wait |
| Slideshow.Controller.Iteration | src/App.tsx:132-170 | One loop round: four scheduled writes, `zIndex` up by 2, two backgrounds pulled, 120 s of waiting |
| Slideshow.Controller.Run | src/App.tsx:132-170 | `n` loop rounds: `4n` scheduled writes, `zIndex` up by `2n`, `2n` backgrounds pulled, `120000 * n` ms of waiting |

## Left out

- Microphone capture, the `AudioContext` and the analyser (lines 20-34, 47-49) are not modelled. Each frame's magnitudes are a parameter of `DrawFrame`, and the bin width `sampleRate / fftSize` is the parameter `fpb`.
- `Math.pow`, `Math.cos` and `Math.sin` are not modelled as floating point. They are the abstract functions of a `Plotter`, and the vertex angle `i * 2π / 250` is given by its index, not by the source's repeated float additions. Floating-point rounding of the running frequency is not modelled.
- Canvas calls (`clearRect`, line width, stroke colour, `stroke`) and `requestAnimationFrame` are not modelled. The path is returned as a sequence of `MoveTo`/`LineTo` commands, and one call of `DrawFrame` is one frame.
- Bucketizer.DrawFrame: requires `CoversLastBin`, a sufficient bound on the array length. The bound is not tight: it can demand one bin more than the loop reads. For example, when `fpb >= Target(249)` the loop reads only bins 0..249, yet `CoversLastBin(250, fpb)` is false. For an array too short for the loop, the source reads past the end of the `Uint8Array`, gets `undefined` and draws NaN coordinates, which the model does not represent. `AnalyserCoversBins` shows the bound holds for the analyser's real configuration.
- The HTTP request, the authorization header, JSON parsing and the CSS string built for each image (lines 111-123) are not modelled. The k-th response is the abstract `fetch(k)` and an image is a string. A rejected request is not modelled.
- Backgrounds.Cursor.Next: requires that the supplier keeps returning non-empty batches (`Replenishes`). If every response from some point on is empty, the source loops forever, and the model excludes that case.
- The `setTimeout` waits are returned as delays and not taken. React state, hooks and the JSX render are not modelled: each slot's style is a field of `Controller`.
- Slideshow.Controller.Run: models a finite number of iterations of the endless `while (true)` loop.
- `zIndex` is an unbounded integer; JavaScript numbers stay exact far beyond any reachable count.
