# dszcz rain-overlay renderer, modelled in Dafny

dszcz draws a full-screen, click-through overlay. It mirrors the screen and
lays a rain-ripple distortion over it. The logic of the overlay lives in the
renderer object `MetalRenderer`. This project models three parts of it:

- **Dispatch geometry** (`dispatch.dfy`, module `Dispatch`). Each compute
  pipeline gets one dispatch configuration. A threadgroup is
  `threadExecutionWidth` threads wide and `maxTotalThreadsPerThreadgroup /
  threadExecutionWidth` threads tall. The grid is the texture extent divided
  by those sizes and rounded up. The model proves four things. The grid
  covers every texel. No group lies wholly outside the texture. The counts
  are exactly the ceilings, as the one count with both of those properties.
  A group never holds more threads than the pipeline allows.
- **Droplet layout** (`droplets.dfy`, module `Droplets`). A drop tick writes
  four UInt16 words into an 8-byte buffer, in the order x, y, radius,
  strength. The ranges the tick draws from are stated as a predicate.
- **The ping-pong height field** (`commands.dfy`, module `Commands`, and
  `renderer.dfy`, module `Renderer`). The renderer has two height-field
  textures and an active index. The 20 Hz tick (`AddDrop`) adds a droplet into
  the active texture. The 120 Hz tick (`MoveWaves`) reads the active texture,
  writes the other one and flips the index. The per-refresh `Draw` samples the
  latest captured frame and the active texture. Each pass committed to the
  command queue is recorded in the renderer's `committed` log. The
  invariant `Valid()` ties the active index to that log. It also requires
  every committed pass to have used the buffers as ping-pong demands. From
  this the lemmas derive the rest. After N wave passes the index is N mod 2.
  A drop is read by the next wave pass. Wave passes chain, each reading what
  the previous one wrote. A wave pass never overwrites the buffer that draws
  since the last flip sampled.
- **Timers and the capture slot** (`renderer.dfy`). The constructor
  schedules exactly two repeating timers, at 1/20 s (drops) and 1/120 s
  (waves). `StopTimers` invalidates each timer and empties the list.
  `Fire` models the run loop calling a timer's selector, and an invalidated
  timer fires nothing. So once the timers are stopped, no tick commits a pass.
  `StartCapture` consumes the frames of the capture stream. Each frame
  overwrites the `imgTexture` slot.

Environment inputs are parameters of the methods:

- Whether Metal could make a command buffer and encoder is a boolean
  argument (`encoderMade`, `passMade`).
- The random droplet is a `Droplet` argument. Its `requires` clause gives the
  ranges the code draws from: `0 <= x <= width`, `0 <= y <= height`,
  `1 <= radius <= 30` and `8 <= strength <= 12`.
- The capture stream is the finite sequence of frames delivered before it
  ended.

A drop tick converts the field width and height to UInt16, and that
conversion traps for an extent above 65535. `AddDrop` therefore requires
`ExtentFitsUInt16`, but only on the path where the conversion runs. The
closed range `0...width` lets the droplet's centre fall one texel past the
last column (and likewise for rows). The model keeps this as written.

The timer intervals `1/20` and `1/120` are Swift floating-point literals,
so they are 0.05 s and about 0.0083 s. They are modelled as the reals 1/20
and 1/120.

## Model

| member | source | states |
|---|---|---|
| `Dispatch.GenerateThreadDispatchConfig` | dszcz/MetalRenderer.swift:209-223 | groups are exactly (Ew, M / Ew, 1) threads and the grid depth is 1; the grid covers the whole texture in x and y, no group is wholly idle, and a group has between 1 and M threads |
| `Dispatch.GroupCount` | dszcz/MetalRenderer.swift:217-219 | the rounding-up division `(d + n - 1) / d` gives enough groups to cover n texels, and one group fewer would not |
| `Dispatch.CeilDivBounds` | dszcz/MetalRenderer.swift:217-219 | for a positive divisor the renderer's `(d + n - 1) / d` is non-negative, covers n, and has no surplus group |
| `Dispatch.GroupCountIsLeast` | dszcz/MetalRenderer.swift:217-219 | any group count that covers the extent is at least the renderer's count, so the renderer never over-dispatches |
| `Dispatch.GroupCountUnique` | dszcz/MetalRenderer.swift:217-219 | the renderer's count is the only count that both covers the extent and has no idle group, i.e. the exact ceiling |
| `Dispatch.DispatchGridIsCeiling` | dszcz/MetalRenderer.swift:214-220 | the grid equals (ceil(W / Ew), ceil(H / (M / Ew)), 1), with the ceilings characterised without division |
| `Dispatch.UltraHdDispatch` | dszcz/MetalRenderer.swift:209-223 | a 3840 x 2160 field with Ew = 32 and M = 1024 is dispatched as 120 x 68 x 1 groups of 32 x 32 x 1 threads |
| `Droplets.Encode` | dszcz/MetalRenderer.swift:146-150 | the droplet is copied as four UInt16 words, filling the 8-byte buffer exactly |
| `Droplets.DecodeEncode` | dszcz/MetalRenderer.swift:150 | reading the four words back gives the droplet written (x, y, radius, strength order) |
| `Droplets.EncodeDecode` | dszcz/MetalRenderer.swift:65 | every four-word buffer is the encoding of exactly one droplet |
| `Commands.ActiveAfter` | dszcz/MetalRenderer.swift:181 | the active index that a history of passes leads to, starting from 0, is always 0 or 1 |
| `Commands.ActiveIsParity` | dszcz/MetalRenderer.swift:29 | after N wave passes from index 0 the active index is N mod 2 |
| `Commands.PingPongAppend` | dszcz/MetalRenderer.swift:171-172 | a pass that uses the buffers as the current index dictates keeps the whole history a ping-pong history |
| `Commands.ActiveStable` | dszcz/MetalRenderer.swift:181 | across a stretch of history with no wave pass the active index does not change |
| `Commands.DropVisibleToNextMove` | dszcz/MetalRenderer.swift:144 | a drop lands in the buffer that the next wave pass reads as input |
| `Commands.MovesChain` | dszcz/MetalRenderer.swift:171-172 | each wave pass reads the buffer the previous wave pass wrote |
| `Commands.MoveSparesDrawnBuffer` | dszcz/MetalRenderer.swift:198 | a wave pass writes neither the buffer it reads nor the buffer sampled by a draw since the last flip |
| `Renderer.MetalRenderer.constructor` | dszcz/MetalRenderer.swift:65-108 | both dispatch configurations come from the drop pipeline's execution width and the field size; the buffer holds four words; there are two fresh, distinct height fields; no frame yet; index 0; exactly two valid repeating timers, drops at 1/20 s and waves at 1/120 s |
| `Renderer.MetalRenderer.StartCapture` | dszcz/MetalRenderer.swift:115-123 | each delivered colour frame overwrites the slot: afterwards it holds the last frame, or is unchanged if no frame came; the slot never holds one of the height fields |
| `Renderer.MetalRenderer.StopTimers` | dszcz/MetalRenderer.swift:125-130 | every timer that was scheduled is invalidated and the list is empty; with an empty list nothing changes, so a second call is harmless |
| `Renderer.MetalRenderer.AddDrop` | dszcz/MetalRenderer.swift:136-160 | on success the buffer holds the droplet's four words and one drop pass against the active buffer is committed; on failure nothing changes; the index never changes |
| `Renderer.MetalRenderer.MoveWaves` | dszcz/MetalRenderer.swift:162-182 | on success one wave pass reading buffer a and writing buffer 1 - a is committed and the index becomes 1 - a; on failure nothing changes; the index stays in {0,1} and equals the number of wave passes mod 2 |
| `Renderer.MetalRenderer.Draw` | dszcz/MetalRenderer.swift:187-207 | with no frame or no encoder nothing is committed; otherwise one draw pass samples the frame at slot 0 and the active buffer at slot 1 and draws a 4-vertex triangle strip once; the frame is never a height field; the index is unchanged |
| `Renderer.MetalRenderer.Fire` | dszcz/MetalRenderer.swift:103-108 | an invalidated timer, or a tick whose encoder cannot be made, changes nothing; a valid drop timer has exactly `AddDrop`'s effect (buffer holds the droplet, one drop pass on the active buffer appended, index unchanged) and a valid wave timer exactly `MoveWaves`'s (one pass reading buffer a and writing 1 - a appended, index becomes 1 - a) |
| `Renderer.CopyDroplet` | dszcz/MetalRenderer.swift:150 | after the copy the four-word droplet buffer holds exactly the droplet's encoding x, y, radius, strength |
| `Renderer.Texture.constructor` | dszcz/MetalRenderer.swift:83-92 | a texture keeps the pixel format and size it was made with, so the two height fields are single-channel and field-sized and each `new` texture is a distinct resource |
| `Renderer.Timer.Scheduled` | dszcz/MetalRenderer.swift:104 | a scheduled timer keeps its interval, selector and repeat flag and starts out valid |
| `Renderer.Timer.Invalidate` | dszcz/MetalRenderer.swift:127 | after invalidation the timer is no longer valid, so it never fires again |
| `Commands.FlipStep` | dszcz/MetalRenderer.swift:171-181 | committing a wave pass that reads the active buffer and writes the other keeps the history ping-pong, flips the index, and keeps it equal to the wave-pass count mod 2 |

## Left out

- Metal device, library, render and compute pipeline construction, and their `fatalError` paths (MetalRenderer.swift:36-63): foreign API calls with no logic. The execution width and the two thread limits are constructor arguments.
- Renderer.MetalRenderer.constructor: takes the field size as a given pair of naturals. The screen-size computation `Int(frame.width * scaleFactor)` is floating point.
- The shader kernels (drop injection, wave propagation, vertex and fragment stages) are not part of this model. Their numerics are floating point. Each pass is an abstract log entry naming its buffers and parameters.
- Renderer.MetalRenderer.AddDrop: records the droplet in the committed pass when the pass is encoded. The GPU reads the shared droplet buffer only when the pass runs. A later tick could overwrite the buffer before an earlier pass runs, and the model does not capture that timing.
- The asynchronous `Task` that runs the capture loop, the unguarded cross-thread write to `imgTexture`, `waitUntilScheduled` and `present`: concurrency and GPU scheduling. Only the sequential effect is modelled: the latest value overwrites the slot.
- `stopStream` and the capture engine it calls: ScreenCaptureKit glue. The engine's window filter and its invalid-buffer skip are not part of this model.
- `mtkView(_:drawableSizeWillChange:)` is empty in the source and has no counterpart.
- Dispatch.GenerateThreadDispatchConfig: integers are unbounded. Swift's trap on `Int` overflow in `threadExecutionWidth + width - 1` cannot occur for screen-sized inputs and is not modelled.
- Renderer.Texture stands in for Metal's texture handle and `makeTexture(descriptor:)`: it models only the pixel format, size and identity of a texture, not its storage mode, usage flags or contents. The force-unwrapped allocations `makeBuffer(...)!` (MetalRenderer.swift:65) and `makeTexture(...)!` (MetalRenderer.swift:91-92) always succeed in the model; their crash on allocation failure is not modelled.
- Renderer.Timer.Scheduled and Renderer.Timer.Invalidate stand in for Foundation's timer API: they model only the interval, selector, repeat flag and valid flag, not the run loop registration.
- Run-loop scheduling of the timers (actual timing and interleaving) and random number generation: the ticks are method calls and the random values are arguments.
- Window, menu and app lifecycle files (app entry, overlay window, view wrapper, app delegate): AppKit and SwiftUI configuration only.
