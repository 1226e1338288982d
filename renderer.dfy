/** The renderer object: it owns the pair of height-field buffers and the
    index of the active one, the droplet uniform buffer, the slot holding the
    latest captured frame and the two repeating simulation timers, and it
    commits drop, wave and draw passes to its command queue. */
module Renderer {
  import opened Dispatch
  import opened Droplets
  import opened Commands

  datatype Option<T> = None | Some(value: T)

  datatype PixelFormat = Bgra8Unorm | R16Float

  /** An opaque GPU texture; two textures are the same resource exactly when
      they are the same object. */
  class Texture {
    const pixelFormat: PixelFormat
    const width: nat
    const height: nat

    constructor (pixelFormat: PixelFormat, width: nat, height: nat)
      ensures this.pixelFormat == pixelFormat && this.width == width && this.height == height
    {
      this.pixelFormat := pixelFormat;
      this.width := width;
      this.height := height;
    }
  }

  /** The renderer method a timer calls each time it fires. */
  datatype Selector = AddDropSelector | MoveWavesSelector

  /** A run-loop timer: it fires its selector every `timeInterval` seconds
      while it is valid; once invalidated it never fires again. */
  class Timer {
    const timeInterval: real
    const selector: Selector
    const repeats: bool
    var valid: bool

    constructor Scheduled(timeInterval: real, selector: Selector, repeats: bool)
      ensures this.timeInterval == timeInterval && this.selector == selector
      ensures this.repeats == repeats && valid
    {
      this.timeInterval := timeInterval;
      this.selector := selector;
      this.repeats := repeats;
      valid := true;
    }

    method Invalidate()
      modifies this
      ensures !valid
    {
      valid := false;
    }
  }

  /** The copy of a droplet's four words into the uniform buffer. */
  method CopyDroplet(buffer: array<UInt16>, drop: Droplet)
    requires buffer.Length == DropletWords
    modifies buffer
    ensures buffer[..] == Encode(drop)
  {
    buffer[0] := drop.x;
    buffer[1] := drop.y;
    buffer[2] := drop.radius;
    buffer[3] := drop.strength;
  }

  /** Drop-injection period in seconds (20 Hz). */
  const DropInterval: real := 1.0 / 20.0
  /** Wave-propagation period in seconds (120 Hz). */
  const WaveInterval: real := 1.0 / 120.0

  class MetalRenderer {
    const addDropThreadsConfig: ThreadDispatchConfig
    const moveWavesThreadsConfig: ThreadDispatchConfig
    /** The droplet uniform buffer, as the UInt16 words it holds. */
    const dropletBuffer: array<UInt16>
    /** The two height-field buffers. */
    const rainTexture: seq<Texture>
    const rainTextureSize: TextureSize

    /** Latest captured frame, if any has arrived. */
    var imgTexture: Option<Texture>
    var activeRainTextureIndex: int
    var timers: seq<Timer>
    /** Every pass committed to the command queue, in commit order. */
    var committed: seq<Command<Texture>>

    /** A single-channel texture of the field's size. */
    predicate HeightField(t: Texture)
    {
      t.pixelFormat == R16Float &&
      t.width == rainTextureSize.width && t.height == rainTextureSize.height
    }

    /** Object invariant: the buffer holds four words, the two height fields
        are distinct single-channel textures of the field's size, a captured
        frame is a colour texture (so never one of the height fields), the active
        index is the one the committed history leads to, and every committed
        pass obeyed the ping-pong discipline. */
    ghost predicate Valid()
      reads this
    {
      dropletBuffer.Length == DropletWords &&
      |rainTexture| == 2 &&
      HeightField(rainTexture[0]) && HeightField(rainTexture[1]) &&
      (imgTexture.Some? ==> imgTexture.value.pixelFormat == Bgra8Unorm) &&
      activeRainTextureIndex == ActiveAfter(committed) &&
      PingPongLog(rainTexture, committed)
    }

    /** Sets up the dispatch geometry of both compute pipelines from the
        drop pipeline's execution width, allocates the droplet buffer and the
        two height fields, and schedules the two repeating timers. */
    constructor (screen: TextureSize, threadExecutionWidth: int,
                 addDropMaxThreads: int, moveWavesMaxThreads: int)
      requires threadExecutionWidth > 0
      requires addDropMaxThreads >= threadExecutionWidth
      requires moveWavesMaxThreads >= threadExecutionWidth
      ensures Valid()
      ensures rainTextureSize == screen
      ensures addDropThreadsConfig ==
        GenerateThreadDispatchConfig(threadExecutionWidth, addDropMaxThreads, screen)
      ensures moveWavesThreadsConfig ==
        GenerateThreadDispatchConfig(threadExecutionWidth, moveWavesMaxThreads, screen)
      ensures fresh(dropletBuffer) && fresh(rainTexture[0]) && fresh(rainTexture[1])
      ensures imgTexture == None && activeRainTextureIndex == 0 && committed == []
      ensures |timers| == 2 && fresh(timers[0]) && fresh(timers[1])
      ensures timers[0].selector == AddDropSelector && timers[0].timeInterval == DropInterval
      ensures timers[1].selector == MoveWavesSelector && timers[1].timeInterval == WaveInterval
      ensures forall t <- timers :: t.repeats && t.valid
    {
      dropletBuffer := new UInt16[DropletWords];
      rainTextureSize := screen;
      addDropThreadsConfig :=
        GenerateThreadDispatchConfig(threadExecutionWidth, addDropMaxThreads, screen);
      moveWavesThreadsConfig :=
        GenerateThreadDispatchConfig(threadExecutionWidth, moveWavesMaxThreads, screen);
      var a := new Texture(R16Float, screen.width, screen.height);
      var b := new Texture(R16Float, screen.width, screen.height);
      rainTexture := [a, b];
      imgTexture := None;
      activeRainTextureIndex := 0;
      committed := [];
      timers := [];
      new;
      var drops := new Timer.Scheduled(DropInterval, AddDropSelector, true);
      timers := timers + [drops];
      var waves := new Timer.Scheduled(WaveInterval, MoveWavesSelector, true);
      timers := timers + [waves];
    }

    /** Consumes the capture stream: each frame overwrites the slot, so after
        the stream ends (it was stopped or failed) the slot holds the last
        frame delivered, or what it held before if none was. Frames come
        from the capture texture cache as colour textures, never the
        renderer's own height fields. */
    method StartCapture(frames: seq<Texture>)
      requires Valid()
      requires forall f <- frames :: f.pixelFormat == Bgra8Unorm
      modifies this`imgTexture
      ensures Valid()
      ensures frames == [] ==> imgTexture == old(imgTexture)
      ensures frames != [] ==> imgTexture == Some(frames[|frames| - 1])
    {
      for i := 0 to |frames|
        invariant i == 0 ==> imgTexture == old(imgTexture)
        invariant i > 0 ==> imgTexture == Some(frames[i - 1])
      {
        imgTexture := Some(frames[i]);
      }
    }

    /** Invalidates every scheduled timer and forgets them all. With no
        timers left it changes nothing, so stopping twice is harmless. */
    method StopTimers()
      modifies this`timers, timers
      ensures timers == []
      ensures forall t <- old(timers) :: !t.valid
      ensures old(timers) == [] ==> unchanged(this)
    {
      for i := 0 to |timers|
        invariant timers == old(timers)
        invariant forall k :: 0 <= k < i ==> !timers[k].valid
      {
        timers[i].Invalidate();
      }
      timers := [];
    }

    /** The 20 Hz tick. `encoderMade` says whether a command buffer and a
        compute encoder could be made; `drop` is the droplet the tick draws
        at random. On success the droplet is copied into the buffer and a
        drop pass against the active height field is committed; otherwise
        nothing happens. The active index never changes. */
    method AddDrop(encoderMade: bool, drop: Droplet)
      requires Valid()
      requires encoderMade ==> ExtentFitsUInt16(rainTextureSize)
      requires encoderMade ==> InRange(drop, rainTextureSize)
      modifies this`committed, dropletBuffer
      ensures Valid()
      ensures activeRainTextureIndex == old(activeRainTextureIndex)
      ensures encoderMade ==>
        dropletBuffer[..] == Encode(drop) &&
        committed == old(committed) +
          [AddDropPass(rainTexture[activeRainTextureIndex], drop, addDropThreadsConfig)]
      ensures !encoderMade ==>
        dropletBuffer[..] == old(dropletBuffer[..]) && committed == old(committed)
    {
      if !encoderMade {
        return;
      }
      var target := rainTexture[activeRainTextureIndex];
      CopyDroplet(dropletBuffer, drop);
      var pass := AddDropPass(target, drop, addDropThreadsConfig);
      PingPongAppend(rainTexture, committed, pass);
      committed := committed + [pass];
    }

    /** The 120 Hz tick. On success it commits a wave pass that reads the
        active height field and writes the other one, then flips the active
        index; otherwise nothing happens. */
    method MoveWaves(encoderMade: bool)
      requires Valid()
      modifies this`committed, this`activeRainTextureIndex
      ensures Valid()
      ensures 0 <= activeRainTextureIndex <= 1
      ensures activeRainTextureIndex == MoveCount(committed) % 2
      ensures encoderMade ==>
        committed == old(committed) +
          [MoveWavesPass(rainTexture[old(activeRainTextureIndex)],
                         rainTexture[1 - old(activeRainTextureIndex)],
                         moveWavesThreadsConfig)] &&
        activeRainTextureIndex == 1 - old(activeRainTextureIndex)
      ensures !encoderMade ==>
        committed == old(committed) && activeRainTextureIndex == old(activeRainTextureIndex)
    {
      if !encoderMade {
        ActiveIsParity(committed);
        return;
      }
      var a := activeRainTextureIndex;
      var pass := MoveWavesPass(rainTexture[a], rainTexture[1 - a], moveWavesThreadsConfig);
      FlipStep(rainTexture, committed, pass);
      committed := committed + [pass];
      activeRainTextureIndex := 1 - a;
    }

    /** The per-refresh draw. `passMade` says whether a render pass
        descriptor, a command buffer and a render encoder could be made.
        Without a captured frame, or without those, nothing is drawn.
        Otherwise one pass is committed that samples the latest frame at
        fragment slot 0 and the active height field at slot 1 and draws a
        four-vertex triangle strip once. */
    method Draw(passMade: bool)
      requires Valid()
      modifies this`committed
      ensures Valid()
      ensures activeRainTextureIndex == old(activeRainTextureIndex)
      ensures imgTexture.Some? && passMade ==>
        committed == old(committed) +
          [DrawPass(imgTexture.value, rainTexture[activeRainTextureIndex],
                    TriangleStrip, 0, 4, 1)]
      ensures imgTexture.None? || !passMade ==> committed == old(committed)
      ensures imgTexture.Some? ==> imgTexture.value !in rainTexture
    {
      if imgTexture.None? || !passMade {
        return;
      }
      var pass := DrawPass(imgTexture.value, rainTexture[activeRainTextureIndex],
                           TriangleStrip, 0, 4, 1);
      PingPongAppend(rainTexture, committed, pass);
      committed := committed + [pass];
    }

    /** The run loop firing timer `t`: a valid timer runs its tick, an
        invalidated one does nothing, so after StopTimers no tick commits
        any further pass. */
    method Fire(t: Timer, encoderMade: bool, drop: Droplet)
      requires Valid()
      requires t.valid && t.selector == AddDropSelector && encoderMade ==>
        ExtentFitsUInt16(rainTextureSize) && InRange(drop, rainTextureSize)
      modifies this`committed, this`activeRainTextureIndex, dropletBuffer
      ensures Valid()
      ensures !t.valid || !encoderMade ==>
        committed == old(committed) &&
        activeRainTextureIndex == old(activeRainTextureIndex) &&
        dropletBuffer[..] == old(dropletBuffer[..])
      ensures t.valid && encoderMade && t.selector == AddDropSelector ==>
        dropletBuffer[..] == Encode(drop) &&
        activeRainTextureIndex == old(activeRainTextureIndex) &&
        committed == old(committed) +
          [AddDropPass(rainTexture[old(activeRainTextureIndex)], drop, addDropThreadsConfig)]
      ensures t.valid && encoderMade && t.selector == MoveWavesSelector ==>
        dropletBuffer[..] == old(dropletBuffer[..]) &&
        activeRainTextureIndex == 1 - old(activeRainTextureIndex) &&
        committed == old(committed) +
          [MoveWavesPass(rainTexture[old(activeRainTextureIndex)],
                         rainTexture[1 - old(activeRainTextureIndex)],
                         moveWavesThreadsConfig)]
    {
      if !t.valid {
        return;
      }
      match t.selector
      case AddDropSelector => AddDrop(encoderMade, drop);
      case MoveWavesSelector => MoveWaves(encoderMade);
    }
  }
}
