/**
  The state of one open track (`TrackData` in src/audio_controller.rs) as a value, and the two
  operations on it, pulling one sample and seeking, as functions. The class `TrackData` in
  module AudioController is proved to update its fields exactly as these functions say; the
  lemmas below say what the functions guarantee.

  Times are `Duration`s in the source; here they are natural numbers of nanoseconds.
*/
module TrackCursor {
  import opened Wrappers

  /** A signed 16-bit PCM sample. */
  newtype int16 = x: int | -0x8000 <= x < 0x8000

  /** One decoded frame: sample rate, channel count and interleaved samples. */
  datatype Frame = Frame(sampleRate: int, channels: int, data: seq<int16>)

  /**
    The forward-only frame decoder: the frames of the file and the position of the next one.
    Once the position reaches the end every further request fails, as the decoder keeps
    reporting end of stream (a mid-stream decode error is read the same way by the source).
  */
  datatype Decoder = Decoder(frames: seq<Frame>, pos: nat) {
    predicate Exhausted() {
      pos >= |frames|
    }

    /** One call of `next_frame`: the next frame and the decoder after it. */
    function NextFrame(): (Option<Frame>, Decoder) {
      if pos < |frames| then (Some(frames[pos]), Decoder(frames, pos + 1)) else (None, this)
    }
  }

  /** The interleaved samples of a run of frames, in order. */
  function Samples(fs: seq<Frame>): seq<int16> {
    if fs == [] then [] else fs[0].data + Samples(fs[1..])
  }

  lemma SamplesAt(fs: seq<Frame>, k: nat)
    requires k < |fs|
    ensures Samples(fs[k..]) == fs[k].data + Samples(fs[k + 1..])
  {
    assert fs[k..][1..] == fs[k + 1..];
  }

  /** The fields of `TrackData` that its operations read or write. */
  datatype Cursor = Cursor(
    decoder: Decoder,             // the forward-only decoder
    iter: seq<int16>,             // what is left of the frame being read
    prevFrames: seq<Frame>,       // the history of decoded frames
    frameIndex: nat,              // the next history frame to replay
    framesPassed: nat,            // frames decoded after the first one
    maxTimeStamp: nat,            // the high-water mark
    timestamp: nat,               // the read position
    sampleDuration: nat,          // nanoseconds per sample
    frames: nat,                  // frame count from the file's metadata
    duration: nat,                // duration from the file's metadata
    currentSample: Option<int16>, // the last value `get_sample` returned
    isActive: bool)               // set once a sample has been produced

  /**
    The invariant every operation keeps. The first decoded frame is read by the constructor and
    never pushed to the history, so the history holds the decoded frames 1, 2, ... and the
    history index k holds decoded frame k + 1.
  */
  predicate Valid(c: Cursor) {
    && 1 <= c.decoder.pos <= |c.decoder.frames|
    && c.prevFrames == c.decoder.frames[1..c.decoder.pos]
    && c.framesPassed == |c.prevFrames|
    && c.frameIndex <= |c.prevFrames|
    && c.duration > 0
  }

  /** The samples the leading edge will produce: the current frame's rest, then the undecoded frames. */
  function Ahead(c: Cursor): seq<int16>
    requires c.decoder.pos <= |c.decoder.frames|
  {
    c.iter + Samples(c.decoder.frames[c.decoder.pos..])
  }

  /** The samples a replay will produce: the current frame's rest, then the history from `frameIndex`. */
  function Behind(c: Cursor): seq<int16>
    requires c.frameIndex <= |c.prevFrames|
  {
    c.iter + Samples(c.prevFrames[c.frameIndex..])
  }

  /** The fields fixed when the track is opened are the same in both states. */
  predicate SameTrack(c': Cursor, c: Cursor) {
    && c'.sampleDuration == c.sampleDuration
    && c'.frames == c.frames
    && c'.duration == c.duration
    && c'.decoder.frames == c.decoder.frames
  }

  predicate AtLeadingEdge(c: Cursor) {
    c.timestamp == c.maxTimeStamp
  }

  /**
    What `get_sample` needs to finish without panicking: off the leading edge it indexes the
    history past the current frame, which must not run out before a sample is found.
  */
  predicate CanPull(c: Cursor)
    requires Valid(c)
  {
    AtLeadingEdge(c) || Behind(c) != []
  }

  /** `get_sample` (src/audio_controller.rs:79-123): the sample produced, if any, and the new state. */
  function Pull(c: Cursor): (pulled: (Option<int16>, Cursor))
    requires Valid(c) && CanPull(c)
    ensures pulled.1.currentSample == pulled.0
    ensures SameTrack(pulled.1, c)
    ensures pulled.0.Some? ==> pulled.1.isActive
    decreases if AtLeadingEdge(c) then 0 else 1,
              |c.decoder.frames| - c.decoder.pos, |c.prevFrames| - c.frameIndex
  {
    if AtLeadingEdge(c) then
      if c.iter != [] then
        var ts := c.timestamp + c.sampleDuration;
        (Some(c.iter[0]), c.(iter := c.iter[1..], timestamp := ts, isActive := true,
                             maxTimeStamp := ts, currentSample := Some(c.iter[0])))
      else
        match c.decoder.NextFrame()
        case (None, d) =>
          (None, c.(decoder := d, maxTimeStamp := c.timestamp, currentSample := None))
        case (Some(f), d) =>
          var c1 := c.(decoder := d, framesPassed := c.framesPassed + 1,
                       prevFrames := c.prevFrames + [f], iter := f.data);
          assert c1.prevFrames == c.decoder.frames[1..d.pos];
          var (r, c2) := Pull(c1);
          (r, c2.(maxTimeStamp := c2.timestamp, currentSample := r))
    else if c.iter != [] then
      (Some(c.iter[0]), c.(iter := c.iter[1..], timestamp := c.timestamp + c.sampleDuration,
                           isActive := true, currentSample := Some(c.iter[0])))
    else
      assert c.frameIndex < |c.prevFrames|;
      SamplesAt(c.prevFrames, c.frameIndex);
      var c1 := c.(iter := c.prevFrames[c.frameIndex].data, frameIndex := c.frameIndex + 1);
      var (r, c2) := Pull(c1);
      (r, c2.(currentSample := r))
  }

  /**
    On the leading edge `get_sample` returns the next sample of the track and nothing else:
    `None` exactly when the current frame and every undecoded frame are used up, otherwise the
    head of `Ahead`, one sample duration later, with the high-water mark following the read
    position. Frames it decodes on the way are appended to the history.
  */
  lemma {:induction false} PullAtLeadingEdge(c: Cursor)
    requires Valid(c) && AtLeadingEdge(c)
    ensures var (r, c') := Pull(c);
      && Valid(c')
      && r == (if Ahead(c) == [] then None else Some(Ahead(c)[0]))
      && (Ahead(c) != [] ==>
            && Ahead(c') == Ahead(c)[1..]
            && c'.timestamp == c.timestamp + c.sampleDuration
            && c'.isActive)
      && (Ahead(c) == [] ==>
            c' == c.(decoder := c'.decoder, prevFrames := c'.prevFrames,
                     framesPassed := c'.framesPassed, iter := [], currentSample := None)
            && c'.decoder.Exhausted())
      && c'.maxTimeStamp == c'.timestamp
      && c'.currentSample == r
      && c'.decoder.frames == c.decoder.frames
      && c.decoder.pos <= c'.decoder.pos
      && c'.frameIndex == c.frameIndex
      && SameTrack(c', c)
    decreases |c.decoder.frames| - c.decoder.pos
  {
    if c.iter == [] && c.decoder.pos < |c.decoder.frames| {
      var (f, d) := c.decoder.NextFrame();
      var c1 := c.(decoder := d, framesPassed := c.framesPassed + 1,
                   prevFrames := c.prevFrames + [f.value], iter := f.value.data);
      assert c1.prevFrames == c.decoder.frames[1..d.pos];
      SamplesAt(c.decoder.frames, c.decoder.pos);
      assert Ahead(c1) == Ahead(c);
      PullAtLeadingEdge(c1);
    }
  }

  /**
    Off the leading edge `get_sample` replays the history: it returns the head of `Behind`,
    never calls the decoder and leaves the history and the high-water mark as they were.
  */
  lemma {:induction false} PullReplay(c: Cursor)
    requires Valid(c) && !AtLeadingEdge(c) && Behind(c) != []
    ensures var (r, c') := Pull(c);
      && Valid(c')
      && r == Some(Behind(c)[0])
      && Behind(c') == Behind(c)[1..]
      && c'.timestamp == c.timestamp + c.sampleDuration
      && c'.decoder == c.decoder
      && c'.prevFrames == c.prevFrames
      && c'.framesPassed == c.framesPassed
      && c'.maxTimeStamp == c.maxTimeStamp
      && c'.currentSample == r
      && c'.isActive
      && SameTrack(c', c)
    decreases |c.prevFrames| - c.frameIndex
  {
    if c.iter == [] {
      SamplesAt(c.prevFrames, c.frameIndex);
      var c1 := c.(iter := c.prevFrames[c.frameIndex].data, frameIndex := c.frameIndex + 1);
      assert Behind(c1) == Behind(c);
      PullReplay(c1);
    }
  }

  /**
    End of track: with the current frame used up and the decoder exhausted, `get_sample`
    produces nothing, changes nothing but the last-sample field, and does the same again on
    every later call.
  */
  lemma PullAtEnd(c: Cursor)
    requires Valid(c) && AtLeadingEdge(c) && c.iter == [] && c.decoder.Exhausted()
    ensures Pull(c) == (None, c.(currentSample := None))
    ensures Valid(Pull(c).1) && Pull(Pull(c).1) == Pull(c)
  {
  }

  /** The high-water mark never decreases under `get_sample`. */
  lemma PullKeepsHighWater(c: Cursor)
    requires Valid(c) && CanPull(c)
    ensures Pull(c).1.maxTimeStamp >= c.maxTimeStamp
  {
    if AtLeadingEdge(c) {
      PullAtLeadingEdge(c);
    } else {
      PullReplay(c);
    }
  }

  /**
    A replay step moves the read position by exactly one sample duration and leaves the
    high-water mark, so it keeps the read position's remainder modulo the sample duration. When
    that remainder differs from the high-water mark's, as after most backward seeks, the replay
    never lands on the high-water mark: it stays off the leading edge until the history runs out,
    and then `prev_frames[frame_index]` (src/audio_controller.rs:113) is out of range.
  */
  lemma ReplayMissesLeadingEdge(c: Cursor)
    requires Valid(c) && CanPull(c) && !AtLeadingEdge(c) && c.sampleDuration > 0
    requires c.timestamp % c.sampleDuration != c.maxTimeStamp % c.sampleDuration
    ensures var c' := Pull(c).1;
      && Valid(c') && !AtLeadingEdge(c')
      && c'.maxTimeStamp == c.maxTimeStamp
      && c'.sampleDuration == c.sampleDuration
      && c'.timestamp % c.sampleDuration == c.timestamp % c.sampleDuration
  {
    PullReplay(c);
    ShiftRemainder(c.timestamp, c.sampleDuration);
  }

  lemma ShiftRemainder(a: nat, d: nat)
    requires d > 0
    ensures (a + d) % d == a % d
  {
    var q, r := a / d, a % d;
    var q', r' := (a + d) / d, (a + d) % d;
    var x := q' - q - 1;
    assert d * x == r - r' by {
      assert d * q' + r' == d * q + r + d;
      assert d * x == d * q' - d * q - d;
    }
  }

  /** Every operation keeps the history equal to the decoded frames after the first. */
  lemma PullKeepsValid(c: Cursor)
    requires Valid(c) && CanPull(c)
    ensures Valid(Pull(c).1)
    ensures Pull(c).1.framesPassed == |Pull(c).1.prevFrames|
  {
    if AtLeadingEdge(c) {
      PullAtLeadingEdge(c);
    } else {
      PullReplay(c);
    }
  }

  /**
    `k` calls of `get_sample` in a row from the leading edge, as the output callback makes them:
    the values returned and the state after the last call.
  */
  function PullMany(c: Cursor, k: nat): (Pulls: (seq<Option<int16>>, Cursor))
    requires Valid(c) && AtLeadingEdge(c)
    ensures Valid(Pulls.1) && AtLeadingEdge(Pulls.1) && SameTrack(Pulls.1, c)
    decreases k
  {
    if k == 0 then ([], c)
    else
      PullAtLeadingEdge(c);
      var (r, c1) := Pull(c);
      var (rs, c2) := PullMany(c1, k - 1);
      ([r] + rs, c2)
  }

  /**
    From the leading edge, successive calls return the rest of the track in order, and `None` on
    every call once the track is used up.
  */
  lemma {:induction false} LeadingEdgePlaysInOrder(c: Cursor, k: nat)
    requires Valid(c) && AtLeadingEdge(c)
    ensures var rs := PullMany(c, k).0;
      && |rs| == k
      && forall i :: 0 <= i < k ==> rs[i] == if i < |Ahead(c)| then Some(Ahead(c)[i]) else None
    decreases k
  {
    if k > 0 {
      PullAtLeadingEdge(c);
      var a := Ahead(c);
      var c1 := Pull(c).1;
      LeadingEdgePlaysInOrder(c1, k - 1);
      var all := [Pull(c).0] + PullMany(c1, k - 1).0;
      assert PullMany(c, k).0 == all;
      if a == [] {
        assert Ahead(c1) == [] by {
          assert c1.decoder.frames[c1.decoder.pos..] == [];
        }
      } else {
        assert Ahead(c1) == a[1..];
      }
      forall i | 0 <= i < k
        ensures all[i] == if i < |a| then Some(a[i]) else None
      {
        if i > 0 {
          assert all[i] == PullMany(c1, k - 1).0[i - 1];
        }
      }
    }
  }

  /**
    Each of those calls that returns a sample advances the read position by exactly one sample
    duration, and the others leave it alone; the high-water mark follows the read position.
  */
  lemma {:induction false} LeadingEdgeTiming(c: Cursor, k: nat)
    requires Valid(c) && AtLeadingEdge(c)
    ensures var c' := PullMany(c, k).1;
      && c'.timestamp == c.timestamp + Min(k, |Ahead(c)|) * c.sampleDuration
      && c'.maxTimeStamp == c'.timestamp
      && SameTrack(c', c)
    decreases k
  {
    if k > 0 {
      var c1 := Pull(c).1;
      TimingStep(c);
      LeadingEdgeTiming(c1, k - 1);
      assert PullMany(c, k).1 == PullMany(c1, k - 1).1;
      MinStep(k, |Ahead(c)|, c.sampleDuration);
    }
  }

  lemma MinStep(k: nat, n: nat, sd: nat)
    requires k > 0
    ensures n == 0 ==> Min(k, n) * sd == 0 && Min(k - 1, n) * sd == 0
    ensures n > 0 ==> Min(k, n) * sd == Min(k - 1, n - 1) * sd + sd
  {
    if n > 0 {
      assert Min(k, n) == Min(k - 1, n - 1) + 1;
    }
  }

  /** One call of `LeadingEdgeTiming`: one sample duration and one sample fewer, unless at the end. */
  lemma TimingStep(c: Cursor)
    requires Valid(c) && AtLeadingEdge(c)
    ensures var c1 := Pull(c).1;
      && Valid(c1) && AtLeadingEdge(c1) && SameTrack(c1, c)
      && (Ahead(c) == [] ==> c1.timestamp == c.timestamp && Ahead(c1) == [])
      && (Ahead(c) != [] ==> c1.timestamp == c.timestamp + c.sampleDuration
                             && |Ahead(c1)| == |Ahead(c)| - 1)
  {
    PullAtLeadingEdge(c);
    var c1 := Pull(c).1;
    if Ahead(c) == [] {
      assert c1.decoder.frames[c1.decoder.pos..] == [];
    }
  }


  /**
    The frame a timestamp falls in, estimated as the fraction `t / duration` of the frame count
    (src/audio_controller.rs:127), rounded down. A target within the track never lies past the
    last frame.
  */
  function FrameAt(t: nat, frames: nat, duration: nat): (k: nat)
    requires duration > 0
    ensures t <= duration ==> k <= frames
  {
    if t <= duration then
      MultiplyMonotone(t, duration, frames);
      DivideBound(t * frames, duration, frames);
      t * frames / duration
    else
      t * frames / duration
  }

  lemma MultiplyMonotone(a: nat, b: nat, k: nat)
    requires a <= b
    ensures a * k <= b * k
  {
  }

  lemma DivideBound(n: nat, d: nat, m: nat)
    requires d > 0 && n <= d * m
    ensures n / d <= m
  {
    if n / d > m {
      MultiplyMonotone(m + 1, n / d, d);
    }
  }

  /** What `set_timestamp` needs to finish without panicking. */
  predicate CanSeek(c: Cursor, t: nat) {
    && c.duration > 0
    && var k := FrameAt(t, c.frames, c.duration);
       // forward: the loop bound `frame_at_timestamp - frames_passed` is a usize subtraction
       if t >= c.maxTimeStamp then c.framesPassed <= k
       // backward: the history is indexed at `frame_at_timestamp`
       else k < |c.prevFrames|
  }

  /** One iteration of the decoding loop of `set_timestamp`: a successful decode is pushed. */
  function DecodeOne(c: Cursor): Cursor {
    match c.decoder.NextFrame()
    case (Some(f), d) =>
      c.(decoder := d, framesPassed := c.framesPassed + 1, prevFrames := c.prevFrames + [f])
    case (None, d) => c.(decoder := d)
  }

  /** `n` iterations of the decoding loop. */
  function DecodeAhead(c: Cursor, n: nat): Cursor {
    if n == 0 then c else DecodeOne(DecodeAhead(c, n - 1))
  }

  /** `set_timestamp` (src/audio_controller.rs:124-142). */
  function Seek(c: Cursor, t: nat): (s: Cursor)
    requires Valid(c) && CanSeek(c, t)
    ensures s.timestamp == t && SameTrack(s, c)
    ensures s.maxTimeStamp == if t >= c.maxTimeStamp then t else c.maxTimeStamp
  {
    var k := FrameAt(t, c.frames, c.duration);
    if t >= c.maxTimeStamp then
      DecodeAheadAppends(c.(timestamp := t, maxTimeStamp := t), k - c.framesPassed);
      DecodeAhead(c.(timestamp := t, maxTimeStamp := t), k - c.framesPassed)
    else
      c.(timestamp := t, frameIndex := k, iter := c.prevFrames[k].data)
  }

  function Min(a: nat, b: nat): nat {
    if a <= b then a else b
  }

  /**
    `n` rounds of the decoding loop decode `n` frames or up to the end of the stream, whichever
    comes first, and append exactly those frames to the history; nothing else changes.
  */
  lemma {:induction false} DecodeAheadAppends(c: Cursor, n: nat)
    requires Valid(c)
    ensures var c' := DecodeAhead(c, n);
      && Valid(c')
      && c'.decoder.frames == c.decoder.frames
      && c'.decoder.pos == Min(c.decoder.pos + n, |c.decoder.frames|)
      && c'.prevFrames == c.prevFrames + c.decoder.frames[c.decoder.pos..c'.decoder.pos]
      && c' == c.(decoder := c'.decoder, prevFrames := c'.prevFrames,
                  framesPassed := c'.framesPassed)
  {
    if n > 0 {
      DecodeAheadAppends(c, n - 1);
      var c1 := DecodeAhead(c, n - 1);
      if c1.decoder.pos < |c1.decoder.frames| {
        assert c1.prevFrames + [c1.decoder.frames[c1.decoder.pos]]
            == c1.decoder.frames[1..c1.decoder.pos + 1];
        assert c.decoder.frames[c.decoder.pos..c1.decoder.pos + 1]
            == c.decoder.frames[c.decoder.pos..c1.decoder.pos] + [c1.decoder.frames[c1.decoder.pos]];
      }
    }
  }

  /**
    A forward seek (to a target at or past the high-water mark) puts the read position and the
    high-water mark at the target, decodes at most `frame_at_timestamp - frames_passed` frames,
    ending with as many frames passed as the target frame index unless the stream ends first,
    and leaves the frame being read and the replay index alone.
  */
  lemma SeekForward(c: Cursor, t: nat)
    requires Valid(c) && CanSeek(c, t) && t >= c.maxTimeStamp
    ensures var c' := Seek(c, t);
      && Valid(c')
      && c' == c.(timestamp := t, maxTimeStamp := t, decoder := c'.decoder,
                  prevFrames := c'.prevFrames, framesPassed := c'.framesPassed)
      && c.prevFrames <= c'.prevFrames
      && |c'.prevFrames| - |c.prevFrames| <= FrameAt(t, c.frames, c.duration) - c.framesPassed
      && (c'.framesPassed == FrameAt(t, c.frames, c.duration) || c'.decoder.Exhausted())
      && c'.iter == c.iter && c'.frameIndex == c.frameIndex
  {
    DecodeAheadAppends(c.(timestamp := t, maxTimeStamp := t),
                       FrameAt(t, c.frames, c.duration) - c.framesPassed);
  }

  /** The decoding loop on an exhausted decoder changes nothing. */
  lemma {:induction false} DecodeAheadExhausted(c: Cursor, n: nat)
    requires c.decoder.Exhausted()
    ensures DecodeAhead(c, n) == c
  {
    if n > 0 {
      DecodeAheadExhausted(c, n - 1);
    }
  }

  /**
    Seeking forward twice to the same target is the same as seeking once: the second seek is
    allowed and decodes nothing.
  */
  lemma SeekForwardIdempotent(c: Cursor, t: nat)
    requires Valid(c) && CanSeek(c, t) && t >= c.maxTimeStamp
    ensures Valid(Seek(c, t)) && CanSeek(Seek(c, t), t)
    ensures Seek(Seek(c, t), t) == Seek(c, t)
  {
    var c1 := Seek(c, t);
    SeekForward(c, t);
    var k := FrameAt(t, c.frames, c.duration);
    if c1.framesPassed == k {
      assert Seek(c1, t) == DecodeAhead(c1, 0);
    } else {
      DecodeAheadExhausted(c1, k - c1.framesPassed);
    }
  }

  /**
    A backward seek never calls the decoder and keeps the history and the high-water mark. The
    replay that follows reads history frame `k = frame_at_timestamp` and then the history from
    index `k` on: `frame_index` is set to `k` and not past it, so frame `k` is played twice.
  */
  lemma SeekBackward(c: Cursor, t: nat)
    requires Valid(c) && CanSeek(c, t) && t < c.maxTimeStamp
    ensures var c' := Seek(c, t);
      && Valid(c')
      && c'.timestamp == t
      && c'.decoder == c.decoder
      && c'.prevFrames == c.prevFrames
      && c'.framesPassed == c.framesPassed
      && c'.maxTimeStamp == c.maxTimeStamp
      && !AtLeadingEdge(c')
      && var k := FrameAt(t, c.frames, c.duration);
         Behind(c') == c.prevFrames[k].data + Samples(c.prevFrames[k..])
  {
  }

  /** The high-water mark never decreases under `set_timestamp`. */
  lemma SeekKeepsHighWater(c: Cursor, t: nat)
    requires Valid(c) && CanSeek(c, t)
    ensures Valid(Seek(c, t))
    ensures Seek(c, t).maxTimeStamp >= c.maxTimeStamp
  {
    if t >= c.maxTimeStamp {
      SeekForward(c, t);
    } else {
      SeekBackward(c, t);
    }
  }

  /** What `TrackData::new` needs: a first frame with a positive sample rate times channel count. */
  predicate CanOpen(source: seq<Frame>, duration: nat) {
    |source| >= 1 && source[0].sampleRate * source[0].channels > 0 && duration > 0
  }

  /**
    The state `TrackData::new` builds before its `set_timestamp(0)` (src/audio_controller.rs:41-75):
    the first frame decoded and being read, an empty history, all positions zero.
  */
  function Open(source: seq<Frame>, duration: nat, frames: nat): (o: Cursor)
    requires CanOpen(source, duration)
    ensures Valid(o) && AtLeadingEdge(o) && Ahead(o) == Samples(source)
  {
    Cursor(
      decoder := Decoder(source, 1), iter := source[0].data, prevFrames := [],
      frameIndex := 0, framesPassed := 0, maxTimeStamp := 0, timestamp := 0,
      sampleDuration := 1_000_000_000 / (source[0].sampleRate * source[0].channels),
      frames := frames, duration := duration, currentSample := None, isActive := false)
  }

  /** The constructor's closing `set_timestamp(0)` is allowed and decodes nothing. */
  lemma OpenThenSeekZero(source: seq<Frame>, duration: nat, frames: nat)
    requires CanOpen(source, duration)
    ensures Valid(Open(source, duration, frames))
    ensures CanSeek(Open(source, duration, frames), 0)
    ensures Seek(Open(source, duration, frames), 0) == Open(source, duration, frames)
  {
  }
}
