/**
  The stateful side of src/audio_controller.rs: `TrackData`, the cursor over one decoded track,
  and `AudioPlayer`, the transport, volume and track-switching rules around it. Each method
  updates the fields the source updates; `TrackData`'s methods are proved to do exactly what the
  functions of module TrackCursor say.
*/
module AudioController {
  import opened Wrappers
  import opened TrackCursor

  class TrackData {
    const path: string
    var decoder: Decoder
    var iter: seq<int16>
    var prevFrames: seq<Frame>
    var frameIndex: nat
    var framesPassed: nat
    var maxTimeStamp: nat
    const sampleRate: int
    const channels: int
    const frames: nat
    const duration: nat
    var currentSample: Option<int16>
    var timestamp: nat
    const sampleDuration: nat
    var isActive: bool

    /** The fields as a `TrackCursor.Cursor` value. */
    function Snapshot(): Cursor
      reads this
    {
      Cursor(decoder, iter, prevFrames, frameIndex, framesPassed, maxTimeStamp, timestamp,
             sampleDuration, frames, duration, currentSample, isActive)
    }

    ghost predicate Valid()
      reads this
    {
      TrackCursor.Valid(Snapshot())
    }

    /**
      `TrackData::new` (src/audio_controller.rs:41-78) for a file whose frames are `source` and
      whose metadata gives `duration` and `frameCount`. The first frame is decoded and read from,
      and fixes the sample rate and channel count; the closing `set_timestamp(0)` decodes nothing.
    */
    constructor (path: string, source: seq<Frame>, duration: nat, frameCount: nat)
      requires CanOpen(source, duration)
      ensures Valid()
      ensures Snapshot() == Open(source, duration, frameCount)
      ensures this.path == path
      ensures sampleRate == source[0].sampleRate && channels == source[0].channels
      ensures timestamp == 0 && maxTimeStamp == 0 && framesPassed == 0 && prevFrames == []
      ensures decoder.pos == 1 && iter == source[0].data
      ensures sampleDuration == 1_000_000_000 / (sampleRate * channels)
    {
      this.path := path;
      var first, rest := Decoder(source, 0).NextFrame().0.value, Decoder(source, 0).NextFrame().1;
      decoder := rest;
      sampleRate := first.sampleRate;
      channels := first.channels;
      iter := first.data;
      sampleDuration := 1_000_000_000 / (first.sampleRate * first.channels);
      this.duration := duration;
      frames := frameCount;
      prevFrames := [];
      frameIndex := 0;
      framesPassed := 0;
      maxTimeStamp := 0;
      timestamp := 0;
      currentSample := None;
      isActive := false;
      new;
      OpenThenSeekZero(source, duration, frameCount);
      SetTimestamp(0);
    }

    /**
      `get_sample` (src/audio_controller.rs:79-123). On the leading edge it reads the current
      frame and decodes the next one when that runs out; otherwise it replays the history.
    */
    method GetSample() returns (r: Option<int16>)
      requires Valid() && CanPull(Snapshot())
      modifies this
      ensures Valid()
      ensures (r, Snapshot()) == Pull(old(Snapshot()))
      decreases if timestamp == maxTimeStamp then 0 else 1,
                |decoder.frames| - decoder.pos, |prevFrames| - frameIndex, 1
    {
      if timestamp == maxTimeStamp {
        r := LeadingEdgeSample();
      } else {
        r := ReplaySample();
      }
      currentSample := r;
    }

    /** The leading-edge branch of `get_sample` (lines 82-102), before `current_sample` is set. */
    method LeadingEdgeSample() returns (r: Option<int16>)
      requires Valid() && timestamp == maxTimeStamp
      modifies this
      ensures Valid()
      ensures (r, Snapshot().(currentSample := r)) == Pull(old(Snapshot()))
      decreases 0, |decoder.frames| - decoder.pos, |prevFrames| - frameIndex, 0
    {
      r := None;
      if iter != [] {
        r := NextInFrame();
      } else {
        var (next, d) := decoder.NextFrame();
        decoder := d;
        if next.Some? {
          framesPassed := framesPassed + 1;
          prevFrames := prevFrames + [next.value];
          iter := next.value.data;
          assert prevFrames == decoder.frames[1..decoder.pos];
          r := GetSample();
        }
      }
      maxTimeStamp := timestamp;
    }

    /** The replay branch of `get_sample` (lines 104-119), before `current_sample` is set. */
    method ReplaySample() returns (r: Option<int16>)
      requires Valid() && timestamp != maxTimeStamp && Behind(Snapshot()) != []
      modifies this
      ensures Valid()
      ensures (r, Snapshot().(currentSample := r)) == Pull(old(Snapshot()))
      decreases 1, |decoder.frames| - decoder.pos, |prevFrames| - frameIndex, 0
    {
      if iter != [] {
        r := NextInFrame();
      } else {
        SamplesAt(prevFrames, frameIndex);
        iter := prevFrames[frameIndex].data;
        frameIndex := frameIndex + 1;
        r := GetSample();
      }
    }

    /** One step of the frame iterator that yields a sample (lines 85-89 and 107-111). */
    method NextInFrame() returns (r: Option<int16>)
      requires iter != []
      modifies `iter, `timestamp, `isActive
      ensures r == Some(old(iter)[0]) && iter == old(iter)[1..]
      ensures timestamp == old(timestamp) + sampleDuration && isActive
    {
      r := Some(iter[0]);
      iter := iter[1..];
      timestamp := timestamp + sampleDuration;
      isActive := true;
    }

    /**
      `set_timestamp` (src/audio_controller.rs:124-142): a seek at or past the high-water mark
      decodes ahead, a seek behind it re-indexes the history.
    */
    method SetTimestamp(t: nat)
      requires Valid() && CanSeek(Snapshot(), t)
      modifies this
      ensures Valid()
      ensures Snapshot() == Seek(old(Snapshot()), t)
    {
      timestamp := t;
      var frameAtTimestamp := FrameAt(t, frames, duration);
      if timestamp >= maxTimeStamp {
        maxTimeStamp := timestamp;
        DecodeFrames(frameAtTimestamp - framesPassed);
      } else {
        frameIndex := frameAtTimestamp;
        iter := prevFrames[frameIndex].data;
      }
    }

    /** The decoding loop of `set_timestamp` (lines 131-136): every successful decode is pushed. */
    method DecodeFrames(n: nat)
      requires Valid()
      modifies `decoder, `framesPassed, `prevFrames
      ensures Valid()
      ensures Snapshot() == DecodeAhead(old(Snapshot()), n)
    {
      ghost var start := Snapshot();
      for i := 0 to n
        invariant Snapshot() == DecodeAhead(start, i)
      {
        DecodeAheadAppends(start, i);
        var (frame, d) := decoder.NextFrame();
        decoder := d;
        if frame.Some? {
          framesPassed := framesPassed + 1;
          prevFrames := prevFrames + [frame.value];
        }
      }
      DecodeAheadAppends(start, n);
    }
  }

  /** The three frames of the scenario below, holding 2, 2 and 1 samples. */
  const ThreeFrames: seq<Frame> := [Frame(44100, 2, [1, 2]), Frame(44100, 2, [3, 4]), Frame(44100, 2, [5])]

  /** One sample lasts 1_000_000_000 / (44100 * 2) nanoseconds. */
  const ThreeFramesSample: nat := 11337

  /**
    The cursor over `ThreeFrames` after `step` calls of the scenario below: three samples read,
    a seek back to 0 (step 3), five more samples read.
  */
  function ThreeFramesState(step: nat): Cursor
    requires step <= 9
  {
    var sd := ThreeFramesSample;
    var (pos, iter, index, ts, max, cur) :=
      match step
      case 0 => (1, [1, 2], 0, 0, 0, None)
      case 1 => (1, [2], 0, 1, 1, Some(1))
      case 2 => (1, [], 0, 2, 2, Some(2))
      case 3 => (2, [4], 0, 3, 3, Some(3))
      case 4 => (2, [3, 4], 0, 0, 3, Some(3))
      case 5 => (2, [4], 0, 1, 3, Some(3))
      case 6 => (2, [], 0, 2, 3, Some(4))
      case 7 => (2, [4], 1, 3, 3, Some(3))
      case 8 => (2, [], 1, 4, 4, Some(4))
      case _ => (3, [], 1, 5, 5, Some(5));
    Cursor(Decoder(ThreeFrames, pos), iter, ThreeFrames[1..pos], index, pos - 1, max * sd, ts * sd,
           sd, 3, 1_000_000, cur, cur != None)
  }

  /** Each read of the scenario takes its cursor state to the next one. */
  lemma ThreeFramesPull(step: nat)
    requires step <= 8 && step != 3
    ensures Valid(ThreeFramesState(step)) && CanPull(ThreeFramesState(step))
    ensures Pull(ThreeFramesState(step)) == (ThreeFramesState(step + 1).currentSample, ThreeFramesState(step + 1))
  {
    if step == 2 || step == 8 {
      ThreeFramesDecode(step);
    } else if step == 6 {
      ThreeFramesReplay();
    } else {
      ThreeFramesRead(step);
    }
  }

  /** The other steps read on within the current frame. */
  lemma ThreeFramesRead(step: nat)
    requires step in {0, 1, 4, 5, 7}
    ensures Valid(ThreeFramesState(step)) && CanPull(ThreeFramesState(step))
    ensures Pull(ThreeFramesState(step)) == (ThreeFramesState(step + 1).currentSample, ThreeFramesState(step + 1))
  {
    var c := ThreeFramesState(step);
    var ts := c.timestamp + c.sampleDuration;
    var next := c.(iter := c.iter[1..], timestamp := ts, isActive := true, currentSample := Some(c.iter[0]));
    if AtLeadingEdge(c) {
      assert ThreeFramesState(step + 1) == next.(maxTimeStamp := ts);
    } else {
      assert ThreeFramesState(step + 1) == next;
    }
  }

  /** Steps 2 and 8 run out of their frame on the leading edge and decode the next one. */
  lemma ThreeFramesDecode(step: nat)
    requires step == 2 || step == 8
    ensures Valid(ThreeFramesState(step)) && CanPull(ThreeFramesState(step))
    ensures Pull(ThreeFramesState(step)) == (ThreeFramesState(step + 1).currentSample, ThreeFramesState(step + 1))
  {
    var c := ThreeFramesState(step);
    var f := ThreeFrames[c.decoder.pos];
    var c1 := c.(decoder := Decoder(ThreeFrames, c.decoder.pos + 1), framesPassed := c.framesPassed + 1,
                 prevFrames := c.prevFrames + [f], iter := f.data);
    assert c.decoder.NextFrame() == (Some(f), c1.decoder);
    assert c1.prevFrames == ThreeFrames[1..c.decoder.pos + 1];
    var ts := c.timestamp + c.sampleDuration;
    assert Pull(c1) == (Some(f.data[0]), c1.(iter := f.data[1..], timestamp := ts, isActive := true,
                                            maxTimeStamp := ts, currentSample := Some(f.data[0])));
    assert ThreeFramesState(step + 1) == c1.(iter := f.data[1..], timestamp := ts, isActive := true,
                                             maxTimeStamp := ts, currentSample := Some(f.data[0]));
  }

  /** Step 6 runs out of its frame behind the high-water mark and replays the history. */
  lemma ThreeFramesReplay()
    ensures Valid(ThreeFramesState(6)) && CanPull(ThreeFramesState(6))
    ensures Pull(ThreeFramesState(6)) == (ThreeFramesState(7).currentSample, ThreeFramesState(7))
  {
    var c := ThreeFramesState(6);
    var c1 := c.(iter := [3, 4], frameIndex := 1);
    assert c.prevFrames[0].data == [3, 4];
    assert Pull(c1) == (Some(3), c1.(iter := [4], timestamp := c.timestamp + c.sampleDuration,
                                     isActive := true, currentSample := Some(3)));
  }

  /**
    A track of three frames, read three samples in, then sought back to 0 and read five more.
    The replay starts at the second decoded frame, since the history never holds the first, and
    plays it twice, since a backward seek leaves `frame_index` on the frame it loads; then the read
    position meets the high-water mark and decoding resumes with the third frame.
  */
  method SeekBackToStartScenario() returns (before: seq<Option<int16>>, after: seq<Option<int16>>)
    ensures before == [Some(1), Some(2), Some(3)]
    ensures after == [Some(3), Some(4), Some(3), Some(4), Some(5)]
  {
    var track := new TrackData("three-frames.mp3", ThreeFrames, 1_000_000, 3);
    assert track.Snapshot() == ThreeFramesState(0);
    ThreeFramesPull(0);
    var s1 := track.GetSample();
    ThreeFramesPull(1);
    var s2 := track.GetSample();
    ThreeFramesPull(2);
    var s3 := track.GetSample();
    before := [s1, s2, s3];
    assert FrameAt(0, 3, 1_000_000) == 0;
    assert Seek(ThreeFramesState(3), 0) == ThreeFramesState(4);
    track.SetTimestamp(0);
    ThreeFramesPull(4);
    var r1 := track.GetSample();
    ThreeFramesPull(5);
    var r2 := track.GetSample();
    ThreeFramesPull(6);
    var r3 := track.GetSample();
    ThreeFramesPull(7);
    var r4 := track.GetSample();
    ThreeFramesPull(8);
    var r5 := track.GetSample();
    after := [r1, r2, r3, r4, r5];
  }

  /**
    What the player asks of the audio event loop, and the cursor seeks it performs, in the order
    it does them. Stream ids are modelled as a counter: each rebuilt stream gets the next one.
  */
  datatype Command =
    | BuildStream(id: nat, channels: int)
    | PlayStream(id: nat)
    | PauseStream(id: nat)
    | DestroyStream(id: nat)
    | SeekTrack(timestamp: nat)

  /**
    The target of `move_timestamp_forward` (src/audio_controller.rs:240-249): `delta` past the
    read position, but never past the end of the track.
  */
  function ForwardTarget(timestamp: nat, delta: nat, duration: nat): (t: nat)
    ensures t == timestamp + delta || t == duration
    ensures t <= timestamp + delta && t <= duration
  {
    var target := delta + timestamp;
    if target > duration then duration else target
  }

  /**
    The target of `move_timestamp_back` (src/audio_controller.rs:250-259): `delta` before the
    read position, or the start of the track when that would be before it.
  */
  function BackTarget(timestamp: nat, delta: nat): (t: nat)
    ensures t <= timestamp
    ensures delta < timestamp ==> t + delta == timestamp
    ensures delta >= timestamp ==> t == 0
  {
    if delta < timestamp then timestamp - delta else 0
  }

  /**
    The control side of `AudioPlayer`. The output device, the event loop and the callback thread
    are not modelled; `log` records the commands the player sends to them.
  */
  class AudioPlayer {
    var volume: real
    var track: TrackData
    var formatChannels: int
    var streamId: nat
    var isRunning: bool
    var isPlaying: bool
    ghost var log: seq<Command>

    /** The track is a valid cursor and the output stream has the track's channel count. */
    ghost predicate Valid()
      reads this, track
    {
      track.Valid() && formatChannels == track.channels
    }

    /**
      `AudioPlayer::new` (src/audio_controller.rs:158-185) once the initial track is open: one
      output stream with the track's channel count, volume 1.0, neither running nor playing.
    */
    constructor (initial: TrackData)
      requires initial.Valid()
      ensures Valid() && track == initial
      ensures volume == 1.0 && !isRunning && !isPlaying
      ensures formatChannels == initial.channels && log == [BuildStream(streamId, initial.channels)]
    {
      track := initial;
      formatChannels := initial.channels;
      streamId := 0;
      volume := 1.0;
      isRunning := false;
      isPlaying := false;
      log := [BuildStream(0, initial.channels)];
    }

    /** `run` (src/audio_controller.rs:186-212): marks the player running and starts playback. */
    method Run()
      modifies `isRunning, `isPlaying, `log
      ensures isRunning && isPlaying
      ensures log == old(log) + [PlayStream(streamId)]
    {
      isRunning := true;
      Play();
    }

    /** `set_volume` (src/audio_controller.rs:216): unclamped. */
    method SetVolume(v: real)
      modifies `volume
      ensures volume == v
    {
      volume := v;
    }

    /**
      `increase_volume_by` (src/audio_controller.rs:217-220): applied only when the result stays
      below 3.0, so a volume below 3.0 stays below 3.0.
    */
    method IncreaseVolumeBy(delta: real)
      modifies `volume
      ensures old(volume) + delta < 3.0 ==> volume == old(volume) + delta
      ensures old(volume) + delta >= 3.0 ==> volume == old(volume)
      ensures old(volume) < 3.0 ==> volume < 3.0
    {
      var newVolume := volume + delta;
      if newVolume < 3.0 {
        volume := newVolume;
      }
    }

    /**
      `decrease_volume_by` (src/audio_controller.rs:221-224): applied only when the result stays
      above 0.0, so a volume above 0.0 stays above 0.0.
    */
    method DecreaseVolumeBy(delta: real)
      modifies `volume
      ensures old(volume) - delta > 0.0 ==> volume == old(volume) - delta
      ensures old(volume) - delta <= 0.0 ==> volume == old(volume)
      ensures old(volume) > 0.0 ==> volume > 0.0
    {
      var newVolume := volume - delta;
      if newVolume > 0.0 {
        volume := newVolume;
      }
    }

    function GetVolume(): real
      reads this
    {
      volume
    }

    function GetTimestamp(): nat
      reads this, track
    {
      track.timestamp
    }

    function GetCurrentSample(): Option<int16>
      reads this, track
    {
      track.currentSample
    }

    function CurrentTrackIsActive(): bool
      reads this, track
    {
      track.isActive
    }

    /**
      `set_timestamp` (src/audio_controller.rs:231-236): pause the stream, seek the track, play
      again. The wait between pausing and seeking is not modelled.
    */
    method SetTimestamp(t: nat)
      requires Valid() && CanSeek(track.Snapshot(), t)
      modifies `isPlaying, `log, track
      ensures Valid() && isPlaying
      ensures track.Snapshot() == Seek(old(track.Snapshot()), t)
      ensures log == old(log) + [PauseStream(streamId), SeekTrack(t), PlayStream(streamId)]
    {
      Pause();
      log := log + [SeekTrack(t)];
      track.SetTimestamp(t);
      Play();
    }

    /** `move_timestamp_forward` (src/audio_controller.rs:240-249). */
    method MoveTimestampForward(delta: nat)
      requires Valid()
      requires CanSeek(track.Snapshot(), ForwardTarget(track.timestamp, delta, track.duration))
      modifies `isPlaying, `log, track
      ensures Valid() && isPlaying
      ensures track.Snapshot()
           == Seek(old(track.Snapshot()), ForwardTarget(old(track.timestamp), delta, track.duration))
      ensures track.timestamp <= track.duration
    {
      var timestamp := ForwardTarget(track.timestamp, delta, track.duration);
      SetTimestamp(timestamp);
      SeekKeepsHighWater(old(track.Snapshot()), timestamp);
      if timestamp >= old(track.maxTimeStamp) {
        SeekForward(old(track.Snapshot()), timestamp);
      } else {
        SeekBackward(old(track.Snapshot()), timestamp);
      }
    }

    /** `move_timestamp_back` (src/audio_controller.rs:250-259). */
    method MoveTimestampBack(delta: nat)
      requires Valid()
      requires CanSeek(track.Snapshot(), BackTarget(track.timestamp, delta))
      modifies `isPlaying, `log, track
      ensures Valid() && isPlaying
      ensures track.Snapshot() == Seek(old(track.Snapshot()), BackTarget(old(track.timestamp), delta))
      ensures track.timestamp <= old(track.timestamp)
    {
      var timestamp := BackTarget(track.timestamp, delta);
      SetTimestamp(timestamp);
      if timestamp >= old(track.maxTimeStamp) {
        SeekForward(old(track.Snapshot()), timestamp);
      } else {
        SeekBackward(old(track.Snapshot()), timestamp);
      }
    }

    /**
      `change_track` (src/audio_controller.rs:274-279): the new track replaces the old one and the
      output stream is always rebuilt for its channel count and played. Volume and the running
      flag are kept. The metadata reload is not modelled.
    */
    method ChangeTrack(next: TrackData)
      requires Valid() && next.Valid()
      modifies this
      ensures Valid() && track == next && isPlaying
      ensures formatChannels == next.channels && streamId == old(streamId) + 1
      ensures log == old(log) + [DestroyStream(old(streamId)), BuildStream(streamId, next.channels),
                                 PlayStream(streamId)]
      ensures volume == old(volume) && isRunning == old(isRunning)
    {
      track := next;
      RebuildStream();
    }

    /** `rebuild_stream` (src/audio_controller.rs:303-308). */
    method RebuildStream()
      requires track.Valid()
      modifies `formatChannels, `streamId, `isPlaying, `log
      ensures Valid() && isPlaying && streamId == old(streamId) + 1
      ensures log == old(log) + [DestroyStream(old(streamId)), BuildStream(streamId, track.channels),
                                 PlayStream(streamId)]
    {
      log := log + [DestroyStream(streamId)];
      formatChannels := track.channels;
      streamId := streamId + 1;
      log := log + [BuildStream(streamId, formatChannels)];
      Play();
    }

    function IsPlaying(): bool
      reads this
    {
      isPlaying
    }

    function IsRunning(): bool
      reads this
    {
      isRunning
    }

    /** `pause` (src/audio_controller.rs:295-298). */
    method Pause()
      modifies `isPlaying, `log
      ensures !isPlaying && log == old(log) + [PauseStream(streamId)]
    {
      isPlaying := false;
      log := log + [PauseStream(streamId)];
    }

    /** `play` (src/audio_controller.rs:299-302). */
    method Play()
      modifies `isPlaying, `log
      ensures isPlaying && log == old(log) + [PlayStream(streamId)]
    {
      isPlaying := true;
      log := log + [PlayStream(streamId)];
    }

    /**
      `stop` (src/audio_controller.rs:309-312): the player is no longer running and its stream is
      destroyed; the playing flag is left as it was.
    */
    method Stop()
      modifies `isRunning, `log
      ensures !isRunning && log == old(log) + [DestroyStream(streamId)]
    {
      isRunning := false;
      log := log + [DestroyStream(streamId)];
    }
  }

  /**
    Volume changes from 1.0: raising by 2.5 would reach 3.5 and is refused, raising by 0.5 is
    applied.
  */
  method VolumeScenario(player: AudioPlayer)
    modifies player`volume
    ensures player.volume == 1.5
  {
    player.SetVolume(1.0);
    player.IncreaseVolumeBy(2.5);
    assert player.volume == 1.0;
    player.IncreaseVolumeBy(0.5);
  }
}
