# rplayer core in Dafny

rplayer is a terminal MP3 player. This project models four parts of it.

- The playback engine of `src/audio_controller.rs`.
  - `TrackData` decodes an MP3 file frame by frame. It hands out one sample at a time and keeps the frames it has decoded, so that a seek backwards can replay them.
  - `AudioPlayer` wraps a track with volume, transport (run, play, pause, stop) and track switching.
- The playlist of `src/file_manager.rs`: `FileManager`. It is a cursor over the files of a directory, in plain or shuffled order.
- The list view of `src/file_explorer.rs`: `FileExplorer`. It is a scrolling window over the list with a highlighted row.
- `set_text_width` of `src/graphics.rs`. It fits a label into a column.

## Layout

- `wrappers.dfy` holds the `Option` datatype.
- `track_cursor.dfy` (module `TrackCursor`) is the specification of a track.
  - The fields of `TrackData` form a value, `Cursor`.
  - The decoder is the list of the file's frames plus a position.
  - `get_sample` is the function `Pull`; `set_timestamp` is `Seek`; the state `TrackData::new` builds is `Open`.
  - Every property of the engine is a lemma about these functions.
- `audio_controller.dfy` (module `AudioController`) holds the classes.
  - `TrackData` has the source's fields and updates them in place. Every method is proved to leave exactly the state the functions above give: `ensures (r, Snapshot()) == Pull(old(Snapshot()))`.
  - `AudioPlayer` keeps a ghost `log` of the commands it sends to the audio event loop: build, play, pause and destroy a stream, and seek the track.
- `file_manager.dfy`, `file_explorer.dfy` and `graphics.dfy` are classes and methods shaped like their source files.
  - Each method states its whole new state and the invariant it keeps.
  - The playlist invariant: `indexes` is a permutation of the file positions and the cursor is inside it.
  - The view invariant: the window lies within the list and the highlight is an entry.
- Times are natural numbers of nanoseconds. Samples are a 16-bit newtype. The volume is a `real`.

## Behaviour as written

Where the code and the project's own description differ, the model follows the code.

- The constructor reads the first frame without pushing it to the history, so history slot `k` holds decoded frame `k + 1` (`TrackCursor.Valid`).
- A backward seek sets `frame_index` to the frame it loads instead of the one after it, so that frame is replayed twice. The last point combines with the previous one.
  - `TrackCursor.SeekBackward` states the replay as `prevFrames[k].data + Samples(prevFrames[k..])`.
  - `AudioController.SeekBackToStartScenario` plays a concrete track: a seek back to 0 replays `3, 4, 3, 4` and never the first frame `1, 2`.
- A forward seek leaves the frame being read alone. The next samples still come from where playback was; the decoder alone has moved on.
- `change_track` always destroys and rebuilds the output stream, whatever the channel count of the new track.
- `stop` clears the running flag and destroys the stream. It leaves the playing flag as it was.
- A replay moves the read position in whole sample durations and never touches the high-water mark `max_time_stamp`. When the distance between the two after a backward seek is not a whole number of sample durations, the replay never lands on the high-water mark (`TrackCursor.ReplayMissesLeadingEdge`). A seek back by 5 s on a 44.1 kHz stereo track (11337 ns per sample) is such a case.
  - Playback then stays in the replay branch until the history runs out, where `prev_frames[frame_index]` (src/audio_controller.rs:113) panics.
  - The read position passes the high-water mark on the way, so the model does not assume `timestamp <= max_time_stamp`.
- Panics are preconditions, each on the member where it would happen:
  - the history is indexed out of range (`CanPull`, `CanSeek`);
  - `frame_at_timestamp - frames_passed` underflows (`CanSeek`);
  - `width - 3` underflows (`CanFit`);
  - `highlighted - start` or `viewport_size - 1` underflows (`MoveDown`, `MoveUp`);
  - the first `next_frame()` fails, or the sample rate times the channel count is zero (`CanOpen`).

## Model

| member | source | states |
|---|---|---|
| TrackCursor.Pull | src/audio_controller.rs:79-123 | `get_sample` as a function of the track state. The last-sample field records the result, a returned sample marks the track active, and the track constants never change. The lemmas below state what it returns. |
| TrackCursor.PullAtLeadingEdge | src/audio_controller.rs:82-102 | On the leading edge a call returns the next sample of the track, or None exactly when the frame and the undecoded frames are used up. The read position moves one sample duration and the high-water mark follows it. Decoded frames join the history, the decoder is exhausted on None, and the track constants are unchanged. |
| TrackCursor.PullReplay | src/audio_controller.rs:104-119 | Behind the high-water mark a call returns the head of the replay sequence and the rest of it remains. The decoder, history, frames-passed count and high-water mark are untouched. |
| TrackCursor.PullAtEnd | src/audio_controller.rs:91-101 | At the end of the track a call returns None, changes only the last-sample field, and returns None again on every later call. |
| TrackCursor.PullKeepsHighWater | src/audio_controller.rs:79-123 | `get_sample` never lowers the high-water mark. |
| TrackCursor.ReplayMissesLeadingEdge | src/audio_controller.rs:104-119 | A replay step keeps the high-water mark and keeps the read position's remainder modulo the sample duration. When that remainder differs from the high-water mark's, the step stays off the leading edge, so the replay never catches up with the decoder. |
| TrackCursor.PullKeepsValid | src/audio_controller.rs:92-96 | `get_sample` keeps the history equal to the decoded frames after the first, with `frames_passed` its length. |
| TrackCursor.PullMany | src/audio_controller.rs:318-331 | Repeated calls from the leading edge, as the output callback makes them, stay valid, on the leading edge and on the same track. |
| TrackCursor.LeadingEdgePlaysInOrder | src/audio_controller.rs:79-123 | From the leading edge, k successive calls return the rest of the track in order, then None. |
| TrackCursor.LeadingEdgeTiming | src/audio_controller.rs:85-100 | After k calls the read position has moved by one sample duration per sample returned, and the high-water mark equals it. |
| TrackCursor.FrameAt | src/audio_controller.rs:127 | The frame estimated for a target within the track is never past the frame count. |
| TrackCursor.Seek | src/audio_controller.rs:124-142 | `set_timestamp` as a function of the track state. The read position becomes the target and the high-water mark is raised to it when the target is past it. The track constants never change. The seek lemmas below state the rest. |
| TrackCursor.DecodeAheadAppends | src/audio_controller.rs:131-136 | n rounds of the decoding loop decode n frames or up to the end of the stream. They append exactly those frames to the history and change nothing else. |
| TrackCursor.DecodeAheadExhausted | src/audio_controller.rs:131-136 | The decoding loop on an exhausted decoder changes nothing. |
| TrackCursor.SeekForward | src/audio_controller.rs:124-137 | A forward seek sets the read position and the high-water mark to the target. It extends the history by at most `frame_at_timestamp - frames_passed` frames and reaches that frame count unless the stream ends. The current frame and the replay index stay as they were. |
| TrackCursor.SeekForwardIdempotent | src/audio_controller.rs:124-137 | A second forward seek to the same target is allowed and changes nothing. |
| TrackCursor.SeekBackward | src/audio_controller.rs:138-141 | A backward seek leaves the decoder, history and high-water mark alone and leaves the leading edge. The replay is history frame k followed by the history from k, so frame k plays twice. |
| TrackCursor.SeekKeepsHighWater | src/audio_controller.rs:124-142 | `set_timestamp` never lowers the high-water mark. |
| TrackCursor.Open | src/audio_controller.rs:41-75 | The state `TrackData::new` builds is valid and on the leading edge, and what it will play is every sample of the file in order. |
| TrackCursor.OpenThenSeekZero | src/audio_controller.rs:57-76 | The opened state is valid, and the constructor's `set_timestamp(0)` is allowed and changes nothing. |
| AudioController.TrackData.constructor | src/audio_controller.rs:41-78 | A new track is the opened state: the first frame is being read, the history is empty, and the sample duration is 10^9 / (rate × channels) ns. |
| AudioController.TrackData.GetSample | src/audio_controller.rs:79-123 | The returned sample and the new fields are exactly `Pull` of the old fields. |
| AudioController.TrackData.LeadingEdgeSample | src/audio_controller.rs:82-102 | The leading-edge branch, including the recursive call after a decode, agrees with `Pull`. |
| AudioController.TrackData.ReplaySample | src/audio_controller.rs:104-119 | The replay branch, including the recursive call after loading a history frame, agrees with `Pull`. |
| AudioController.TrackData.NextInFrame | src/audio_controller.rs:84-89 | A sample from the current frame is its head, and the read position moves one sample duration. |
| AudioController.TrackData.SetTimestamp | src/audio_controller.rs:124-142 | The new fields are exactly `Seek` of the old fields. |
| AudioController.TrackData.DecodeFrames | src/audio_controller.rs:131-136 | The loop leaves the fields at n rounds of `DecodeOne`; its invariant ties each round to the function. |
| AudioController.SeekBackToStartScenario | src/audio_controller.rs:104-141 | Frames [1,2], [3,4], [5]: three reads give 1, 2, 3. After a seek to 0, five reads give 3, 4, 3, 4, 5. |
| AudioController.ForwardTarget | src/audio_controller.rs:242-245 | The forward target is the position plus delta, capped at the duration. |
| AudioController.BackTarget | src/audio_controller.rs:252-256 | The backward target is the position minus delta, or 0 when delta is not below the position. |
| AudioController.AudioPlayer.constructor | src/audio_controller.rs:158-185 | The new player has one stream built with the track's channel count, volume 1.0, and is neither running nor playing. |
| AudioController.AudioPlayer.Run | src/audio_controller.rs:186-188 | `run` marks the player running and playing and plays the stream. |
| AudioController.AudioPlayer.SetVolume | src/audio_controller.rs:216 | `set_volume` sets the volume unclamped. |
| AudioController.AudioPlayer.IncreaseVolumeBy | src/audio_controller.rs:217-220 | The increase applies only when the result is below 3.0, so a volume below 3.0 stays below it. |
| AudioController.AudioPlayer.DecreaseVolumeBy | src/audio_controller.rs:221-224 | The decrease applies only when the result is above 0.0, so a volume above 0.0 stays above it. |
| AudioController.VolumeScenario | src/audio_controller.rs:216-220 | From 1.0, a raise by 2.5 is refused and a raise by 0.5 is applied. |
| AudioController.AudioPlayer.SetTimestamp | src/audio_controller.rs:231-236 | Pause, seek, play in that order; the track ends in `Seek` of its old state and the player is playing. |
| AudioController.AudioPlayer.MoveTimestampForward | src/audio_controller.rs:240-249 | The track is sought to the capped forward target and its read position does not pass the duration. |
| AudioController.AudioPlayer.MoveTimestampBack | src/audio_controller.rs:250-259 | The track is sought to the backward target and its read position does not grow. |
| AudioController.AudioPlayer.ChangeTrack | src/audio_controller.rs:274-279 | The new track replaces the old, and the stream is destroyed, rebuilt with the new channel count and played. Volume and the running flag are kept. |
| AudioController.AudioPlayer.RebuildStream | src/audio_controller.rs:303-308 | The old stream is destroyed, and a new one gets the track's channel count and the next id and is played. |
| AudioController.AudioPlayer.Pause | src/audio_controller.rs:295-298 | The player is not playing and the stream is paused. |
| AudioController.AudioPlayer.Play | src/audio_controller.rs:299-302 | The player is playing and the stream is played. |
| AudioController.AudioPlayer.Stop | src/audio_controller.rs:309-312 | The player is not running and the stream is destroyed. |
| FileManager.Range | src/file_manager.rs:30 | The identity order lists 0..n at their own positions. |
| FileManager.FileManager.New | src/file_manager.rs:29-37 | There is no manager exactly when the list is empty; otherwise the order is the identity, the first file is current, and nothing is shuffled. |
| FileManager.FileManager.Init | src/file_manager.rs:30-32 | The initial state is valid, in identity order, at position 0, unshuffled. |
| FileManager.FileManager.CurrentIndex | src/file_manager.rs:43-45 | The current file position is a file of the list. |
| FileManager.FileManager.GetCurrent | src/file_manager.rs:87-92 | The current path is the file at the current position of the order. |
| FileManager.FileManager.TracksLeft | src/file_manager.rs:105-107 | The number of entries after the current one is below the list size. |
| FileManager.FileManager.Next | src/file_manager.rs:77-86 | `next` succeeds exactly when tracks are left. It then moves one entry on, returns that entry's path and leaves one track fewer; otherwise nothing moves. |
| FileManager.FileManager.Prev | src/file_manager.rs:93-101 | `prev` succeeds exactly when not at the first entry. It then moves one entry back and returns that entry's path; otherwise nothing moves. |
| FileManager.FileManager.SetIndex | src/file_manager.rs:102-104 | The cursor is set to the given position. |
| FileManager.FileManager.ToggleShuffle | src/file_manager.rs:46-49 | The shuffled flag flips and the current track is unchanged. Turning shuffle on permutes the entries before and after the cursor among themselves and keeps the cursor and its entry. Turning it off restores the identity order and moves the cursor to the current file. |
| FileManager.FileManager.MakeShuffled | src/file_manager.rs:50-65 | Shuffling permutes the entries before and after the current one among themselves and keeps the current entry in place. Unshuffling restores the identity order and moves the cursor to the current file. Either way the current track is unchanged. |
| FileManager.FileManager.ShuffleAroundCurrent | src/file_manager.rs:51-58 | Only the prefix and the suffix are permuted, and the invariant holds. |
| FileManager.FileManager.Unshuffle | src/file_manager.rs:59-64 | The order is the identity and the cursor is the old current file position. |
| FileManager.FileManager.GetPaths | src/file_manager.rs:66-72 | The result has end - start paths; path i is the file at order position start + i. |
| FileManager.ShuffleSlice | src/file_manager.rs:54-56 | Only the slice is permuted; everything outside it is unchanged. |
| FileExplorer.FileExplorer.constructor | src/file_explorer.rs:20-27 | The window is the smaller of the request and the list, starts at the top, and the first entry is highlighted and visible. |
| FileExplorer.FileExplorer.MaxStartIndexValue | src/file_explorer.rs:28-30 | The last window start leaves exactly `viewportSize` rows to the end of the list. |
| FileExplorer.FileExplorer.SetViewport | src/file_explorer.rs:31-38 | The window starts at the request, clamped to the largest start that keeps it within the list. |
| FileExplorer.FileExplorer.MoveViewportDown | src/file_explorer.rs:39-43 | The window moves one row down unless it is at the bottom, and stays within the list. |
| FileExplorer.FileExplorer.MoveViewportUp | src/file_explorer.rs:44-48 | The window moves one row up unless it is at the top. |
| FileExplorer.FileExplorer.MoveHighlightBy | src/file_explorer.rs:49-55 | The highlight moves by n exactly when that lands on an entry, and stays otherwise. |
| FileExplorer.FileExplorer.SetHighlight | src/file_explorer.rs:56-60 | The highlight moves to the position exactly when it is an entry. |
| FileExplorer.FileExplorer.MoveDown | src/file_explorer.rs:61-67 | The highlight moves one down unless on the last entry. The window scrolls one row exactly when the highlight was on its bottom row and the window was not at the end. A visible highlight stays visible. |
| FileExplorer.FileExplorer.MoveUp | src/file_explorer.rs:68-74 | The highlight moves one up unless on the first entry. The window scrolls one row up exactly when the highlight was on its top row and the window was not at the start. A visible highlight stays visible. |
| Graphics.Repeat | src/graphics.rs:31 | `c.repeat(n)` is n copies of c. |
| Graphics.SetTextWidth | src/graphics.rs:26-44 | The loop computes the closed form `Fit`: the label padded with spaces, or its first width - 3 characters followed by dots. |
| Graphics.FitWidth | src/graphics.rs:26-44 | The fitted label is exactly width columns wide. |
| Graphics.FitKeepsPrefix | src/graphics.rs:30-42 | The fitted label starts with all of the text when it fits, else with its first width - 3 characters. The rest is spaces or dots. |
| Graphics.FitIdempotent | src/graphics.rs:26-44 | Fitting a fitted label again changes nothing. |

## Left out

- The audio device, the `cpal` event loop and the callback thread that `run` spawns are not modelled. Stream commands appear only in the `AudioPlayer` log. `write_data` (src/audio_controller.rs:314-332) is not modelled; it pulls samples (`PullMany`), divides them by the sample rate and scales them by the volume in floating point.
- Locking (`Arc<Mutex<…>>`, `RefCell`, `Cell`) is not modelled: the guarded values are plain fields.
- The 5 ms sleep in `set_timestamp` is not modelled.
- MP3 decoding (`minimp3`) is not modelled: a decoder is the list of the file's frames and a position. A decode error in mid-stream reads like the end of the stream, as the source's `if let Ok` does.
- The metadata crate is not modelled. `TrackData::new` takes the duration and frame count as parameters, and `get_track_meta`, the metadata reload in `change_track` and `FileManager::get_metadata` are not modelled.
- `AudioPlayer::new` builds the `FileManager` and opens its current file. Opening a file by path is I/O, so the constructor takes the opened track. `set_next_track_in_dir` and `set_prev_track_in_dir` are not modelled for the same reason; they are `FileManager.Next` / `Prev` followed by opening the path and `ChangeTrack`.
- `FileManager::new` globbing and its directory checks are not modelled. It takes the list of paths found, and the error messages it prints are dropped.
- The random generator of the shuffle is not modelled: a shuffled slice is an arbitrary permutation of itself.
- Drawing (`FileExplorer::draw`, `graphics::draw_text`, the description cache) and the rest of src/graphics.rs, src/main.rs and src/lib.rs are not part of this model.
- The getters are plain field reads without contracts: `get_volume`, `get_timestamp`, `get_current_sample`, `current_track_is_active`, `is_playing`, `is_running` and `is_shuffled`. `get_timestamp`'s `None` branch cannot happen, because the current track is always present.
- TrackCursor.FrameAt: computes `frame_at_timestamp` as `t * frames / duration` rounded down. The source's `f64` computation can differ by rounding.
- AudioController.AudioPlayer.IncreaseVolumeBy: uses exact reals for the source's `f32` volume, so rounding is not captured. The same holds for `DecreaseVolumeBy` and `SetVolume`.
- `Duration` overflow in the seek arithmetic is not modelled (natural numbers are unbounded).
- Graphics.SetTextWidth: takes every character to be one column wide. The source measures display width with a Unicode table.
- FileExplorer.FileExplorer.MoveHighlightBy: uses an unbounded integer for the source's `i32` sum. Lists longer than 2^31 entries would wrap there.
- FileManager.FileManager.SetIndex: requires the index to be below the list size. The source stores any index, and only a later `get_current` or `tracks_left` panics.
- FileManager.FileManager.GetPaths: requires `start <= end <= size`, where the source slice would panic.
- The history is replayed only as far as it reaches (`CanPull`). A replay that runs past the end of the history panics in the source on `prev_frames[frame_index]`.
