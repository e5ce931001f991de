# pmdmini-gui core, modelled in Dafny

pmdmini-gui is a desktop player for PMD music files, the FM-synthesis format of NEC PC-98 and
PC-88 games. This project models its sequential core and proves properties of it:

- `utils.dfy` (module `Utils`): ASCII lower-casing and case-insensitive substring search. These back the search box.
- `scanner.dfy` (module `Scanner`): the track record, the sort modes and the file-name filter `IsPmdFile`. The filter accepts `.m`, `.m2`, `.m86` and `.m26` in any case, and rejects the `.mdt` sample banks.
- `ring_buffer.dfy` (module `RingBuffers`): the single-producer/single-consumer sample queue. It is a class over an array with one spare slot. Its abstract contents, oldest first, are the ghost function `Contents()`. `Write` appends what fits and drops the rest. `Read` removes from the front. `Clear` empties the queue.
- `config.dfy` (module `Config`): the repeat-mode encoding of the settings file and the save-debounce state (`MarkDirty`, `ShouldSave`, `Saved`).
- `playlist.dfy` (module `Playlist`): the track list and its two cursors. `current` is the playing track and `selected` the UI cursor. Each is a track index or -1. The module covers next/previous under the three repeat modes and shuffle, lookup by path, and sorting by name, date or size.
- `player.dfy` (module `Player`): the engine's sequential logic:
  - the frame-duration helper, including the wrap-around of its 32-bit result conversion;
  - device-list normalisation;
  - the control calls and the read-and-clear flags;
  - the load bookkeeping of the decode thread, with the track duration;
  - the audio callback's buffer steps: drain the ring, pad with silence, count an underrun, mute, and scale by volume and fade gain.
- `app.dfy` (module `App`): the application logic between UI and engine:
  - the filtered visible list and its index map;
  - starting a track, next and previous;
  - the repeat-mode button (which marks the settings dirty);
  - row selection and the Up/Down keys.

Times are integers in milliseconds. Audio samples are `real`. The fade envelope's gain at each sample is a parameter of the callback.

`Player.FrameDurationMs` computes `frames * 1000` in 64 bits. The division result is then converted to a 32-bit `int`. When that quotient exceeds the 32-bit range it wraps modulo 2^32, and the 1 ms floor applies to the wrapped value. For example, `FrameDurationMs(2147484, 1)` wraps negative and gives 1, while `FrameDurationMs(4294968, 1)` wraps to 704 and gives 704. No realistic sample rate reaches this.

## Model

| member | source | states |
|---|---|---|
| Utils.LowerChar | src/utils.h:14 | `tolower` in the C locale: 'A'..'Z' move up by 32 to lower case, every other character is unchanged, and no result is an upper-case letter |
| Utils.ToLower | src/utils.h:10-16 | `to_lower` keeps the length and lower-cases each character in place |
| Utils.ToLowerIdempotent | src/utils.h:10-16 | lower-casing twice is the same as once |
| Utils.Find | src/utils.h:22 | `std::string::find` from a start position: the result is -1 exactly when the needle occurs at no position at or after the start; otherwise it is an occurrence with no earlier one |
| Utils.ContainsIgnoreCase | src/utils.h:18-23 | `contains_ignore_case` is true iff the lower-cased needle is a contiguous substring of the lower-cased haystack |
| Utils.ContainsEmptyNeedle | src/utils.h:20-21 | the empty needle is found in every haystack |
| Utils.ContainsIgnoresCase | src/utils.h:18-23 | the result does not change when either argument is lower-cased first |
| Utils.ContainsSlice | src/utils.h:18-23 | every slice of the haystack is found in it |
| Scanner.IsPmdFile | src/scanner.cpp:4-30 | a name is accepted iff its lower-cased form ends in `.m`, `.m2`, `.m86` or `.m26`; a `.mdt` name is always rejected |
| Scanner.IsPmdFileIgnoresCase | src/scanner.cpp:6 | the filter gives the same answer for a name and its lower-cased form |
| Scanner.PmdExtensionAccepted | src/scanner.cpp:13-27 | any stem followed by a PMD extension written in any case is accepted |
| Scanner.LastCharacterRejects | src/scanner.cpp:9-29 | a name whose lower-cased last character is not 'm', '2' or '6' is rejected |
| Scanner.DotMAccepted | src/scanner.cpp:13-15 | a name ending in '.' and 'm' or 'M' is accepted |
| Scanner.DotM2Accepted | src/scanner.cpp:17-19 | a name ending in '.', 'm' or 'M', and '2' is accepted |
| Scanner.DotM86OrM26Accepted | src/scanner.cpp:21-27 | a name ending in '.', 'm' or 'M', '8' or '2', and '6' is accepted |
| Scanner.AcceptsUpperDotM | tests/test_scanner.cpp:5 | `song.M` is accepted |
| Scanner.AcceptsDotM2 | tests/test_scanner.cpp:6 | `song.m2` is accepted |
| Scanner.AcceptsUpperDotM2 | tests/test_scanner.cpp:7 | `TRACK.M2` is accepted |
| Scanner.RejectedExamples | tests/test_scanner.cpp:8-9 | `song.txt`, `readme.md` and `voice.MDT` are rejected |
| RingBuffers.Occupancy | src/ring_buffer.h:49-54 | the occupancy formula equals `(head - tail) mod capacity` and is below the capacity |
| RingBuffers.RingBuffer.constructor | src/ring_buffer.h:9-10 | a buffer for `cap` samples has `cap + 1` slots, both cursors at 0, and no contents |
| RingBuffers.RingBuffer.Available | src/ring_buffer.h:49-54 | `Available` is the number of queued samples: at most capacity - 1, and 0 exactly when the cursors meet |
| RingBuffers.RingBuffer.Write | src/ring_buffer.h:13-32 | writes `min(count, free space)` samples, appends exactly that prefix of the input to the contents, drops the rest, and leaves the read cursor alone |
| RingBuffers.RingBuffer.Read | src/ring_buffer.h:34-47 | returns `min(count, queued)` samples; the output prefix is the oldest samples in order; the rest of the output is untouched; the contents lose exactly that prefix; the write cursor is unchanged |
| RingBuffers.RingBuffer.Clear | src/ring_buffer.h:56-58 | the contents become empty and the write cursor is unchanged |
| RingBuffers.WriteThenRead | src/ring_buffer.h:13-47 | FIFO: on an empty buffer, reading back what was written returns exactly the written samples and leaves it empty |
| RingBuffers.Scenarios | tests/test_ring_buffer.cpp:17-57 | a capacity-4 buffer keeps 4 of 6 samples, in order; the available count goes 0, 3, 1; after Clear it is 0 |
| Config.RepeatToInt | src/config.cpp:7-19 | every mode encodes to a number in 0..2 |
| Config.IntToRepeat | src/config.cpp:21-32 | 1 decodes to One, 2 to All, and every other number to Off (both directions) |
| Config.RepeatRoundTrip | src/config.cpp:7-32 | decoding the encoding of a mode gives the mode back |
| Config.RepeatEncodingOnto | src/config.cpp:7-32 | exactly the numbers 0..2 survive decode-then-encode |
| Config.Config.constructor | src/config.h:42-43 | a new configuration is clean |
| Config.Config.MarkDirty | src/config.cpp:92-97 | marks dirty; only the first change after a save sets the timestamp; the save then becomes due once the debounce has elapsed from that first change |
| Config.Config.ShouldSave | src/config.cpp:99-105 | a save is due iff there are unsaved changes and at least the debounce has passed since the first of them |
| Config.Config.Saved | src/config.cpp:107-110 | after a save nothing is due at any time for any debounce |
| Config.DebounceScenario | tests/test_config.cpp:30-37 | a zero debounce is due at the marking time; a later mark keeps the first timestamp; a save clears the due save |
| Playlist.SequentialNext | src/playlist.cpp:64-79 | next track without shuffle, with the cursor in range or -1: -1 for an empty list; Repeat One stays on the current track; All wraps to `(current + 1) mod count`; under Off, -1 exactly after the last track; below the last track, and outside Repeat One with a current track, it is `current + 1` |
| Playlist.SequentialPrev | src/playlist.cpp:81-93 | previous track: -1 for an empty list; Repeat One stays; All wraps, and with no current track it gives the last one; under Off, -1 exactly at the first track or with none, and `current - 1` otherwise; under Repeat One with no current track, -1 |
| Playlist.WrapRoundTrip | src/playlist.cpp:64-93 | under Repeat All, Prev undoes Next and Next undoes Prev on every track |
| Playlist.OffRoundTrip | src/playlist.cpp:64-93 | under Repeat Off, Prev undoes Next wherever Next does not run off the end |
| Playlist.CursorExamples | tests/test_playlist.cpp:4-13 | two tracks with the first current: Next and Prev under All both give 1 |
| Playlist.StrLess | src/playlist.cpp:110-111 | `std::string` less-than: a proper prefix comes first, and no string precedes itself |
| Playlist.StrLessIsLexicographic | src/playlist.cpp:110-111 | the recursive comparison equals the lexicographic order: a proper prefix, or a smaller character at the first difference |
| Playlist.Precedes | src/playlist.cpp:110-118 | the three sort comparators (display name, modification time, size); none relates an entry to itself |
| Playlist.StrLessIrreflexive | src/playlist.cpp:110-111 | the name comparator (`std::string` less-than) is irreflexive |
| Playlist.StrLessTransitive | src/playlist.cpp:110-111 | the name comparator is transitive |
| Playlist.StrLessTotal | src/playlist.cpp:110-111 | any two distinct names are ordered one way or the other |
| Playlist.PrecedesAsymmetric | src/playlist.cpp:105-121 | each sort comparator is asymmetric |
| Playlist.NotPrecedesTransitive | src/playlist.cpp:105-121 | "not after" is transitive for each comparator, so each is a strict weak order as `std::sort` requires |
| Playlist.Insert | src/playlist.cpp:105-121 | inserting into a sorted list keeps it sorted and adds exactly the one element |
| Playlist.InsertionSort | src/playlist.cpp:105-121 | the result is sorted by the mode's key and is a permutation of the input |
| Playlist.Playlist.constructor | src/playlist.h:32-33 | an empty list with no current or selected track |
| Playlist.Playlist.Clear | src/playlist.cpp:4-9 | empties the list and resets both cursors to -1 |
| Playlist.Playlist.Add | src/playlist.cpp:11-16 | appends the track; the selection moves to 0 only if there was none; current is kept |
| Playlist.Playlist.SetItems | src/playlist.cpp:18-23 | replaces the list; both cursors go to 0, or to -1 for an empty list |
| Playlist.Playlist.SetCurrent | src/playlist.cpp:38-41 | stores a valid index and any other value as -1 |
| Playlist.Playlist.SetSelected | src/playlist.cpp:43-46 | stores a valid index and any other value as -1 |
| Playlist.Playlist.RandomIndex | src/playlist.cpp:48-62 | -1 for an empty list, 0 for one track, otherwise a track index different from the excluded one |
| Playlist.Playlist.NextIndex | src/playlist.cpp:64-79 | always -1 or a track index; without shuffle, or under Repeat One with a current track, it is SequentialNext; with shuffle it picks another track (0 when there is only one) |
| Playlist.Playlist.PrevIndex | src/playlist.cpp:81-93 | a track index or -1, as given by SequentialPrev for the current cursor |
| Playlist.Playlist.FindIndexByPath | src/playlist.cpp:95-103 | the first index whose path matches, or -1 exactly when no track has that path |
| Playlist.Playlist.Sort | src/playlist.cpp:105-121 | the tracks become sorted by the mode's key, as a permutation of the old list; the cursors keep their values |
| Playlist.WrapScenario | tests/test_playlist.cpp:4-13 | on a concrete two-track playlist, Next and Prev under All both return 1 |
| Player.Int32 | src/player.cpp:33 | the `(int)` conversion: the result is in 32-bit range, congruent to the input mod 2^32, and equal to the input when it already fits |
| Player.FileName | src/player.cpp:339 | `path.filename()`: never longer than the path; its exact shape is stated by FileNameIsLastComponent |
| Player.FileNameIsLastComponent | src/player.cpp:339 | `path.filename()` is the longest suffix without '/': a suffix of the path, free of '/', and preceded by '/' unless it is the whole path |
| Player.DurationSamples | src/player.cpp:343-345 | a non-positive length gives 0; a positive length in seconds gives a whole number of seconds' worth of samples, exactly `lenSec` seconds |
| Player.Level | src/player.cpp:448 | the volume level `clamp(volume / 100, 0, 1)`: 0 at or below 0, 1 at or above 100, and volume/100 in between |
| Player.Drained | src/player.cpp:435-440 | what the callback takes for `n` samples: the queued samples first, then silence, for length `n` |
| Player.KeptDevices | src/player.cpp:40-44 | the kept device names are exactly the input's names that are non-empty and not "Default" |
| Player.KeptDevicesIdentity | src/player.cpp:40-44 | a list with no empty or "Default" names is kept whole and in order |
| Player.Player.constructor | src/player.h:76-98 | both rings are empty; the player is stopped and not loading; volume 100, unmuted, 44100 Hz stereo |
| Player.Player.FrameDurationMs | src/player.cpp:29-34 | 0 when either argument is non-positive, otherwise at least 1; the floor of `frames * 1000 / sampleRate` when that fits in 32 bits and exceeds 1; 1 for durations under 1 ms; in general the 32-bit wrap of the quotient, raised to at least 1 |
| Player.FrameDurationExamples | tests/test_player_compile.cpp:16-18 | 1024 frames at 48 kHz last 21 ms; a quotient past the 32-bit range wraps modulo 2^32 before the 1 ms floor, giving 1 for 2147484 frames at 1 Hz and 704 for 4294968 frames at 1 Hz |
| Player.Player.NormalizeDeviceList | src/player.cpp:36-46 | "Default" first, then the kept names in order; no later entry is empty or "Default", and each comes from the input |
| Player.Player.Load | src/player.cpp:61-72 | records the request (path, pending, loading), clears the end flag and reports success |
| Player.Player.Play | src/player.cpp:74-79 | state becomes Playing |
| Player.Player.Pause | src/player.cpp:81-86 | state becomes Paused |
| Player.Player.Stop | src/player.cpp:88-97 | both rings are emptied, the position becomes 0, the end flag is cleared and the state becomes Stopped |
| Player.Player.SetVolume | src/player.cpp:99-102 | stores the volume |
| Player.Player.SetMute | src/player.cpp:103-106 | stores the mute flag |
| Player.Player.HasTrackEnded | src/player.cpp:185-188 | returns the end flag and clears it |
| Player.Player.IsFadeOutComplete | src/player.cpp:131-134 | returns the fade-out flag and clears it |
| Player.Player.DoLoad | src/player.cpp:306-349 | stale audio is always discarded (both rings empty, position 0, not loaded, end flag clear); the load succeeds iff the device opens and the decoder accepts the file; the device's rate and channels are adopted when it opens; on success the track records path, file name, format, whether the duration is known, and the duration in samples |
| Player.Player.AudioCallback | src/player.cpp:429-475 | the audio ring loses exactly the samples delivered and the display ring is untouched; one underrun is counted iff the ring held fewer than requested; muted output is all silence; otherwise sample `i` is the drained sample times volume level times fade gain at `i` |
| Player.Player.ReadWaveform | src/player.cpp:196-199 | reads from the display ring with the guarantees of RingBuffer.Read: min(count, queued) samples, the oldest first, the rest of `out` untouched, and exactly those samples dropped from the ring; the audio ring is untouched |
| Player.ZeroFill | src/player.cpp:438 | silences `out[from..]` and leaves the prefix alone |
| Player.Scale | src/player.cpp:455-471 | multiplies each sample by the volume level and the fade gain at its position |
| Player.FlagScenario | tests/test_player_compile.cpp:20-26 | an immediate second query of either read-and-clear flag is false; an empty device list normalises to exactly ["Default"]; after a load the end flag reads false |
| App.MapIndexToVisible | src/app.cpp:17-25 | the first visible row showing the index, or -1 exactly when no row shows it |
| App.NextRepeat | src/app.cpp:216-225 | the repeat button always changes the mode |
| App.RepeatCyclePeriod | src/app.cpp:216-225 | three presses restore the mode and two never do |
| App.VisibleIndices | src/app.cpp:111-125 | the visible index map is strictly increasing, lies within the playlist, and contains an index iff that track's name matches the search ignoring case |
| App.EmptySearchShowsAll | src/app.cpp:111-125 | an empty search shows every track: the map is 0, 1, ..., n - 1 |
| App.App.constructor | src/app.h:42-45 | an empty playlist, no search, repeat Off, shuffle off |
| App.App.BuildVisibleList | src/app.cpp:111-125 | the map is VisibleIndices of the playlist, and each visible track is the playlist track at its mapped index |
| App.App.PlayIndex | src/app.cpp:76-95 | succeeds iff the index is a track; out of range, nothing changes; otherwise that track becomes current, its path is requested, the app's volume and mute are passed on, and the state is Playing with status "Playing" |
| App.App.PlayNext | src/app.cpp:97-109 | without shuffle, plays SequentialNext or, when there is none, stops (both rings empty, position 0) with status "Playlist ended"; with shuffle and two or more tracks, plays a different track; with shuffle and one track, plays that track again |
| App.App.PlayPrev | src/app.cpp:203-208 | plays SequentialPrev when there is one; otherwise nothing changes |
| App.App.ApplySelection | src/app.cpp:180-181 | a click on a visible row selects its mapped track; a row outside the list is ignored |
| App.App.CycleRepeat | src/app.cpp:216-225 | the mode advances by NextRepeat and the settings are marked dirty at that time |
| App.App.KeyUp | src/app.cpp:307-313 | the selection moves up by one unless it is at the top or absent |
| App.App.KeyDown | src/app.cpp:315-322 | the selection moves down by one unless it is on the last track; with no selection it goes to the first track |
| App.RepeatScenario | src/app.cpp:216-225 | three presses of the repeat button restore the mode and leave the settings dirty; a play request one past the end fails |

## Left out

- The decode thread, its request queue, the condition variable and the track-end callback are not modelled. `DoLoad` is modelled as one sequential step, with the device result, the decoder's acceptance and its length as parameters.
- The pmdmini decoder calls (`pmd_init`, `pmd_play`, `pmd_renderer`, `pmd_length_sec`, `pmd_stop`) are left out. `InitAudio`, `ShutdownAudio`, `SetOutputDevice` and `ListOutputDevices` are left out too: they wrap SDL device calls (and `SDL_PauseAudioDevice` is called directly), whose effects lie outside the program. As a result `Play`, `Pause` and `Stop` do not pause or resume a device. The device-open fallback chain (the exact format, then a negotiated one, then the default device) is represented only by `DoLoad`'s `device` parameter, which gives the rate and channel count that were obtained, or the failure.
- Memory ordering between the producer and consumer threads is left out. The ring buffer is modelled as a sequential object, whose cursors change only through its own methods.
- Player.AudioCallback: the fade envelope (`StartFadeOut`, `SetPendingFadeIn`, `ResetFade`, `IsFadingIn`, and the gain stepping inside the callback) is float arithmetic. It is left out, so the gain at each sample is the parameter `fadeGain`. The callback therefore never sets the fade-out flag, and `IsFadeOutComplete` only models the read-and-clear.
- Samples are reals, not 32-bit floats. Neither float rounding nor the byte length of the SDL stream is modelled.
- Playlist.Playlist.RandomIndex: the Mersenne Twister draw and its retry loop are modelled as an arbitrary choice of another index. Uniformity and termination are not stated.
- Playlist.Playlist.FindIndexByPath: paths are compared as character strings. The source compares `std::filesystem::path` values component by component, so it treats "dir//a.m" and "dir/a.m" as equal where the model does not; that separator normalisation is not modelled.
- Playlist.Playlist.Sort: `std::sort` is not stable and its order among equal keys is unspecified. The model sorts by insertion, so the contract states only the sorted order and the permutation.
- App.App.PlayIndex: the source's "Failed to load track" branch is not modelled. `Player::Load` always returns true, so that branch never runs.
- The file and JSON layer is left out, because it is I/O: `Config::Load`, `Config::Save`, `GetConfigPath`, `EnsureParentDir` and `SyncConfig`.
- The scanner's directory walk and its worker thread (`Scanner::Start`, `Stop`, `ConsumeBatch`, `ScanDir`) are left out, because they are file-system I/O.
- The event loop (`App::Run`), `UpdateUIState`, the rest of `HandleActions` (directory, recursion, search, sort, play/pause, volume, mute, device and scan actions), the other shortcuts, rendering (`ui.cpp`) and the logger are UI code.
- Crossfading between tracks is not implemented by the program, so it is not modelled.
- Integer widths are unbounded except in `FrameDurationMs`, where the 32-bit conversion is written out. `size_t` counts and 64-bit positions cannot overflow at the sizes the program handles.
- Strings are sequences of characters, not bytes, and `tolower` follows the C locale.
- `FileName` splits paths only at '/', the POSIX separator.
