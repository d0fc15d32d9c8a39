# reCam core, modelled in Dafny

reCam is a local camera/microphone monitor. It renders camera frames in a
window, loops microphone audio back to the speakers and saves screenshots
on demand. This project models the sequential logic inside its `ReCam`
class. Camera, audio, window, clock and file-system calls are replaced by
plain inputs:

- **Shared audio buffer** (`AudioBuffer`): the list the capture worker
  appends chunks to. It drops the oldest chunk once the list is longer
  than 10. The playback worker pops chunks from its front. `Buffer<F>` is a
  class over a `seq` with the invariant `|frames| <= 10`. Pushes are tied
  to `Retained`, the reference definition: the last `min(N, 10)` frames of
  the push history.
- **Render/event loop** (`KeyEvents`, `ReCam.ReCam.OpenVideoWindow`):
  - The state is `(isRunning, isFullscreen)`.
  - Each iteration gets a frame-available flag and a raw key code.
  - The key is read only when a frame was available. It is masked with
    `& 0xFF`.
  - ESC (27) stops the loop. `'f'` toggles fullscreen. `'s'` asks for a
    screenshot. Every other key does nothing.
  - The loop runs over a finite script of iterations.
- **Screenshot namer** (`ScreenshotNamer.CaptureScreenshot`):
  - If the screenshot folder is absent and cannot be created, it writes
    nothing. Otherwise it tries `screenshot_<timestamp>_<suffix>.png` for
    suffix 1, 2, …, and writes the frame under the first name not already
    in the folder.
  - The folder is a map from file name to image.
- **Device lists** (`DeviceEnumerator`):
  - Cameras: indices 0..9 are probed in order. Each index that opens adds
    its `"<width>x<height>"` label.
  - Microphones: the names of the host devices with more than zero input
    channels, in host order.
- **Application object** (`ReCam.ReCam`): the fields the core reads and
  writes, and the methods that read and write them. Each worker loop (video, audio capture, audio playback)
  runs to completion over a finite script of inputs.

Device selection keeps the source's behaviour. The list leaves out devices
that failed the probe, yet the position chosen in the list is later used
as a raw device index (`reCam.py:91-93`, `reCam.py:98`, `reCam.py:164`).
With only cameras 0 and 2 present, choosing the second entry (camera 2's
label) reopens camera 1. `ReCam.SelectSecondListedCamera` proves this.

The model keeps these behaviours of the code:
- A screenshot save returns `None` on every path: the two bare `return`s
  (`reCam.py:139`, `reCam.py:142`) and the fall-through after the loop's
  `break` (`reCam.py:154`). The model's `outcome` out-parameter
  only records which branch ran and which suffix was chosen, so that the
  contract can state them; nothing in the model branches on it.
- Suffixes from repeated saves in one second are strictly increasing. They
  are contiguous only when the folder has no later suffixes already
  (`NextSaveInSameSecond`).
- A quit leaves `isFullscreen` as it was.
- A failed device open is not handled specially.

## Model

| member | source | states |
|---|---|---|
| `Format.Decimal` | reCam.py:148 | the decimal text of a suffix is non-empty and all digits; it has one digit exactly for values below 10; it starts with '0' only for 0, so there are no leading zeros |
| `Format.ParseDecimalInverts` | reCam.py:148 | reading the decimal text back gives the number: rendering a suffix loses nothing |
| `Format.DecimalInjective` | reCam.py:148 | distinct numbers have distinct decimal texts |
| `AudioBuffer.EvictingKeepsLatest` | reCam.py:170-172 | one push: the new frame is last; nothing is evicted below capacity, else exactly the old head goes; the result is a suffix of old-plus-new in the same order; the bound 10 is kept |
| `AudioBuffer.RetainedIsLatest` | reCam.py:170-172 | the reference window `Retained` holds min(N, 10) frames, and they are the last frames of the push history, in push order |
| `AudioBuffer.RetainedPush` | reCam.py:170-172 | one push on the retained window of a history gives the retained window of the extended history |
| `AudioBuffer.PushAllRetains` | reCam.py:168-172 | any sequence of pushes onto a buffer within the bound leaves exactly the retained window of the whole history |
| `AudioBuffer.PushesFromEmpty` | reCam.py:168-172 | from an empty buffer, N pushes leave min(N, 10) frames, and they are the last ones pushed, in order |
| `AudioBuffer.Buffer.constructor` | reCam.py:22 | the buffer starts empty and within its bound |
| `AudioBuffer.Buffer.Push` | reCam.py:170-172 | the list after a push is `Evicting` of the old list; `|frames| <= 10` is preserved |
| `AudioBuffer.Buffer.Pop` | reCam.py:183-184 | on a non-empty buffer returns the head and leaves the tail; on an empty one returns nothing and changes nothing |
| `KeyEvents.MaskKey` | reCam.py:117 | the masked code is a byte; codes already in 0..255 are unchanged; it agrees with the raw code modulo 256, so -1 becomes 255 |
| `KeyEvents.Step` | reCam.py:113-128 | without a frame nothing changes; `isRunning` drops exactly on ESC; `isFullscreen` flips exactly on `'f'` |
| `KeyEvents.StoppedIsTerminal` | reCam.py:112 | once `isRunning` is false, no input changes the state |
| `KeyEvents.RunAppend` | reCam.py:112-128 | running a script in two parts is the same as running it whole |
| `KeyEvents.QuitEndsLoop` | reCam.py:117-120 | at the first ESC the loop was still running; the final state is the state before that ESC with only `isRunning` cleared; the script after it is never processed |
| `KeyEvents.IgnoredAfterQuit` | reCam.py:118-120 | inputs appended after the first ESC do not change the result |
| `KeyEvents.ProcessedExactly` | reCam.py:112-120 | the iterations the loop runs are exactly those that find it running; the state after them is the final state; an unprocessed remainder means ESC stopped the loop |
| `KeyEvents.NoQuitKeepsRunning` | reCam.py:112-128 | a script with no ESC on an available frame leaves the loop running |
| `KeyEvents.StopsIffQuit` | reCam.py:112-120 | a running loop ends stopped if and only if the script holds an ESC on an available frame |
| `KeyEvents.FullscreenParity` | reCam.py:121-122 | without ESC, fullscreen ends flipped exactly when the script holds an odd number of `'f'` iterations |
| `KeyEvents.ToggleTwiceRestores` | reCam.py:121-122 | two `'f'` presses restore the original window state |
| `KeyEvents.OtherKeysChangeNothing` | reCam.py:117-128 | `'s'` and every key other than ESC and `'f'` leave the state unchanged; "no key" (-1) masks to a code with no action |
| `ScreenshotNamer.FileNamesDiffer` | reCam.py:148-149 | different suffixes give different file names for the same timestamp |
| `ScreenshotNamer.CaptureScreenshot` | reCam.py:130-156 | a failed folder creation (permission or other error) writes nothing; otherwise the suffix chosen is at least 1, its name is not in the folder, every smaller positive suffix is taken, and the folder afterwards is the old folder plus exactly that name holding the frame |
| `ScreenshotNamer.SaveAddsOneFreshName` | reCam.py:151-152 | a save never overwrites: the chosen name is new and the folder grows by exactly one file |
| `ScreenshotNamer.FirstFreeUnique` | reCam.py:145-156 | the first free suffix is determined by the folder |
| `ScreenshotNamer.NextSaveInSameSecond` | reCam.py:145-156 | a second save in the same second picks a strictly larger suffix, and the very next one if it was free |
| `ScreenshotNamer.ThirdSuffixAfterTwo` | reCam.py:145-156 | with suffixes 1 and 2 taken and 3 free, the save uses suffix 3 |
| `DeviceEnumerator.LabelsDiffer` | reCam.py:79 | distinct resolutions get distinct `"<width>x<height>"` labels |
| `Indices.SelectedExactly` | reCam.py:76-85 | the kept indices are below the bound, all accepted by the filter, strictly increasing, and every accepted index is kept |
| `DeviceEnumerator.ListCameras` | reCam.py:76-80 | the camera list has one label per index 0..9 that opened, in index order, so at most 10 entries |
| `DeviceEnumerator.ListMicrophones` | reCam.py:82-85 | the microphone list holds the names of exactly the devices with more than zero input channels, in host order |
| `DeviceEnumerator.ZeroAndTwoListed` | reCam.py:76-80 | with only cameras 0 and 2 opening, the list has two entries, for index 0 and then index 2 |
| `ReCam.ReCam.constructor` | reCam.py:16-59 | starts stopped and windowed, with selections 0, camera 0 open, an empty buffer, and both device lists filled |
| `ReCam.ReCam.PopulateComboboxes` | reCam.py:72-88 | stores the camera and microphone lists as `ListCameras`/`ListMicrophones` characterise them |
| `ReCam.ReCam.SetSelectedCamera` | reCam.py:90-95 | stores the chosen list position and reopens the capture on that position taken as a device index |
| `ReCam.ReCam.SetSelectedMicrophone` | reCam.py:97-98 | stores the chosen list position |
| `ReCam.ReCam.Launch` | reCam.py:205-206 | raises the running flag |
| `ReCam.ReCam.OpenVideoWindow` | reCam.py:108-128 | the final flags are `Run` of the script; the count of iterations run is `Processed`; the returned positions are `Selected` over the processed iterations that asked for a screenshot, that is, exactly those, in order |
| `ReCam.ReCam.CaptureAudio` | reCam.py:158-172 | opens the input stream on the selected position; when running, the buffer ends as the last min(N, 10) frames of old contents plus the captured chunks |
| `ReCam.ReCam.PlayAudio` | reCam.py:174-185 | the played chunks are the first min(polls, length) buffered chunks in FIFO order, and the buffer keeps the rest |
| `ReCam.LoopbackSession` | reCam.py:168-185 | when capture runs ahead of playback, playback hears only the most recent 10 chunks, oldest first |
| `ReCam.SelectSecondListedCamera` | reCam.py:90-93 | with cameras 0 and 2 present, picking the entry labelled for camera 2 reopens camera index 1 |

## Left out

- Threads (`startThreads`, the thread functions, the second call of
  `openVideoWindow` in `launchVideoWindow`): every operation is atomic
  here. So the model does not capture the unsynchronised sharing of
  `audioBuffer` and `isRunning` between workers. Each worker loop runs
  alone over a finite script of inputs.
- OpenCV calls (`namedWindow`, `resizeWindow`, `setWindowProperty`,
  `imshow`, `imwrite`, `VideoCapture.read/set/release`) and `setWindowSize`.
  They are device and UI calls. A frame read becomes the `available` flag
  of a tick. The requested 1280x720 capture resolution (`reCam.py:28-29`,
  `reCam.py:94-95`) is not modelled.
- `ScreenshotNamer.CaptureScreenshot`: `cv2.imwrite` is assumed to
  succeed. The source ignores its `False` result (`reCam.py:152`), so a
  failed write leaves the folder unchanged, which the model does not
  cover.
- PyAudio stream open/read/write and the numpy conversions: audio frames
  are opaque values, and stream opening cannot fail.
- The Tkinter GUI (`initGui`, combobox wiring, `mainloop`). It is
  presentation only.
- `ReCam.ReCam.constructor`: the source calls `current(0)` on both
  device lists right after filling them (`reCam.py:61-62`). Tk raises an
  error on an empty list, so the source cannot finish constructing when
  no camera opens or no device has input channels. The model constructs
  anyway and leaves that failure out. `ReCam.LoopbackSession` starts
  from a configuration the source can start: one camera and one
  microphone.
- `datetime.now().strftime`, `os.path.exists`, `os.makedirs` and the
  printed messages. The timestamp is a parameter. The folder's contents
  are a map parameter. Whether the folder exists, and how `makedirs`
  ends, is a `FolderStatus` input.
- The folder path joined in front of each screenshot name: names are
  relative to the screenshot folder.
- `ScreenshotNamer.CaptureScreenshot` does not take the unused
  `isFullscreen` argument.
- `int(cap.get(...))` of a negative or fractional resolution: widths and
  heights are natural numbers.
- `ReCam.ReCam.OpenVideoWindow`: the camera loop never ends by itself,
  but here it also stops when the script runs out.
- `ReCam.ReCam.CaptureAudio`: the loop pushes at most the scripted
  chunks; the flag cannot change during the call, so "stop when the flag
  drops" is only the initial check.
- `ReCam.ReCam.PlayAudio`: the busy-poll runs for a given number of
  iterations.
