/**
 * The application object of reCam: the window flags, the selected device
 * positions, the device lists offered for selection, the shared audio
 * buffer, and the loops of the video, audio-capture and audio-playback
 * workers, each run here to completion on a finite script of inputs.
 */
module ReCam {
  import opened Options
  import opened AudioBuffer
  import opened KeyEvents
  import opened DeviceEnumerator
  import opened Indices

  /** One chunk read from the microphone (1024 signed 16-bit samples); its contents are not examined. */
  datatype AudioFrame = AudioFrame(samples: seq<int>)

  class ReCam {
    var isRunning: bool
    var isFullscreen: bool
    /** Positions chosen in the camera and microphone lists. */
    var selectedCameraIndex: int
    var selectedMicrophoneIndex: int
    /** The camera index the capture handle is open on. */
    var cameraDevice: int
    /** The input device index the capture worker opened its stream with, once it has. */
    var audioInputDevice: Option<int>
    /** The entries of the camera and microphone lists. */
    var cameraChoices: seq<string>
    var microphoneChoices: seq<string>
    const audioBuffer: Buffer<AudioFrame>

    ghost predicate Valid()
      reads this, audioBuffer
    {
      audioBuffer.Valid()
    }

    function State(): Window
      reads this
    {
      Window(isRunning, isFullscreen)
    }

    /** Starts stopped, windowed, on camera 0 and microphone 0, with an empty buffer and the device lists filled. */
    constructor (probe: nat -> Option<Resolution>, devices: seq<DeviceInfo>)
      ensures Valid() && fresh(audioBuffer)
      ensures State() == Window(false, false) && audioBuffer.frames == []
      ensures selectedCameraIndex == 0 && selectedMicrophoneIndex == 0 && cameraDevice == 0
      ensures audioInputDevice == None
      ensures ListsCameras(probe, cameraChoices)
      ensures ListsMicrophones(devices, microphoneChoices)
    {
      isRunning, isFullscreen := false, false;
      selectedCameraIndex, selectedMicrophoneIndex := 0, 0;
      cameraDevice := 0;
      audioInputDevice := None;
      audioBuffer := new Buffer<AudioFrame>();
      new;
      PopulateComboboxes(probe, devices);
    }

    method PopulateComboboxes(probe: nat -> Option<Resolution>, devices: seq<DeviceInfo>)
      modifies this`cameraChoices, this`microphoneChoices
      ensures ListsCameras(probe, cameraChoices)
      ensures ListsMicrophones(devices, microphoneChoices)
    {
      cameraChoices := ListCameras(probe);
      microphoneChoices := ListMicrophones(devices);
    }

    /**
     * Selecting the entry at `position` stores the position and reopens the
     * capture on camera index `position`: the list position, not the index
     * of the camera the entry describes.
     */
    method SetSelectedCamera(position: nat)
      requires position < |cameraChoices|
      modifies this`selectedCameraIndex, this`cameraDevice
      ensures selectedCameraIndex == position && cameraDevice == position
    {
      selectedCameraIndex := position;
      cameraDevice := selectedCameraIndex;
    }

    method SetSelectedMicrophone(position: nat)
      requires position < |microphoneChoices|
      modifies this`selectedMicrophoneIndex
      ensures selectedMicrophoneIndex == position
    {
      selectedMicrophoneIndex := position;
    }

    /** The launch button: raise the running flag (the workers are started by the caller). */
    method Launch()
      modifies this`isRunning
      ensures isRunning
    {
      isRunning := true;
    }

    /**
     * The render loop over a script of iterations.  It returns how many
     * iterations ran and the positions of those that asked for a screenshot
     * (each of which hands the current frame to the screenshot namer).
     */
    method OpenVideoWindow(ticks: seq<Tick>) returns (consumed: nat, shots: seq<nat>)
      modifies this`isRunning, this`isFullscreen
      ensures State() == Run(old(State()), ticks)
      ensures consumed == Processed(old(State()), ticks)
      ensures shots == Selected(ScreenshotAt(ticks), consumed)
    {
      ghost var start := State();
      consumed, shots := 0, [];
      while isRunning && consumed < |ticks|
        invariant consumed <= |ticks|
        invariant Run(start, ticks) == Run(State(), ticks[consumed..])
        invariant Processed(start, ticks) == consumed + Processed(State(), ticks[consumed..])
        invariant shots == Selected(ScreenshotAt(ticks), consumed)
      {
        var t := ticks[consumed];
        OneIteration(State(), ticks, consumed);
        ScreenshotsOneMore(ticks, consumed);
        consumed := consumed + 1;
        if t.available {
          var key := MaskKey(t.key);
          assert TickAction(t) == KeyAction(key);
          if key == EscKey {
            isRunning := false;
            break;
          } else if key == FullscreenKey {
            isFullscreen := !isFullscreen;
          } else if key == ScreenshotKey {
            shots := shots + [consumed - 1];
          }
        }
      }
    }

    /**
     * The capture worker over a script of chunks read from the microphone:
     * it opens the input stream on the selected position and, while
     * running, pushes every chunk.
     */
    method CaptureAudio(chunks: seq<AudioFrame>)
      requires Valid()
      modifies this`audioInputDevice, audioBuffer
      ensures Valid()
      ensures audioInputDevice == Some(selectedMicrophoneIndex)
      ensures audioBuffer.frames ==
        if isRunning then Retained(old(audioBuffer.frames) + chunks) else old(audioBuffer.frames)
    {
      audioInputDevice := Some(selectedMicrophoneIndex);
      ghost var history := audioBuffer.frames;
      var i := 0;
      while isRunning && i < |chunks|
        invariant 0 <= i <= |chunks|
        invariant audioBuffer.Valid()
        invariant !isRunning ==> i == 0
        invariant audioInputDevice == Some(selectedMicrophoneIndex)
        invariant history == old(audioBuffer.frames) + chunks[..i]
        invariant audioBuffer.frames == Retained(history)
      {
        RetainedPush(history, chunks[i]);
        audioBuffer.Push(chunks[i]);
        history := history + [chunks[i]];
        assert chunks[..i + 1] == chunks[..i] + [chunks[i]];
        i := i + 1;
      }
      if isRunning {
        assert chunks[..i] == chunks;
      }
    }

    /**
     * The playback worker over `polls` iterations: each one that finds the
     * buffer non-empty takes its oldest chunk and writes it out; the
     * written chunks are returned in order.
     */
    method PlayAudio(polls: nat) returns (played: seq<AudioFrame>)
      requires Valid()
      modifies audioBuffer
      ensures Valid()
      ensures var n := if isRunning then Min(polls, |old(audioBuffer.frames)|) else 0;
        played == old(audioBuffer.frames)[..n] && audioBuffer.frames == old(audioBuffer.frames)[n..]
    {
      played := [];
      var p := 0;
      while isRunning && p < polls
        invariant p <= polls && audioBuffer.Valid()
        invariant !isRunning ==> p == 0
        invariant |played| == Min(p, |old(audioBuffer.frames)|)
        invariant played == old(audioBuffer.frames)[..|played|]
        invariant audioBuffer.frames == old(audioBuffer.frames)[|played|..]
      {
        var head := audioBuffer.Pop();
        if head.Some? {
          played := played + [head.value];
        }
        p := p + 1;
      }
    }
  }

  /**
   * Capture running ahead of playback: after `chunks` were captured into
   * the empty buffer, playback hears only the most recent `Capacity` of
   * them, oldest first, never an earlier one.
   */
  method LoopbackSession(chunks: seq<AudioFrame>, polls: nat) returns (played: seq<AudioFrame>)
    ensures played == Retained(chunks)[..Min(polls, |Retained(chunks)|)]
  {
    var app := new ReCam(ProbeZeroAndTwo, [DeviceInfo("mic", 1)]);
    app.Launch();
    app.CaptureAudio(chunks);
    assert [] + chunks == chunks;
    assert app.audioBuffer.frames == Retained(chunks);
    played := app.PlayAudio(polls);
  }

  /**
   * With only cameras 0 and 2 present, picking the second entry (the label
   * of camera 2) reopens the capture on camera index 1.
   */
  method SelectSecondListedCamera() returns (picked: string, reopened: int)
    ensures picked == Label(Resolution(640, 480))
    ensures reopened == 1
  {
    var app := new ReCam(ProbeZeroAndTwo, [DeviceInfo("mic", 1)]);
    ZeroAndTwoListed();
    picked := app.cameraChoices[1];
    app.SetSelectedCamera(1);
    reopened := app.cameraDevice;
  }
}
