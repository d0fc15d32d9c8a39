/**
 * The shared audio buffer of reCam: a list of audio chunks that the capture
 * worker appends to and the playback worker takes from the front of.  A push
 * appends and, when the list has grown past `Capacity`, drops the oldest
 * chunk (drop-oldest policy); a pop removes and returns the oldest chunk.
 */
module AudioBuffer {
  import opened Options

  /** The bound the capture step compares the list's length against. */
  const Capacity: nat := 10

  /** The list after one capture step: append, then drop index 0 if too long. */
  function Evicting<F>(frames: seq<F>, f: F): seq<F> {
    var appended := frames + [f];
    if |appended| > Capacity then appended[1..] else appended
  }

  /**
   * After a push the new frame is last; below capacity nothing is evicted,
   * otherwise exactly the old head goes; what stays keeps its order and the
   * bound is kept.
   */
  lemma EvictingKeepsLatest<F>(frames: seq<F>, f: F)
    ensures var r := Evicting(frames, f);
      && 1 <= |r| && r[|r| - 1] == f
      && (|frames| < Capacity ==> r == frames + [f])
      && (|frames| >= Capacity ==> r == frames[1..] + [f])
      && (|frames| <= Capacity ==> |r| <= Capacity)
  {
    if |frames| >= Capacity {
      assert (frames + [f])[1..] == frames[1..] + [f];
    }
  }

  function Min(a: nat, b: nat): nat {
    if a < b then a else b
  }

  /** The reference definition: the last Min(N, Capacity) frames of a push history. */
  function Retained<F>(pushed: seq<F>): seq<F> {
    if |pushed| <= Capacity then pushed else pushed[|pushed| - Capacity..]
  }

  /** The retained window holds Min(N, Capacity) frames, and they are the last ones of the history. */
  lemma RetainedIsLatest<F>(pushed: seq<F>)
    ensures |Retained(pushed)| == Min(|pushed|, Capacity)
    ensures Retained(pushed) == pushed[|pushed| - |Retained(pushed)|..]
  {
  }

  /** One capture step on the retained window of a history retains the extended history. */
  lemma RetainedPush<F>(pushed: seq<F>, f: F)
    ensures |Retained(pushed)| <= Capacity
    ensures Evicting(Retained(pushed), f) == Retained(pushed + [f])
  {
    var h := pushed + [f];
    if |pushed| >= Capacity {
      assert Retained(pushed)[1..] + [f] == h[|h| - Capacity..];
    }
  }

  /**
   * Pushing `fs` one by one onto `frames`: the fold-level form of the capture
   * loop of `ReCam.ReCam.CaptureAudio`, for use in functions and lemmas.
   */
  function PushAll<F>(frames: seq<F>, fs: seq<F>): seq<F>
    decreases |fs|
  {
    if fs == [] then frames else Evicting(PushAll(frames, fs[..|fs| - 1]), fs[|fs| - 1])
  }

  /**
   * Any number of pushes onto a bounded buffer keeps exactly the most recent
   * frames of the whole history, in push order; from an empty buffer, N
   * pushes leave the last Min(N, Capacity) pushed frames.
   */
  lemma {:induction false} PushAllRetains<F>(frames: seq<F>, fs: seq<F>)
    requires |frames| <= Capacity
    ensures PushAll(frames, fs) == Retained(frames + fs)
    decreases |fs|
  {
    if fs == [] {
      assert frames + fs == frames;
    } else {
      var init, last := fs[..|fs| - 1], fs[|fs| - 1];
      PushAllRetains(frames, init);
      RetainedPush(frames + init, last);
      assert frames + init + [last] == frames + fs;
    }
  }

  lemma PushesFromEmpty<F>(fs: seq<F>)
    ensures |PushAll([], fs)| == Min(|fs|, Capacity)
    ensures PushAll([], fs) == fs[|fs| - |PushAll([], fs)|..]
  {
    PushAllRetains([], fs);
    assert [] + fs == fs;
    RetainedIsLatest(fs);
  }

  class Buffer<F> {
    /** The queued chunks, oldest first. */
    var frames: seq<F>

    ghost predicate Valid()
      reads this
    {
      |frames| <= Capacity
    }

    constructor ()
      ensures Valid() && frames == []
    {
      frames := [];
    }

    /** The capture step: append `f`, evict the oldest chunk when over capacity. */
    method Push(f: F)
      requires Valid()
      modifies this
      ensures Valid()
      ensures frames == Evicting(old(frames), f)
    {
      frames := frames + [f];
      if |frames| > Capacity {
        frames := frames[1..];
      }
    }

    /** The playback step: when non-empty, remove and return the oldest chunk. */
    method Pop() returns (head: Option<F>)
      requires Valid()
      modifies this
      ensures Valid()
      ensures old(frames) == [] ==> head == None && frames == []
      ensures old(frames) != [] ==> head == Some(old(frames)[0]) && frames == old(frames)[1..]
    {
      if frames != [] {
        head := Some(frames[0]);
        frames := frames[1..];
      } else {
        head := None;
      }
    }
  }
}
