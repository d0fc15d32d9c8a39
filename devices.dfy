/**
 * The device lists reCam offers for selection: cameras found by probing
 * indices 0..9 (each one that opens contributes its resolution label
 * "<width>x<height>"), and microphones, the host audio devices with at
 * least one input channel, in host order.
 */
module DeviceEnumerator {
  import opened Options
  import opened Format
  import opened Indices

  /** How many camera indices are probed: `range(10)`. */
  const ProbeCount: nat := 10

  datatype Resolution = Resolution(width: nat, height: nat)

  /** The part of a host audio device's description the filter reads. */
  datatype DeviceInfo = DeviceInfo(name: string, maxInputChannels: int)

  /** The combobox entry for a camera. */
  function Label(r: Resolution): string {
    Decimal(r.width) + "x" + Decimal(r.height)
  }

  /** A separator right after a shorter run of digits cannot match a longer run of digits. */
  lemma SeparatorAfterDigits(s: string, t: string, u: string, v: string)
    requires AllDigits(u) && |s| < |u|
    ensures s + "x" + t != u + "x" + v
  {
    var x, y := s + "x" + t, u + "x" + v;
    assert x[|s|] == 'x';
    assert y[|s|] == u[|s|];
  }

  /** Distinct resolutions get distinct labels. */
  lemma LabelsDiffer(r: Resolution, q: Resolution)
    requires r != q
    ensures Label(r) != Label(q)
  {
    var a, b := Label(r), Label(q);
    if a == b {
      var i, j := |Decimal(r.width)|, |Decimal(q.width)|;
      if i < j {
        SeparatorAfterDigits(Decimal(r.width), Decimal(r.height), Decimal(q.width), Decimal(q.height));
      } else if j < i {
        SeparatorAfterDigits(Decimal(q.width), Decimal(q.height), Decimal(r.width), Decimal(r.height));
      } else {
        assert a[..i] == Decimal(r.width) && b[..i] == Decimal(q.width);
        DecimalInjective(r.width, q.width);
        assert a[i + 1..] == Decimal(r.height) && b[i + 1..] == Decimal(q.height);
        DecimalInjective(r.height, q.height);
      }
    }
  }

  /** Camera index `i` opened when probed. */
  function Opens(probe: nat -> Option<Resolution>): nat -> bool {
    (i: nat) => probe(i).Some?
  }

  /** Host device `i` exists and has input channels. */
  function HasInput(devices: seq<DeviceInfo>): nat -> bool {
    (i: nat) => i < |devices| && devices[i].maxInputChannels > 0
  }

  /** `cameras` holds one label per camera index 0..9 that opened, in index order. */
  ghost predicate ListsCameras(probe: nat -> Option<Resolution>, cameras: seq<string>) {
    var found := Selected(Opens(probe), ProbeCount);
    && |cameras| == |found|
    && forall k :: 0 <= k < |cameras| ==> probe(found[k]).Some? && cameras[k] == Label(probe(found[k]).value)
  }

  /** `microphones` holds the names of exactly the devices with input channels, in host order. */
  ghost predicate ListsMicrophones(devices: seq<DeviceInfo>, microphones: seq<string>) {
    var found := Selected(HasInput(devices), |devices|);
    && |microphones| == |found|
    && forall k :: 0 <= k < |microphones| ==>
         found[k] < |devices| && devices[found[k]].maxInputChannels > 0 && microphones[k] == devices[found[k]].name
  }

  /**
   * `probe(i)` is what opening camera `i` yields: its negotiated resolution,
   * or nothing when it does not open.  The list holds one label per index
   * that opened, in index order.
   */
  method ListCameras(probe: nat -> Option<Resolution>) returns (cameras: seq<string>)
    ensures ListsCameras(probe, cameras)
    ensures |cameras| <= ProbeCount
  {
    cameras := [];
    ghost var found: seq<nat> := [];
    for i := 0 to ProbeCount
      invariant found == Selected(Opens(probe), i)
      invariant |cameras| == |found|
      invariant forall k :: 0 <= k < |cameras| ==> probe(found[k]).Some? && cameras[k] == Label(probe(found[k]).value)
    {
      var probed := probe(i);
      if probed.Some? {
        cameras := cameras + [Label(probed.value)];
        found := found + [i];
      }
    }
    SelectedExactly(Opens(probe), ProbeCount);
  }

  /** The names of the devices with input channels, in host order. */
  method ListMicrophones(devices: seq<DeviceInfo>) returns (microphones: seq<string>)
    ensures ListsMicrophones(devices, microphones)
    ensures |microphones| <= |devices|
  {
    microphones := [];
    ghost var found: seq<nat> := [];
    for i := 0 to |devices|
      invariant found == Selected(HasInput(devices), i)
      invariant |microphones| == |found|
      invariant forall k :: 0 <= k < |microphones| ==>
        found[k] < |devices| && devices[found[k]].maxInputChannels > 0 && microphones[k] == devices[found[k]].name
    {
      if devices[i].maxInputChannels > 0 {
        microphones := microphones + [devices[i].name];
        found := found + [i];
      }
    }
    SelectedExactly(HasInput(devices), |devices|);
  }

  /** A prober for which only cameras 0 and 2 open. */
  function ProbeZeroAndTwo(i: nat): Option<Resolution> {
    if i == 0 then Some(Resolution(1280, 720))
    else if i == 2 then Some(Resolution(640, 480))
    else None
  }

  /** With only cameras 0 and 2 opening, the list has two entries, from index 0 then index 2. */
  lemma ZeroAndTwoListed()
    ensures Selected(Opens(ProbeZeroAndTwo), ProbeCount) == [0, 2]
  {
    var keep := Opens(ProbeZeroAndTwo);
    assert keep(0) && !keep(1) && keep(2);
    assert forall i :: 3 <= i ==> !keep(i);
    assert Selected(keep, 1) == [0];
    assert Selected(keep, 2) == [0];
    assert Selected(keep, 3) == [0, 2];
    assert Selected(keep, 4) == [0, 2];
    assert Selected(keep, 5) == [0, 2];
    assert Selected(keep, 6) == [0, 2];
    assert Selected(keep, 7) == [0, 2];
    assert Selected(keep, 8) == [0, 2];
    assert Selected(keep, 9) == [0, 2];
  }
}
