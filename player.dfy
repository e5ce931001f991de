/** The playback engine's sequential logic: its helpers, the state changes made by the control
    thread, the load bookkeeping, and the buffer-filling steps of the audio callback. The
    decoder, the audio device and the decode thread appear only through parameters. */
module Player {
  import opened RingBuffers

  datatype PlayerState = Stopped | Playing | Paused

  /** What a successful load records about the track. */
  datatype TrackInfo = TrackInfo(
    path: string, displayName: string, sampleRate: int, channels: int,
    durationKnown: bool, durationSamples: int)

  /** Result of opening the output device: failure, or the format the device accepted. */
  datatype DeviceOpen = OpenFailed | Opened(rate: int, channels: int)

  /** Samples each ring can hold. */
  const RingCapacity: nat := 262144

  const Int32Min: int := -0x8000_0000
  const Int32Max: int := 0x7fff_ffff

  predicate IsInt32(x: int) { Int32Min <= x <= Int32Max }

  /** Conversion of a wider integer to a 32-bit `int`: two's-complement wrap-around. */
  function Int32(x: int): (r: int)
    ensures IsInt32(r)
    ensures (x - r) % 0x1_0000_0000 == 0
    ensures IsInt32(x) ==> r == x
  {
    var m := x % 0x1_0000_0000;
    if m > Int32Max then m - 0x1_0000_0000 else m
  }

  function Max(a: int, b: int): int { if a >= b then a else b }

  /** Integer quotient of two positive numbers; the product `frames * 1000` is computed in
      64 bits, where it cannot overflow for 32-bit arguments. */
  lemma QuotientBounds(num: nat, den: nat)
    requires den > 0
    ensures 0 <= num / den
    ensures (num / den) * den <= num < (num / den + 1) * den
    ensures num < den ==> num / den == 0
  {
  }

  /** `path.filename()`: the part after the last '/'. */
  function FileName(path: string): (r: string)
    ensures |r| <= |path|
  {
    if path == [] || path[|path| - 1] == '/' then []
    else FileName(path[..|path| - 1]) + [path[|path| - 1]]
  }

  /** The file name is the longest suffix of the path without a '/': a suffix, free of '/',
      and preceded by a '/' unless it is the whole path. */
  lemma {:induction false} FileNameIsLastComponent(path: string)
    ensures var r := FileName(path);
            && r == path[|path| - |r|..]
            && '/' !in r
            && (|r| < |path| ==> path[|path| - |r| - 1] == '/')
  {
    var n := |path|;
    if n > 0 && path[n - 1] != '/' {
      var init := path[..n - 1];
      FileNameIsLastComponent(init);
      var r := FileName(init);
      var full := FileName(path);
      assert full == r + [path[n - 1]];
      forall k | 0 <= k < |full|
        ensures full[k] == path[n - |full| + k]
      {
        if k < |r| {
          assert r[k] == init[|init| - |r| + k];
        }
      }
    }
  }

  /** `duration_samples` after a load: the decoder's length in seconds times the sample rate
      when the length is known (positive), else 0. */
  function DurationSamples(lenSec: int, sampleRate: int): (r: int)
    ensures lenSec <= 0 ==> r == 0
    ensures lenSec > 0 && sampleRate > 0 ==> r >= sampleRate && r % sampleRate == 0 && r / sampleRate == lenSec
  {
    if lenSec > 0 then
      DurationIsWholeSeconds(lenSec, sampleRate);
      lenSec * sampleRate
    else 0
  }

  lemma ProductSign(x: int, d: int)
    requires d > 0
    ensures x * d < 0 <==> x < 0
  {
  }

  lemma DurationIsWholeSeconds(lenSec: int, sampleRate: int)
    requires lenSec > 0
    ensures sampleRate > 0 ==> lenSec * sampleRate >= sampleRate
    ensures sampleRate > 0 ==> (lenSec * sampleRate) % sampleRate == 0 && (lenSec * sampleRate) / sampleRate == lenSec
  {
    if sampleRate > 0 {
      var p := lenSec * sampleRate;
      var q, rem := p / sampleRate, p % sampleRate;
      assert p == q * sampleRate + rem && 0 <= rem < sampleRate;
      assert (lenSec - q) * sampleRate == rem;
      assert (lenSec - q - 1) * sampleRate == rem - sampleRate;
      ProductSign(lenSec - q, sampleRate);
      ProductSign(lenSec - q - 1, sampleRate);
      assert p == (lenSec - 1) * sampleRate + sampleRate;
      ProductSign(lenSec - 1, sampleRate);
    }
  }

  /** `clamp(volume / 100, 0, 1)`: the output level of a volume setting. */
  function Level(volume: int): (r: real)
    ensures 0.0 <= r <= 1.0
    ensures volume <= 0 ==> r == 0.0
    ensures volume >= 100 ==> r == 1.0
    ensures 0 <= volume <= 100 ==> r * 100.0 == volume as real
  {
    var v := volume as real / 100.0;
    if v < 0.0 then 0.0 else if v > 1.0 then 1.0 else v
  }

  function Zeros(n: nat): (z: seq<real>)
    ensures |z| == n && forall i :: 0 <= i < n ==> z[i] == 0.0
  {
    seq(n, i => 0.0)
  }

  /** What the callback takes from the ring for a request of `n` samples: the oldest queued
      samples that are available, then silence. */
  function Drained(queued: seq<real>, n: nat): (d: seq<real>)
    ensures |d| == n
    ensures forall i :: 0 <= i < n ==> d[i] == if i < |queued| then queued[i] else 0.0
  {
    var got := Min(n, |queued|);
    queued[..got] + Zeros(n - got)
  }

  class Player {
    /** Samples for the audio device. */
    const audioRing: RingBuffer<real>
    /** Samples for the waveform display. */
    const vizRing: RingBuffer<real>

    var state: PlayerState
    var loading: bool
    var loaded: bool
    var trackEnded: bool
    var requestPending: bool
    var pendingPath: string
    var sampleRate: int
    var channels: int
    var volume: int
    var mute: bool
    var positionSamples: int
    var underrunCount: nat
    var fadeOutComplete: bool
    var track: TrackInfo

    ghost predicate Valid()
      reads this, audioRing, vizRing
    {
      && audioRing.Valid() && vizRing.Valid()
      && audioRing != vizRing && audioRing.buffer != vizRing.buffer
      && audioRing.capacity == RingCapacity + 1 && vizRing.capacity == RingCapacity + 1
    }

    /** The decode thread that the source starts here is not part of this model. */
    constructor ()
      ensures Valid() && fresh(audioRing) && fresh(vizRing) && fresh(audioRing.buffer) && fresh(vizRing.buffer)
      ensures audioRing.Contents() == [] && vizRing.Contents() == []
      ensures state == Stopped && !loading && !loaded && !trackEnded && !requestPending
      ensures volume == 100 && !mute && positionSamples == 0 && underrunCount == 0
      ensures sampleRate == 44100 && channels == 2
    {
      audioRing := new RingBuffer<real>(RingCapacity);
      vizRing := new RingBuffer<real>(RingCapacity);
      state := Stopped;
      loading, loaded, trackEnded, requestPending := false, false, false, false;
      pendingPath := [];
      sampleRate, channels := 44100, 2;
      volume, mute := 100, false;
      positionSamples, underrunCount := 0, 0;
      fadeOutComplete := false;
      track := TrackInfo([], [], 44100, 2, false, 0);
    }

    /** Duration in milliseconds of `frames` frames at `sampleRate`: 0 for a non-positive
        argument, otherwise the whole milliseconds but at least 1. The 64-bit quotient is
        converted back to a 32-bit `int`. */
    static function FrameDurationMs(frames: int, sampleRate: int): (r: int)
      requires IsInt32(frames) && IsInt32(sampleRate)
      ensures frames <= 0 || sampleRate <= 0 ==> r == 0
      ensures frames > 0 && sampleRate > 0 ==> r >= 1
      ensures frames > 0 && sampleRate > 0 && frames * 1000 / sampleRate <= Int32Max && r > 1
              ==> r * sampleRate <= frames * 1000 < (r + 1) * sampleRate
      ensures frames > 0 && sampleRate > 0 && frames * 1000 < sampleRate ==> r == 1
      ensures frames > 0 && sampleRate > 0 ==> r == Max(1, Int32(frames * 1000 / sampleRate))
    {
      if frames <= 0 || sampleRate <= 0 then 0
      else
        var num := frames * 1000;
        var q := num / sampleRate;
        QuotientBounds(num, sampleRate);
        assert q <= Int32Max ==> Int32(q) == q;
        Max(1, Int32(q))
    }

    /** The device list shown to the user: "Default" first, then every other non-empty name
        in its original order. */
    static method NormalizeDeviceList(devices: seq<string>) returns (out: seq<string>)
      ensures out == ["Default"] + KeptDevices(devices)
      ensures forall k :: 1 <= k < |out| ==> out[k] != "" && out[k] != "Default" && out[k] in devices
    {
      out := ["Default"];
      for i := 0 to |devices|
        invariant out == ["Default"] + KeptDevices(devices[..i])
      {
        var name := devices[i];
        if name != "" && name != "Default" {
          out := out + [name];
        }
        assert devices[..i + 1][..i] == devices[..i];
      }
      assert devices[..|devices|] == devices;
      assert forall k :: 1 <= k < |out| ==> out[k] in KeptDevices(devices) by {
        forall k | 1 <= k < |out|
          ensures out[k] in KeptDevices(devices)
        {
          assert out[k] == KeptDevices(devices)[k - 1];
        }
      }
    }

    /** Requests an asynchronous load of `path`; the request always succeeds. */
    method Load(path: string) returns (ok: bool)
      modifies this`pendingPath, this`requestPending, this`loading, this`trackEnded
      ensures ok && pendingPath == path && requestPending && loading && !trackEnded
    {
      pendingPath := path;
      requestPending := true;
      loading := true;
      trackEnded := false;
      return true;
    }

    /** Pausing or resuming the audio device is not part of this model. */
    method Play()
      modifies this`state
      ensures state == Playing
    {
      state := Playing;
    }

    method Pause()
      modifies this`state
      ensures state == Paused
    {
      state := Paused;
    }

    /** Empties both rings, rewinds the position, clears the end flag and stops. */
    method Stop()
      requires Valid()
      modifies this`positionSamples, this`trackEnded, this`state, audioRing`tail, vizRing`tail
      ensures Valid()
      ensures audioRing.Contents() == [] && vizRing.Contents() == []
      ensures positionSamples == 0 && !trackEnded && state == Stopped
    {
      audioRing.Clear();
      vizRing.Clear();
      positionSamples := 0;
      trackEnded := false;
      state := Stopped;
    }

    method SetVolume(v: int)
      modifies this`volume
      ensures volume == v
    {
      volume := v;
    }

    method SetMute(m: bool)
      modifies this`mute
      ensures mute == m
    {
      mute := m;
    }

    /** Read-and-clear: reports whether the track ended since the last call. */
    method HasTrackEnded() returns (ended: bool)
      modifies this`trackEnded
      ensures ended == old(trackEnded) && !trackEnded
    {
      ended := trackEnded;
      trackEnded := false;
    }

    /** Read-and-clear: reports whether a fade-out completed since the last call. */
    method IsFadeOutComplete() returns (complete: bool)
      modifies this`fadeOutComplete
      ensures complete == old(fadeOutComplete) && !fadeOutComplete
    {
      complete := fadeOutComplete;
      fadeOutComplete := false;
    }

    /** The decode thread's load step. The device outcome, whether the decoder accepts the
        file and the decoder's length in seconds are parameters. Stale audio is always
        discarded; on success the track information records the known duration. */
    method DoLoad(path: string, device: DeviceOpen, decoderAccepts: bool, lenSec: int) returns (ok: bool)
      requires Valid()
      modifies this`loaded, this`positionSamples, this`trackEnded, this`sampleRate, this`channels,
               this`track, audioRing`tail, vizRing`tail
      ensures Valid()
      ensures !loaded && positionSamples == 0 && !trackEnded
      ensures audioRing.Contents() == [] && vizRing.Contents() == []
      ensures ok <==> device.Opened? && decoderAccepts
      ensures device.Opened? ==> sampleRate == device.rate && channels == device.channels
      ensures device.OpenFailed? ==> sampleRate == old(sampleRate) && channels == old(channels)
      ensures ok ==> track == TrackInfo(path, FileName(path), device.rate, device.channels,
                                        lenSec > 0, DurationSamples(lenSec, device.rate))
      ensures !ok ==> track == old(track)
    {
      if loaded {
        loaded := false;
      }
      audioRing.Clear();
      vizRing.Clear();
      positionSamples := 0;
      trackEnded := false;

      if device.OpenFailed? {
        return false;
      }
      sampleRate := device.rate;
      channels := device.channels;

      if !decoderAccepts {
        return false;
      }

      track := TrackInfo(path, FileName(path), sampleRate, channels, lenSec > 0,
                         DurationSamples(lenSec, sampleRate));
      return true;
    }

    /** The audio callback for a request of `out.Length` samples. It drains the ring, fills
        the shortfall with silence and counts one underrun for it; muted output is silence;
        otherwise each sample is scaled by the volume level and the fade gain `fadeGain(i)`
        that the envelope holds at sample `i`. */
    method AudioCallback(out: array<real>, fadeGain: nat -> real)
      requires Valid() && out != audioRing.buffer && out != vizRing.buffer
      modifies out, audioRing`tail, this`underrunCount
      ensures Valid()
      ensures vizRing.Contents() == old(vizRing.Contents())
      ensures var got := Min(out.Length, |old(audioRing.Contents())|);
              && audioRing.Contents() == old(audioRing.Contents())[got..]
              && underrunCount == old(underrunCount) + (if got < out.Length then 1 else 0)
      ensures mute ==> out[..] == Zeros(out.Length)
      ensures !mute ==> forall i :: 0 <= i < out.Length ==>
                out[i] == Drained(old(audioRing.Contents()), out.Length)[i] * (Level(volume) * fadeGain(i))
    {
      var samples := out.Length;
      ghost var queued := audioRing.Contents();
      var got := audioRing.Read(out, samples);
      if got < samples {
        ZeroFill(out, got);
        underrunCount := underrunCount + 1;
      }
      assert out[..] == Drained(queued, samples) by {
        assert out[..] == out[..got] + out[got..];
      }

      if mute {
        ZeroFill(out, 0);
        return;
      }

      var vol := Level(volume);
      Scale(out, vol, fadeGain);
    }

    /** Takes up to `count` samples for the waveform display. */
    method ReadWaveform(out: array<real>, count: nat) returns (n: nat)
      requires Valid() && count <= out.Length && out != vizRing.buffer && out != audioRing.buffer
      modifies vizRing`tail, out
      ensures Valid()
      ensures audioRing.Contents() == old(audioRing.Contents())
      ensures n == Min(count, |old(vizRing.Contents())|)
      ensures out[..n] == old(vizRing.Contents())[..n]
      ensures out[n..] == old(out[n..])
      ensures vizRing.Contents() == old(vizRing.Contents())[n..]
    {
      n := vizRing.Read(out, count);
    }
  }

  /** `memset` of `out[from..]` to silence. */
  method ZeroFill(out: array<real>, from: nat)
    requires from <= out.Length
    modifies out
    ensures out[..from] == old(out[..from])
    ensures out[from..] == Zeros(out.Length - from)
  {
    for i := from to out.Length
      invariant out[..from] == old(out[..from])
      invariant forall k :: from <= k < i ==> out[k] == 0.0
    {
      out[i] := 0.0;
    }
  }

  /** Multiplies sample `i` by the volume level and the fade gain at `i`. */
  method Scale(out: array<real>, vol: real, fadeGain: nat -> real)
    modifies out
    ensures forall k :: 0 <= k < out.Length ==> out[k] == old(out[k]) * (vol * fadeGain(k))
  {
    for i := 0 to out.Length
      invariant forall k :: 0 <= k < i ==> out[k] == old(out[k]) * (vol * fadeGain(k))
      invariant forall k :: i <= k < out.Length ==> out[k] == old(out[k])
    {
      out[i] := out[i] * (vol * fadeGain(i));
    }
  }

  /** The device names kept after "Default", in their original order. */
  function KeptDevices(devices: seq<string>): (r: seq<string>)
    ensures |r| <= |devices|
    ensures forall x :: x in r <==> x in devices && x != "" && x != "Default"
  {
    if devices == [] then []
    else
      var last := devices[|devices| - 1];
      var init := devices[..|devices| - 1];
      assert devices == init + [last];
      KeptDevices(init) + (if last != "" && last != "Default" then [last] else [])
  }

  /** A list without empty or "Default" names is kept whole and in order. */
  lemma {:induction false} KeptDevicesIdentity(devices: seq<string>)
    requires forall x :: x in devices ==> x != "" && x != "Default"
    ensures KeptDevices(devices) == devices
  {
    if devices != [] {
      var init := devices[..|devices| - 1];
      var last := devices[|devices| - 1];
      assert devices == init + [last];
      assert forall x :: x in init ==> x in devices;
      KeptDevicesIdentity(init);
      assert last in devices;
    }
  }

  /** 1024 frames at 48 kHz last 21 ms. A quotient beyond the 32-bit range wraps modulo
      2^32 before the 1 ms floor applies: 2147484000 wraps to a negative value and gives 1,
      while 4294968000 wraps to 704 and gives 704. */
  lemma FrameDurationExamples()
    ensures Player.FrameDurationMs(1024, 48000) == 21
    ensures Player.FrameDurationMs(2147484, 1) == 1
    ensures Player.FrameDurationMs(4294968, 1) == 704
  {
  }

  /** Read-and-clear flags: a second immediate query reports false; an empty device list
      gives exactly ["Default"]; a load clears the end flag. */
  method FlagScenario(p: Player)
    requires p.Valid()
    modifies p
  {
    var first := p.HasTrackEnded();
    var second := p.HasTrackEnded();
    assert !second;
    var f1 := p.IsFadeOutComplete();
    var f2 := p.IsFadeOutComplete();
    assert !f2;
    var list := Player.NormalizeDeviceList([]);
    assert list == ["Default"];
    var requested := p.Load("song.m");
    var ended := p.HasTrackEnded();
    assert requested && !ended;
  }
}
