/** The audio helpers of the request/response client: the byte <->
    binary-string loops around base64, the float -> 16-bit PCM conversion of
    captured frames (`createPcmBlob`), and the 16-bit PCM -> float
    de-interleaving of received audio (`decodeAudioData`).

    Base64 itself (`btoa`/`atob`, section 4 of RFC 4648) is the browser's and
    is passed in as a function; float samples are `real`, which is exact for
    the scaling by 32768 done here. */
module AudioCodec {
  import opened Wrappers

  type Byte = x: int | 0 <= x < 256

  const Int16Min: int := -32768
  const Int16Max: int := 32767
  /** The factor between a float sample and a 16-bit one. */
  const Scale: real := 32768.0
  const CaptureMimeType: string := "audio/pcm;rate=16000"

  predicate IsInt16(v: int) {
    Int16Min <= v <= Int16Max
  }

  // ---------------------------------------------------------------------------
  // Bytes <-> binary strings (the loops of `encode` and `decode`)
  // ---------------------------------------------------------------------------

  /** The binary string `String.fromCharCode` builds: one character per byte. */
  function BinaryString(bytes: seq<Byte>): (s: string)
    ensures |s| == |bytes|
    ensures forall i :: 0 <= i < |bytes| ==> s[i] as int == bytes[i]
  {
    seq(|bytes|, i requires 0 <= i < |bytes| => bytes[i] as char)
  }

  /** What storing `charCodeAt(i)` into a `Uint8Array` keeps: the code unit
      modulo 256. */
  function BytesOf(binary: string): (bytes: seq<Byte>)
    ensures |bytes| == |binary|
    ensures forall i :: 0 <= i < |binary| ==> bytes[i] == binary[i] as int % 256
  {
    seq(|binary|, i requires 0 <= i < |binary| => binary[i] as int % 256)
  }

  /** The loop of `encode`, before the final `btoa`. */
  method EncodeBinary(bytes: seq<Byte>) returns (binary: string)
    ensures |binary| == |bytes|
    ensures forall i :: 0 <= i < |bytes| ==> binary[i] as int == bytes[i]
  {
    binary := "";
    var i := 0;
    while i < |bytes|
      invariant 0 <= i <= |bytes|
      invariant |binary| == i
      invariant forall k :: 0 <= k < i ==> binary[k] as int == bytes[k]
    {
      binary := binary + [bytes[i] as char];
      i := i + 1;
    }
  }

  /** The loop of `decode`, after the initial `atob`. */
  method DecodeBinary(binary: string) returns (bytes: seq<Byte>)
    ensures |bytes| == |binary|
    ensures forall i :: 0 <= i < |binary| ==> bytes[i] == binary[i] as int % 256
  {
    bytes := [];
    var i := 0;
    while i < |binary|
      invariant 0 <= i <= |binary|
      invariant |bytes| == i
      invariant forall k :: 0 <= k < i ==> bytes[k] == binary[k] as int % 256
    {
      bytes := bytes + [binary[i] as int % 256];
      i := i + 1;
    }
  }

  /** `encode`: bytes to a binary string, then `btoa`. */
  method Encode(btoa: string -> string, bytes: seq<Byte>) returns (base64: string)
    ensures base64 == btoa(BinaryString(bytes))
  {
    var binary := EncodeBinary(bytes);
    assert binary == BinaryString(bytes);
    base64 := btoa(binary);
  }

  /** `decode`: `atob`, then one byte per character. */
  method Decode(atob: string -> string, base64: string) returns (bytes: seq<Byte>)
    ensures bytes == BytesOf(atob(base64))
  {
    bytes := DecodeBinary(atob(base64));
  }

  /** Reading back the binary string of a byte sequence yields the bytes. */
  lemma BinaryRoundTrip(bytes: seq<Byte>)
    ensures BytesOf(BinaryString(bytes)) == bytes
  {
  }

  /** `decode(encode(b)) == b` for every byte sequence, given only that
      `atob` undoes `btoa` on the binary string of `b`. */
  lemma Base64RoundTrip(btoa: string -> string, atob: string -> string, bytes: seq<Byte>)
    requires atob(btoa(BinaryString(bytes))) == BinaryString(bytes)
    ensures BytesOf(atob(btoa(BinaryString(bytes)))) == bytes
    ensures |BytesOf(atob(btoa(BinaryString(bytes))))| == |bytes|
  {
    BinaryRoundTrip(bytes);
  }

  // ---------------------------------------------------------------------------
  // Float -> 16-bit conversion of captured frames (`createPcmBlob`)
  // ---------------------------------------------------------------------------

  /** Truncation toward zero of a real, as ECMAScript's ToIntegerOrInfinity. */
  function Trunc(x: real): (r: int)
    ensures 0.0 <= x ==> r as real <= x < r as real + 1.0
    ensures x < 0.0 ==> r as real - 1.0 < x <= r as real
  {
    if x >= 0.0 then x.Floor else -((-x).Floor)
  }

  /** ECMAScript ToInt16 (section 7.1.8 of ECMA-262) on a finite number: the
      16-bit value congruent to the truncated number modulo 2^16. This is the
      conversion an `Int16Array` element store applies. */
  function ToInt16(x: real): (r: int)
    ensures IsInt16(r)
    ensures (r - Trunc(x)) % 65536 == 0
  {
    var m := Trunc(x) % 65536;
    if m >= 32768 then m - 65536 else m
  }

  /** `int16[i] = inputData[i] * 32768`, exactly as written. */
  function SampleAsWritten(x: real): (r: int)
    ensures IsInt16(r)
    ensures -1.0 <= x < 1.0 ==> r == Trunc(x * Scale)
  {
    var y := x * Scale;
    assert -1.0 <= x < 1.0 ==> -32768 <= Trunc(y) <= 32767;
    ToInt16(y)
  }

  /** A full-scale positive sample wraps around to the most negative value. */
  lemma FullScaleWraps()
    ensures SampleAsWritten(1.0) == Int16Min
  {
    assert 1.0 * Scale == 32768.0;
    assert Trunc(32768.0) == 32768;
  }

  /** The conversion with the scaled value clamped to the 16-bit range before
      the store, so that 1.0 becomes 32767; the rest of the model uses it. */
  function Sample(x: real): (r: int)
    ensures IsInt16(r)
    ensures -1.0 <= x < 1.0 ==> r == SampleAsWritten(x)
    ensures x >= 1.0 ==> r == Int16Max
    ensures x < -1.0 ==> r == Int16Min
  {
    var y := x * Scale;
    if y > Int16Max as real then Int16Max
    else if y < Int16Min as real then Int16Min
    else Trunc(y)
  }

  /** The converted frame: one 16-bit value per float sample, by the
      conversion as written (`clamp` false) or the corrected one. */
  function Quantized(xs: seq<real>, clamp: bool): (pcm: seq<int>)
    ensures |pcm| == |xs|
    ensures forall i :: 0 <= i < |xs| ==> IsInt16(pcm[i])
    ensures forall i :: 0 <= i < |xs| ==> pcm[i] == if clamp then Sample(xs[i]) else SampleAsWritten(xs[i])
  {
    seq(|xs|, i requires 0 <= i < |xs| => if clamp then Sample(xs[i]) else SampleAsWritten(xs[i]))
  }

  /** On frames inside [-1, 1) the two conversions agree. */
  lemma QuantizedAgreeBelowFullScale(xs: seq<real>)
    requires forall i :: 0 <= i < |xs| ==> -1.0 <= xs[i] < 1.0
    ensures Quantized(xs, false) == Quantized(xs, true)
  {
  }

  /** The signed 16-bit little-endian value at 16-bit index `i`: what an
      `Int16Array` view over the bytes reads (little-endian hosts). */
  function ReadInt16(bytes: seq<Byte>, i: nat): (v: int)
    requires 2 * i + 1 < |bytes|
    ensures IsInt16(v)
  {
    FromLittleEndian(bytes[2 * i], bytes[2 * i + 1])
  }

  /** The signed 16-bit value of a low and a high byte. */
  function FromLittleEndian(lo: Byte, hi: Byte): (v: int)
    ensures IsInt16(v)
  {
    var u: int := lo + 256 * hi;
    if u >= 32768 then u - 65536 else u
  }

  /** Splitting a 16-bit value into its two bytes and reading them back
      gives the value. */
  lemma LittleEndianRoundTrip(v: int)
    requires IsInt16(v)
    ensures var u := v % 65536; FromLittleEndian(u % 256, u / 256) == v
  {
    var u := v % 65536;
    assert u % 256 + 256 * (u / 256) == u;
  }

  /** The memory of an `Int16Array` holding `pcm`, as the `Uint8Array` over
      its buffer sees it. */
  function Int16Bytes(pcm: seq<int>): (bytes: seq<Byte>)
    requires forall i :: 0 <= i < |pcm| ==> IsInt16(pcm[i])
    ensures |bytes| == 2 * |pcm|
    ensures forall i :: 0 <= i < |pcm| ==> ReadInt16(bytes, i) == pcm[i]
  {
    var bytes := seq(2 * |pcm|, k requires 0 <= k < 2 * |pcm| =>
      var u := pcm[k / 2] % 65536;
      if k % 2 == 0 then u % 256 else u / 256);
    forall i | 0 <= i < |pcm|
      ensures ReadInt16(bytes, i) == pcm[i]
    {
      var u := pcm[i] % 65536;
      assert bytes[2 * i] == u % 256;
      assert bytes[2 * i + 1] == u / 256;
      LittleEndianRoundTrip(pcm[i]);
    }
    bytes
  }

  datatype PcmBlob = PcmBlob(data: string, mimeType: string)

  /** `createPcmBlob`: convert every sample to 16 bits as the source does
      (wrapping a full-scale 1.0), lay the values out little-endian,
      base64-encode the bytes. */
  method CreatePcmBlob(btoa: string -> string, xs: seq<real>) returns (blob: PcmBlob)
    ensures blob.mimeType == CaptureMimeType
    ensures blob.data == btoa(BinaryString(Int16Bytes(Quantized(xs, false))))
  {
    var int16: seq<int> := [];
    var i := 0;
    while i < |xs|
      invariant 0 <= i <= |xs|
      invariant int16 == Quantized(xs, false)[..i]
    {
      int16 := int16 + [SampleAsWritten(xs[i])];
      i := i + 1;
    }
    assert int16 == Quantized(xs, false);
    var data := Encode(btoa, Int16Bytes(int16));
    blob := PcmBlob(data, CaptureMimeType);
  }

  /** A captured frame is 2 bytes per sample. */
  lemma PcmBlobLength(xs: seq<real>, clamp: bool)
    ensures |Int16Bytes(Quantized(xs, clamp))| == 2 * |xs|
  {
  }

  /** A full-scale sample reaches the server as the bytes 00 80 (-32768);
      the corrected conversion would send FF 7F (32767). */
  lemma FullScaleBytesSent(x: real)
    requires x == 1.0
    ensures Int16Bytes(Quantized([x], false)) == [0, 128]
    ensures Int16Bytes(Quantized([x], true)) == [255, 127]
  {
    FullScaleWraps();
    assert Quantized([x], false) == [Int16Min];
    assert Quantized([x], true) == [Int16Max];
  }

  // ---------------------------------------------------------------------------
  // 16-bit -> float de-interleaving of received audio (`decodeAudioData`)
  // ---------------------------------------------------------------------------

  /** Why `decodeAudioData` throws: an odd byte count cannot back an
      `Int16Array` (RangeError); `createBuffer` refuses zero channels, zero
      frames or a zero sample rate (NotSupportedError). */
  datatype AudioError = OddByteLength | NotSupported

  datatype AudioBuffer = AudioBuffer(sampleRate: nat, length: nat, channels: seq<seq<real>>)

  /** Playback time of a buffer, in seconds. */
  function Duration(buffer: AudioBuffer): real
    requires buffer.sampleRate > 0
  {
    buffer.length as real / buffer.sampleRate as real
  }

  /** The `Int16Array` over the received bytes. */
  function Int16View(bytes: seq<Byte>): (r: Result<seq<int>, AudioError>)
    ensures r.Failure? <==> |bytes| % 2 == 1
    ensures r.Failure? ==> r.error == OddByteLength
    ensures r.Success? ==> |r.value| == |bytes| / 2
    ensures r.Success? ==> forall i :: 0 <= i < |r.value| ==> r.value[i] == ReadInt16(bytes, i)
  {
    if |bytes| % 2 == 1 then Failure(OddByteLength)
    else Success(seq(|bytes| / 2, i requires 0 <= i < |bytes| / 2 => ReadInt16(bytes, i)))
  }

  lemma FrameIndexInRange(i: nat, c: nat, numChannels: nat, n: nat)
    requires 0 < numChannels && c < numChannels && i < n / numChannels
    ensures i * numChannels + c < n
  {
    assert (i + 1) * numChannels <= (n / numChannels) * numChannels;
  }

  /** Sample `i` of channel `c` of interleaved 16-bit data, as a float. */
  function ChannelSample(pcm: seq<int>, numChannels: nat, c: nat, i: nat): real
    requires 0 < numChannels && c < numChannels && i < |pcm| / numChannels
  {
    FrameIndexInRange(i, c, numChannels, |pcm|);
    pcm[i * numChannels + c] as real / Scale
  }

  /** The loops of `decodeAudioData`: channel `c` takes every
      `numChannels`-th value starting at `c`, scaled by 1/32768. */
  function Deinterleave(pcm: seq<int>, numChannels: nat): (channels: seq<seq<real>>)
    requires numChannels > 0
    ensures |channels| == numChannels
    ensures forall c :: 0 <= c < numChannels ==> |channels[c]| == |pcm| / numChannels
    ensures forall c, i :: 0 <= c < numChannels && 0 <= i < |pcm| / numChannels ==>
      channels[c][i] == ChannelSample(pcm, numChannels, c, i)
  {
    var frames := |pcm| / numChannels;
    seq(numChannels, c requires 0 <= c < numChannels =>
      seq(frames, i requires 0 <= i < frames => ChannelSample(pcm, numChannels, c, i)))
  }

  /** `decodeAudioData`: split little-endian 16-bit interleaved data into
      `numChannels` float channels of `(byteLength / 2) / numChannels` frames
      (rounded down, as `createBuffer` converts its length argument). */
  function DecodeAudioData(bytes: seq<Byte>, sampleRate: nat, numChannels: nat): (r: Result<AudioBuffer, AudioError>)
    ensures |bytes| % 2 == 1 ==> r == Failure(OddByteLength)
    ensures r.Success? <==>
      |bytes| % 2 == 0 && numChannels > 0 && sampleRate > 0 && (|bytes| / 2) / numChannels > 0
    ensures r.Failure? && |bytes| % 2 == 0 ==> r.error == NotSupported
    ensures r.Success? ==>
      && r.value.sampleRate == sampleRate
      && r.value.length == (|bytes| / 2) / numChannels
      && r.value.channels == Deinterleave(Int16View(bytes).value, numChannels)
  {
    match Int16View(bytes)
    case Failure(e) => Failure(e)
    case Success(pcm) =>
      if numChannels == 0 || sampleRate == 0 || |pcm| / numChannels == 0 then Failure(NotSupported)
      else Success(AudioBuffer(sampleRate, |pcm| / numChannels, Deinterleave(pcm, numChannels)))
  }

  /** Every decoded sample is the 16-bit value at its interleaved position
      over 32768, so it lies in [-1, 32767/32768]. */
  lemma DecodedSamples(bytes: seq<Byte>, sampleRate: nat, numChannels: nat, c: nat, i: nat)
    requires DecodeAudioData(bytes, sampleRate, numChannels).Success?
    requires c < numChannels && i < DecodeAudioData(bytes, sampleRate, numChannels).value.length
    ensures 2 * (i * numChannels + c) + 1 < |bytes|
    ensures var x := DecodeAudioData(bytes, sampleRate, numChannels).value.channels[c][i];
      && x == ReadInt16(bytes, i * numChannels + c) as real / Scale
      && -1.0 <= x <= Int16Max as real / Scale
  {
    var pcm := Int16View(bytes).value;
    FrameIndexInRange(i, c, numChannels, |pcm|);
    var j := i * numChannels + c;
    assert pcm[j] == ReadInt16(bytes, j);
  }

  // ---------------------------------------------------------------------------
  // Capture -> playback round trip
  // ---------------------------------------------------------------------------

  /** A mono frame of samples in [-1, 1] decodes back to within one
      quantization step (1/32768) of each sample. */
  lemma PcmRoundTrip(xs: seq<real>, sampleRate: nat)
    requires |xs| > 0 && sampleRate > 0
    requires forall i :: 0 <= i < |xs| ==> -1.0 <= xs[i] <= 1.0
    ensures var r := DecodeAudioData(Int16Bytes(Quantized(xs, true)), sampleRate, 1);
      && r.Success?
      && r.value.length == |xs|
      && forall i :: 0 <= i < |xs| ==>
        -1.0 / Scale <= r.value.channels[0][i] - xs[i] <= 1.0 / Scale
  {
    var bytes := Int16Bytes(Quantized(xs, true));
    var r := DecodeAudioData(bytes, sampleRate, 1);
    assert |bytes| / 2 == |xs|;
    forall i | 0 <= i < |xs|
      ensures -1.0 / Scale <= r.value.channels[0][i] - xs[i] <= 1.0 / Scale
    {
      DecodedSamples(bytes, sampleRate, 1, 0, i);
      assert i * 1 + 0 == i;
      assert r.value.channels[0][i] == Sample(xs[i]) as real / Scale;
      SampleError(xs[i]);
    }
  }

  /** As written, the round trip holds for frames that stay below full
      scale, where the written and corrected conversions agree. */
  lemma PcmRoundTripAsWritten(xs: seq<real>, sampleRate: nat)
    requires |xs| > 0 && sampleRate > 0
    requires forall i :: 0 <= i < |xs| ==> -1.0 <= xs[i] < 1.0
    ensures var r := DecodeAudioData(Int16Bytes(Quantized(xs, false)), sampleRate, 1);
      && r.Success?
      && r.value.length == |xs|
      && forall i :: 0 <= i < |xs| ==>
        -1.0 / Scale <= r.value.channels[0][i] - xs[i] <= 1.0 / Scale
  {
    QuantizedAgreeBelowFullScale(xs);
    PcmRoundTrip(xs, sampleRate);
  }

  lemma SampleError(x: real)
    requires -1.0 <= x <= 1.0
    ensures -1.0 <= Sample(x) as real - x * Scale <= 1.0
  {
  }

  /** As written, a full-scale sample is sent as -32768, which decodes
      to -1.0. */
  lemma FullScaleRoundTripAsWritten(x: real)
    requires x == 1.0
    ensures var bytes := Int16Bytes([SampleAsWritten(x)]);
      DecodeAudioData(bytes, 24000, 1).Success?
      && DecodeAudioData(bytes, 24000, 1).value.channels[0][0] == -1.0
  {
    FullScaleWraps();
    var bytes := Int16Bytes([SampleAsWritten(x)]);
    assert ReadInt16(bytes, 0) == Int16Min;
    DecodedSamples(bytes, 24000, 1, 0, 0);
  }
}
