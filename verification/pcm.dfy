/** Linear PCM helpers of the browser client (frontend/src/App.js): the
    little-endian 16-bit decoding and normalisation done by `decodeAudioData`,
    and the float-to-int16 conversion of microphone samples in `startRecording`.
    Samples are exact reals; the rounding of `Float32Array` is not modelled. */
module Pcm {
  import opened Wrappers

  type Byte = x: int | 0 <= x < 256
  type Int16 = x: int | -32768 <= x < 32768

  /** The rate at which the client builds output buffers (the upstream model's native rate). */
  const OutputRate: nat := 24000

  // ---------------------------------------------------------------------------
  // Little-endian 16-bit samples

  /** `DataView.getInt16(offset, true)`: the two bytes read little-endian as two's complement. */
  function Int16At(lo: Byte, hi: Byte): Int16 {
    var u := lo + 256 * hi;
    if u >= 32768 then u - 65536 else u
  }

  /** The two bytes, low first, that an `Int16Array` holds for a sample. */
  function LittleEndian(v: Int16): (b: (Byte, Byte))
    ensures Int16At(b.0, b.1) == v
  {
    var u := if v < 0 then v + 65536 else v;
    (u % 256, u / 256)
  }

  /** Reading two bytes as a sample loses nothing: they are the bytes the sample is stored as. */
  lemma LittleEndianOfInt16At(lo: Byte, hi: Byte)
    ensures LittleEndian(Int16At(lo, hi)) == (lo, hi)
  {
  }

  /** The integer samples of a byte buffer, two bytes each; a trailing odd byte is not a sample. */
  function Int16s(bytes: seq<Byte>): (vs: seq<Int16>)
    ensures |vs| == |bytes| / 2
    ensures forall i :: 0 <= i < |vs| ==> vs[i] == Int16At(bytes[2 * i], bytes[2 * i + 1])
    decreases |bytes|
  {
    if |bytes| < 2 then []
    else [Int16At(bytes[0], bytes[1])] + Int16s(bytes[2..])
  }

  /** The buffer an `Int16Array` of samples exposes: each sample as two little-endian bytes. */
  function Encode16(vs: seq<Int16>): (bytes: seq<Byte>)
    ensures |bytes| == 2 * |vs|
    ensures forall i :: 0 <= i < |vs| ==> (bytes[2 * i], bytes[2 * i + 1]) == LittleEndian(vs[i])
  {
    if vs == [] then []
    else [LittleEndian(vs[0]).0, LittleEndian(vs[0]).1] + Encode16(vs[1..])
  }

  lemma Int16sOfEncode16(vs: seq<Int16>)
    ensures Int16s(Encode16(vs)) == vs
  {
    var bytes := Encode16(vs);
    forall i | 0 <= i < |vs|
      ensures Int16s(bytes)[i] == vs[i]
    {
      assert (bytes[2 * i], bytes[2 * i + 1]) == LittleEndian(vs[i]);
    }
  }

  lemma {:induction false} Encode16OfInt16s(bytes: seq<Byte>)
    requires |bytes| % 2 == 0
    ensures Encode16(Int16s(bytes)) == bytes
    decreases |bytes|
  {
    if |bytes| >= 2 {
      var vs := Int16s(bytes);
      assert vs[1..] == Int16s(bytes[2..]);
      Encode16OfInt16s(bytes[2..]);
      LittleEndianOfInt16At(bytes[0], bytes[1]);
      assert bytes == [bytes[0], bytes[1]] + bytes[2..];
    }
  }

  // ---------------------------------------------------------------------------
  // Normalisation

  /** Negative samples are scaled by 32768 and the others by 32767, so that both
      ends of the signed range map onto -1 and 1. */
  function Divisor(v: int): real {
    if v < 0 then 32768.0 else 32767.0
  }

  function Normalize(v: Int16): (x: real)
    ensures -1.0 <= x <= 1.0
    ensures x < 0.0 <==> v < 0
    ensures x == -1.0 <==> v == -32768
    ensures x == 1.0 <==> v == 32767
    ensures x * Divisor(v) == v as real
  {
    v as real / Divisor(v)
  }

  /** A normalised buffer: one sample per two input bytes. */
  function Samples(bytes: seq<Byte>): (xs: seq<real>)
    ensures |xs| == |bytes| / 2
    ensures forall i :: 0 <= i < |xs| ==> xs[i] == Normalize(Int16At(bytes[2 * i], bytes[2 * i + 1]))
  {
    var vs := Int16s(bytes);
    seq(|vs|, i requires 0 <= i < |vs| => Normalize(vs[i]))
  }

  /** Decoding the bytes of an `Int16Array` gives back each sample, normalised. */
  lemma SamplesOfEncode16(vs: seq<Int16>)
    ensures |Samples(Encode16(vs))| == |vs|
    ensures forall i :: 0 <= i < |vs| ==> Samples(Encode16(vs))[i] == Normalize(vs[i])
  {
    Int16sOfEncode16(vs);
  }

  // ---------------------------------------------------------------------------
  // `decodeAudioData`

  /** A mono output buffer at the output rate. */
  datatype AudioBuffer = AudioBuffer(samples: seq<real>) {
    /** `AudioBuffer.duration`: length over sample rate, in seconds. */
    function Duration(): real {
      |samples| as real / OutputRate as real
    }
  }

  /** Message of the `RangeError` `DataView.getInt16` throws past the end (browser-specific wording). */
  const OutOfBounds := "Offset is outside the bounds of the DataView"
  /** Message of the `NotSupportedError` `createBuffer` throws for a zero length (browser-specific wording). */
  const ZeroLength := "The number of frames provided (0) is less than or equal to the minimum bound (0)."

  /** `decodeAudioData`.  `sampleCount` is `byteLength / 2`, a fraction for an odd
      length, so the loop's last pass reads a sample that straddles the end and
      `getInt16` throws; a buffer of no samples is refused by `createBuffer`. */
  function DecodeAudioData(bytes: seq<Byte>): (r: Result<AudioBuffer>)
    ensures r.Success? <==> |bytes| % 2 == 0 && |bytes| > 0
    ensures r.Success? ==>
              |r.value.samples| == |bytes| / 2
              && r.value.Duration() == (|bytes| / 2) as real / 24000.0
              && forall i :: 0 <= i < |r.value.samples| ==>
                   r.value.samples[i] == Normalize(Int16At(bytes[2 * i], bytes[2 * i + 1]))
  {
    if |bytes| % 2 == 1 then Failure("Audio decode failed: " + OutOfBounds)
    else if |bytes| == 0 then Failure("Audio decode failed: " + ZeroLength)
    else Success(AudioBuffer(Samples(bytes)))
  }

  // ---------------------------------------------------------------------------
  // Microphone samples

  function Min(a: int, b: int): int { if a < b then a else b }
  function Max(a: int, b: int): int { if a < b then b else a }

  /** `Math.max(-32768, Math.min(32767, Math.floor(x * 32767)))`: the largest
      int16 not above `x * 32767`, or -32768 when there is none. */
  function MicSample(x: real): (v: Int16)
    ensures v as real <= x * 32767.0 || v == -32768
    ensures x * 32767.0 < (v + 1) as real || v == 32767
    ensures -1.0 <= x <= 1.0 ==> v == (x * 32767.0).Floor
  {
    Max(-32768, Min(32767, (x * 32767.0).Floor))
  }

  /** Re-encoding a decoded sample gives the sample back, except the most negative
      one, which comes back one step closer to zero (within one least significant bit). */
  lemma MicSampleOfNormalize(v: Int16)
    ensures MicSample(Normalize(v)) == if v == -32768 then -32767 else v
  {
    var x := Normalize(v);
    if v >= 0 {
      assert x * 32767.0 == v as real;
    } else {
      assert x * 32767.0 == v as real - v as real / 32768.0;
    }
  }

  /** The bytes `startRecording` sends for one frame of microphone samples. */
  function MicFrame(xs: seq<real>): (bytes: seq<Byte>)
    ensures |bytes| == 2 * |xs|
    ensures forall i :: 0 <= i < |xs| ==> Int16At(bytes[2 * i], bytes[2 * i + 1]) == MicSample(xs[i])
  {
    var vs := seq(|xs|, i requires 0 <= i < |xs| => MicSample(xs[i]));
    var bytes := Encode16(vs);
    assert forall i :: 0 <= i < |xs| ==> (bytes[2 * i], bytes[2 * i + 1]) == LittleEndian(vs[i]);
    bytes
  }
}
