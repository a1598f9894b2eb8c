/** The stream format descriptor and the fixed PCM fallback. */
module Formats {
  import opened Platform

  const WAVE_FORMAT_PCM: uint16 := 1
  const FALLBACK_CHANNELS: uint16 := 2
  const FALLBACK_SAMPLES_PER_SEC: uint32 := 44100
  const FALLBACK_BITS_PER_SAMPLE: uint16 := 16

  /** The six fields of a WAVEFORMATEX header that the program reads or sets,
      each at its own width. */
  datatype WaveFormat = WaveFormat(
    formatTag: uint16,
    channels: uint16,
    samplesPerSec: uint32,
    avgBytesPerSec: uint32,
    blockAlign: uint16,
    bitsPerSample: uint16)

  /** Block alignment and byte rate agree with the other three fields. */
  predicate Consistent(f: WaveFormat) {
    && f.blockAlign == f.channels * f.bitsPerSample / 8
    && f.avgBytesPerSec == f.samplesPerSec * f.blockAlign
  }

  /** `channels * bits / 8`, evaluated in int and stored into a WORD field. */
  function DeriveBlockAlign(channels: uint16, bitsPerSample: uint16): uint16 {
    (channels * bitsPerSample / 8) % UINT16_LIMIT
  }

  /** `samplesPerSec * blockAlign`, evaluated in 32-bit unsigned arithmetic. */
  function DeriveByteRate(samplesPerSec: uint32, blockAlign: uint16): uint32 {
    (samplesPerSec * blockAlign) % UINT32_LIMIT
  }

  /** A zeroed header filled in with the PCM tag, the three base fields, and the
      two fields derived from them. When neither derived value overflows its
      field, the header is consistent. */
  function Build(channels: uint16, samplesPerSec: uint32, bitsPerSample: uint16): (f: WaveFormat)
    ensures f.formatTag == WAVE_FORMAT_PCM
    ensures f.channels == channels && f.samplesPerSec == samplesPerSec && f.bitsPerSample == bitsPerSample
    ensures Fits(channels, samplesPerSec, bitsPerSample) ==> Consistent(f)
  {
    DerivedExactly(channels, samplesPerSec, bitsPerSample);
    var align := DeriveBlockAlign(channels, bitsPerSample);
    WaveFormat(WAVE_FORMAT_PCM, channels, samplesPerSec, DeriveByteRate(samplesPerSec, align), align, bitsPerSample)
  }

  /** Neither `channels * bits / 8` nor the byte rate built on it overflows its field. */
  predicate Fits(channels: uint16, samplesPerSec: uint32, bitsPerSample: uint16) {
    && channels * bitsPerSample / 8 < UINT16_LIMIT
    && samplesPerSec * (channels * bitsPerSample / 8) < UINT32_LIMIT
  }

  /** Without overflow, storing into the narrow fields loses nothing. */
  lemma DerivedExactly(channels: uint16, samplesPerSec: uint32, bitsPerSample: uint16)
    ensures Fits(channels, samplesPerSec, bitsPerSample) ==>
      && DeriveBlockAlign(channels, bitsPerSample) == channels * bitsPerSample / 8
      && DeriveByteRate(samplesPerSec, DeriveBlockAlign(channels, bitsPerSample)) == samplesPerSec * (channels * bitsPerSample / 8)
  {
    if Fits(channels, samplesPerSec, bitsPerSample) {
      var product := channels * bitsPerSample;
      assert 0 <= product by {
        assert 0 <= channels && 0 <= bitsPerSample;
      }
      var align := product / 8;
      assert DeriveBlockAlign(channels, bitsPerSample) == align;
      var rate := samplesPerSec * align;
      assert 0 <= rate by {
        assert 0 <= samplesPerSec && 0 <= align;
      }
      assert DeriveByteRate(samplesPerSec, align) == rate;
    }
  }

  /** The fallback: 16-bit stereo PCM at 44100 Hz. */
  function Fallback(): (f: WaveFormat)
    ensures f.formatTag == WAVE_FORMAT_PCM && f.channels == 2 && f.samplesPerSec == 44100 && f.bitsPerSample == 16
    ensures Consistent(f)
    ensures f.blockAlign == 4 && f.avgBytesPerSec == 176400
  {
    Build(FALLBACK_CHANNELS, FALLBACK_SAMPLES_PER_SEC, FALLBACK_BITS_PER_SAMPLE)
  }
}
