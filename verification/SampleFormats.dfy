/** Sample formats (crates/snapcast-proto/src/sample_format.rs). */
module SampleFormats {
  import opened Arith

  datatype SampleFormat = SampleFormat(rate: nat, bits: nat, channels: nat) {

    /** Bytes of one sample; 24-bit samples are padded to four bytes. */
    function SampleSize(): nat {
      if bits == 24 then 4 else bits / 8
    }

    /** Bytes of one frame, all channels together. */
    function FrameSize(): nat {
      Times(channels, SampleSize())
    }
  }
}
