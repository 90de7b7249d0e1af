# DHT11/DHT22 single-wire driver: a Dafny model

This project models the protocol engine of an Arduino driver for the DHT11 and
DHT22 humidity/temperature sensors, and proves properties of it.

The driver talks to the sensor over one data line. The host pulls the line low
to start a cycle; the sensor answers with a low and a high pulse, then sends 40
bits. Each bit is a low pulse followed by a high pulse, and a bit is 1 when the
high pulse is the longer of the two. The 40 bits are packed into five bytes,
most significant bit first. The bytes are humidity high and low, temperature
high and low, and a checksum.

Two drivers are modelled:

* `DHT_N128.cpp`, in modules `DhtN128` and `DhtN128Proofs`. It contains
  `_awaitPulse` (count the samples at one level, with a cycle budget and the
  sentinel `CYCLES_TIMEOUT = UINT32_MAX`), `_readBit`, `_clear`, the start-signal
  duration, and `rawRead` (handshake, 40-bit loop, zeroing and packing of
  `_data`, checksum comparison).
* The earlier `dht.cpp`, in modules `DhtLegacy` and `DhtLegacyProofs`. It
  contains `readByte` (eight samples, `value |= 1 << (7 - i)` on HIGH) and
  `read` (poll for the response, fill `_data[0..4]` with five `readByte` calls,
  return `_data[2]`).

The line is a recorded sequence of levels (module `Wire`). The i-th
`digitalRead` returns sample i. Past the end of the recording the line reads
HIGH, as an idle single-wire bus with a pull-up does. `DHT_N128.cpp` sets the
pin to `INPUT_PULLUP` before it reads (lines 106 and 125). `dht.cpp` sets it to
plain `INPUT` (line 24), so for the earlier driver the model assumes an
external pull-up resistor on the line. Each driver object keeps a `cursor`, the
number of reads made so far.

The methods of the two `Dht` classes work on the object's fields and arrays as
the C++ does: `_bits` and `_data` are arrays, `_raw` and the cursor are fields.
Each method is proved against a reference function of the line:

* `Pulse`, `ReadBitAt`, `ReadBits`, `Handshake` and `ReadCycle` for `DHT_N128.cpp`.
* `HighBits`, `PackFrame` and `Poll` for `dht.cpp`.

Module `Bits` holds the byte packing both drivers share, with its round trips.
The proof modules then say what those functions give for the line shapes a
sensor produces. That covers a bit waveform, a whole transmission, a missing
sensor and a line stuck low. The proofs also cover what the checksum
comparison accepts.

`maxcycles` (the C++ `_maxcycles`) is a `uint32` given to the constructor.
The source sets it from `microsecondsToClockCycles(1000)`, which is
platform code. When it equals `UINT32_MAX`, a pulse of exactly `UINT32_MAX`
samples returns the sentinel itself (`SentinelCollision`). Below that value
the sentinel is unambiguous (`PulseTimeoutIff`).

The requirement that a valid frame's checksum is the sum of bytes 0-3
truncated to 8 bits is the sensor protocol's. `DHT_N128.cpp:85` prints a
comparison with the untruncated sum. The model follows the code
(`ChecksumMatches`) and defines the protocol's check separately
(`ChecksumValid`); see Findings. The code never rejects a frame on either
check: the comparison is only printed, and `rawRead` returns `_raw`, which
`_clear` has just set to 0.

## Model

| member | source | states |
|---|---|---|
| DhtN128.StartLowMicros | DHT_N128.cpp:32-40 | DHT22 gets 1100 µs, inside the 1-10 ms start window; DHT11 and every other type get 18500 µs, at least the 18 ms a DHT11 needs |
| DhtN128.Dht.constructor | DHT_N128.cpp:13-19 | the object keeps its sensor type and cycle budget, and starts at the first sample |
| DhtN128.Dht.AwaitPulse | DHT_N128.cpp:105-116 | the loop returns the count and reads the number of samples that `Pulse` gives for the line at the cursor |
| DhtN128Proofs.RunLengthIsRun | DHT_N128.cpp:109-113 | the counted run reads `state` throughout and, below the cap, is followed by a sample of the other level |
| DhtN128.RunLengthOf | DHT_N128.cpp:109-113 | a run length is unique: any k with the run property is the counted length |
| DhtN128Proofs.PulseMeaning | DHT_N128.cpp:109-115 | either maxcycles + 1 samples read `state` and the result is CYCLES_TIMEOUT after maxcycles + 1 reads, or the result is the run length (at most maxcycles) after reading one sample past the run |
| DhtN128Proofs.PulseOfRun | DHT_N128.cpp:109-115 | a run of k <= maxcycles samples returns k after k + 1 reads |
| DhtN128Proofs.PulseOfLongRun | DHT_N128.cpp:110-111 | a run of more than maxcycles samples returns CYCLES_TIMEOUT after maxcycles + 1 reads |
| DhtN128Proofs.PulseTimeoutIff | DHT_N128.cpp:105-116 | for maxcycles < UINT32_MAX: the result is CYCLES_TIMEOUT if and only if the first maxcycles + 1 samples all read `state` |
| DhtN128Proofs.SentinelCollision | DHT_N128.cpp:7 | with maxcycles = UINT32_MAX, a pulse of exactly UINT32_MAX samples is reported as CYCLES_TIMEOUT |
| DhtN128.Dht.ReadBit | DHT_N128.cpp:90-103 | the bit and the samples read are those of `ReadBitAt`: a low wait, a high wait, and 1 exactly when the high count is larger |
| DhtN128Proofs.BitOfWave | DHT_N128.cpp:90-103 | on a bit waveform of `low` then `high` samples within the budget, `_readBit` returns high > low and ends one sample into the next bit |
| DhtN128Proofs.LowTimeoutReadsZero | DHT_N128.cpp:93-97 | a low wait that times out makes the bit 0 |
| DhtN128Proofs.HighTimeoutReadsOne | DHT_N128.cpp:93-97 | a high wait that times out after a low wait that did not makes the bit 1 |
| DhtN128.Dht.Clear | DHT_N128.cpp:118-120 | `_data` becomes four copies of the old `_data[3]` followed by 0, and `_raw` becomes 0 |
| DhtN128.Dht.Acknowledge | DHT_N128.cpp:53-58 | reports success exactly when neither acknowledgement wait returns CYCLES_TIMEOUT, and reads the samples `Handshake` gives |
| DhtN128Proofs.HandshakeOfResponse | DHT_N128.cpp:53-58 | a response of `a` low and `b` high samples, both within the budget, is acknowledged after a + b + 1 reads |
| DhtN128Proofs.AbsentSensor | DHT_N128.cpp:53-58 | with nothing left on the line (pull-up HIGH), the low wait returns 0 and the high wait times out |
| DhtN128Proofs.StuckLow | DHT_N128.cpp:53-55 | a line held LOW past the budget times out in the first wait, after maxcycles + 1 reads |
| DhtN128.Dht.ReadFrameBits | DHT_N128.cpp:60-62 | `_bits[i]` is the i-th of 40 consecutive `_readBit` results, in order, and the cursor advances by the samples they read |
| DhtN128.BitChainIsReadBits | DHT_N128.cpp:60-62 | reads chained end to start produce exactly the bits and the total sample count of `ReadBits` |
| DhtN128Proofs.StreamOfWaves | DHT_N128.cpp:60-62 | over a line showing the waveforms of n bits, the bit loop returns their decoded values in order and reads exactly up to the sample after the last waveform |
| DhtN128Proofs.WavesChain | DHT_N128.cpp:60-62 | each bit read over a waveform ends where the next waveform's read starts |
| DhtN128.Dht.PackData | DHT_N128.cpp:73-81 | after zeroing and packing, `_data[i]` is the byte packed from `_bits[8i..8i+8]` |
| DhtN128.Dht.PackByteAt | DHT_N128.cpp:78-80 | the inner loop packs `_bits[8i..8i+8]` into `_data[i]` most significant bit first and changes no other byte |
| DhtN128.Dht.RawRead | DHT_N128.cpp:48-88 | `_raw` ends 0; on a handshake timeout the result is CYCLES_TIMEOUT, `_bits` is untouched and `_data` is as `_clear` left it; otherwise the result is 0, `_bits` holds the 40 bits of `ReadCycle` and `_data` their packing |
| DhtN128Proofs.CycleOfWaves | DHT_N128.cpp:48-62 | a full transmission (response, 40 bit waveforms, final LOW) is read as exactly those 40 decoded bits |
| DhtN128Proofs.TransmissionDecodes | DHT_N128.cpp:48-81 | a transmission of five bytes, sent bit by bit, leaves exactly those bytes after packing |
| Bits.MaskIsShift | DHT_N128.cpp:79 | the written-out masks equal `1 << p` |
| Bits.ShiftedIsShift | DHT_N128.cpp:79 | the or-ed term equals `static_cast<uint8_t>(bit) << p` |
| Bits.BitValue | DHT_N128.cpp:79 | the cast of a bool to a byte has bit 0 equal to the bool and every other bit clear |
| Bits.OrBitAt | DHT_N128.cpp:79 | or-ing a bit in at position p sets bit p when the bit is 1 and leaves every other bit alone |
| Bits.PackByteBit | DHT_N128.cpp:77-81 | bit k of a packed byte is the bit at index 7 - k, and 0 where no such bit was packed |
| Bits.PackByteBits | DHT_N128.cpp:77-81 | bit 7 - j of a packed byte is bs[j], and the bits below the packed ones are clear |
| Bits.PackByteSnoc | DHT_N128.cpp:78-80 | each loop step extends the packed prefix by one bit at position 7 - j |
| Bits.UnpackPackByte | DHT_N128.cpp:77-81 | unpacking a packed byte gives back its eight bits |
| Bits.PackUnpackByte | DHT_N128.cpp:77-81 | packing a byte's unpacked bits gives back the byte |
| Bits.UnpackByteInjective | DHT_N128.cpp:77-81 | different bytes have different bit sequences |
| Bits.PackFrameBytes | DHT_N128.cpp:77-81 | byte i of a packed frame unpacks to bits 8i to 8i + 7 |
| Bits.UnpackFrameAt | DHT_N128.cpp:77-81 | the bits of byte i sit at positions 8i to 8i + 7 of the unpacked frame |
| Bits.UnpackPackFrame | DHT_N128.cpp:77-81 | unpacking a packed 40-bit (any 8n-bit) sequence gives it back |
| Bits.PackUnpackFrame | DHT_N128.cpp:77-81 | packing the unpacked bytes gives them back: packing is a bijection |
| Bits.PackByteExtremes | dht.cpp:47-56 | eight 0 bits pack to 0 and eight 1 bits pack to 0xFF |
| DhtN128.ChecksumMatches | DHT_N128.cpp:85 | the printed comparison can hold only when the payload sum is below 256 |
| DhtN128.ChecksumValid | DHT_N128.cpp:85 | the corrected check, as the sensor computes the checksum: it holds exactly when the payload sum and the checksum byte differ by a multiple of 256 |
| DhtN128Proofs.ChecksumMatchesAgreesBelow256 | DHT_N128.cpp:85 | every frame the printed comparison accepts has a valid 8-bit checksum, and below a payload sum of 256 the two checks agree |
| DhtN128Proofs.ValidDetectsOneByte | DHT_N128.cpp:85 | the corrected check detects every single-byte error: a valid frame with any one byte changed is invalid |
| DhtN128Proofs.PayloadSumUpdate | DHT_N128.cpp:85 | changing one payload byte changes the sum by the difference of the old and new values; changing the checksum byte leaves it alone |
| DhtN128Proofs.ChecksumExists | DHT_N128.cpp:85 | every payload has a checksum byte that makes the frame valid, and by `ValidDetectsOneByte` only one |
| DhtN128Proofs.CarryIsReportedAsMismatch | DHT_N128.cpp:85 | the valid frames 80 80 00 00 00 and 02 8A 00 FA 86 (a DHT22 reading of 65.0 % RH at 25.0 C) fail the printed comparison |
| DhtN128Proofs.TypicalFrameChecks | DHT_N128.cpp:85 | the frame 02 1A 01 11 2E passes both checks |
| DhtLegacy.Dht.ReadByte | dht.cpp:46-63 | reads exactly eight samples; the byte is their most-significant-first packing, with sample i in bit 7 - i |
| DhtLegacyProofs.SampledByteBits | dht.cpp:54-56 | unpacking the byte gives back the eight samples: nothing sampled is lost |
| DhtLegacyProofs.SampledByteExtremes | dht.cpp:47-56 | eight LOW samples give 0, and eight HIGH samples give 255 |
| DhtLegacyProofs.SentByteIsRead | dht.cpp:46-63 | a byte sent most significant bit first is read back unchanged |
| DhtLegacy.Dht.ReadFrame | dht.cpp:36-38 | five `readByte` calls in index order: `_data` becomes the frame packed from the next 40 samples |
| DhtLegacy.PackFrameOfSamples | dht.cpp:36-38 | byte i of that frame is the byte `readByte` makes of samples 8i to 8i + 7 |
| DhtLegacyProofs.SentFrameIsRead | dht.cpp:36-38 | five bytes sent in order are read back into `_data` in order |
| DhtLegacy.Dht.Read | dht.cpp:16-44 | the result, the new `_data` and the samples read are those of `Poll` for the line at the cursor and the old `_data` |
| DhtLegacy.Poll | dht.cpp:27-43 | the polling loop keeps five data bytes and always reads at least one sample |
| DhtLegacyProofs.PollValue | dht.cpp:27-43 | `read` returns either 0 or the `_data[2]` it leaves behind |
| DhtLegacyProofs.LowAtFirstPoll | dht.cpp:27-43 | a LOW at the first read ends `read` at once, returning the old `_data[2]` with `_data` untouched |
| DhtLegacyProofs.NoResponse | dht.cpp:26-30 | on a line idling HIGH, each round reads twice and, once the timer expires, `read` returns 0 with `_data` untouched |
| DhtLegacyProofs.FrameIsRead | dht.cpp:27-43 | a response (LOW, HIGH) then a frame d then LOW: `_data` becomes d and `read` returns d[2] |
| DhtLegacyProofs.FrameThenTimeout | dht.cpp:26-43 | the same frame followed by HIGH with the timer expired: `_data` holds d but `read` returns 0 |

## Left out

- Pin configuration and output (`pinMode`, `digitalWrite`) is not modelled. This covers `begin`, `_startSignal`, the end of `_clear` (DHT_N128.cpp:122-125) and `dht.cpp:17-24`. The model keeps only the reads.
- `delay` and `delayMicroseconds` are not modelled, including the `_pullTime` settle time. Of `_startSignal`, only the choice of the low duration is modelled (`StartLowMicros`).
- `microsecondsToClockCycles(1000)` is platform code. `maxcycles` is a constructor parameter instead.
- The Serial output of `rawRead` (DHT_N128.cpp:64-71, 83-84) is not modelled. The checksum print at line 85 is modelled only as the boolean it prints (`ChecksumMatches`).
- The busy-waits of `readByte` (dht.cpp:50-51, 58-59) are not modelled. They wait for the line to change, and whether they end depends on the hardware. The legacy model's line holds only the reads at dht.cpp:27, 32, 34 and 54.
- DhtLegacy.Dht.Read: the `micros()` timer of dht.cpp:26-30 becomes a budget of loop rounds; the round numbered `budget` and every later one returns 0. The real deadline is 1000 µs of wall-clock time.
- The pin fields of both drivers and the constructors of `dht.cpp` are not modelled. The legacy object is built from its line and the old contents of `_data`, which C++ leaves unspecified.
- `DhtN128.Dht` keeps the sensor type, as the C++ object does, but no method of the model reads it. Only `StartLowMicros` depends on a type, and it stands for `_startSignal`, whose pin output is not modelled.
- `raw_magnitude`, the return type of `rawRead` (DHT_N128.cpp:48), and the field `_raw` are declared in no source file. The model takes both to be `uint32`. That choice decides what `return CYCLES_TIMEOUT` yields: with `uint32`, the caller sees `UINT32_MAX` unchanged.
- Operations declared only in `DHT_N128.hpp` are not part of this model, because `DHT_N128.cpp` defines none of them. They are `setPullTime`, `readTemperature`, `readHumidity`, `error` and `errorToString`, together with the error codes, the minimum interval between reads, sign handling and float conversion.
- `DHT_N128.hpp` declares a `rawRead` that returns an `ErrorCode` and takes an optional `uint32_t*` argument. `DHT_N128.cpp` defines a `rawRead` that returns `_raw`, which the header does not declare. The model follows the `.cpp`.

## Findings

| source | as written | input that shows it | evidently intended | confidence | as-written member | corrected member |
|---|---|---|---|---|---|---|
| DHT_N128.cpp:85 | compares `_data[4]` with `_data[0] + _data[1] + _data[2] + _data[3]` after promotion to int, so any payload sum of 256 or more fails | bytes 80 80 00 00 00, or the DHT22 frame 02 8A 00 FA 86: each checksum is the truncated sum, yet the comparison prints 0 | compare with the sum truncated to 8 bits, as the sensor computes it | high; not executed | DhtN128Proofs.CarryIsReportedAsMismatch | DhtN128Proofs.ValidDetectsOneByte |
