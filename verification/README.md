# CC1101 driver core in Dafny

A model of the core of a Rust driver for the Texas Instruments CC1101 sub-GHz
radio. It covers five parts, each bit-exact on bytes:

1. The bit-field codec that the `register!` macros generate, with its field tables.
2. The SPI header byte. There are two encoders: a newer one with a mode argument and a per-category rule, and an older one.
3. The status decoders:
   - the chip status byte;
   - MARCSTATE to machine state;
   - PKTSTATUS;
   - the LQI/TXBYTES/RXBYTES flag-and-count split;
   - RSSI to dBm;
   - frequency to FREQ2/FREQ1/FREQ0.
4. The register access layer: read, write, strobe, modify and FIFO framing.
5. The driver logic:
   - the shadow framing flags and the setters that maintain them;
   - `read_data` and `write_data`;
   - the status getters;
   - `set_radio_mode`;
   - the RXBYTES debounce and `receive`.

Bytes are `bv8`, so the shifts and masks truncate as they do on Rust's `u8`. The
codec keeps the width rule exactly as the source writes it:

- width is `size() + 1`;
- so a range `lo..hi` covers bits lo..hi inclusive;
- and a bare offset `n` covers two bits, n and n + 1.

The consequences of that rule are proved and listed under Findings. The driver
model keeps the code's behaviour, so those consequences show in the setters.

The SPI device is an abstract oracle. Given the transactions so far and the bytes
clocked out, it says whether the transfer fails and which byte comes back at each
position. Every operation returns its result together with the trace of
transactions it made, one frame per chip-select assertion. `LowLevel.Interpret`
reads a frame as the chip would, after section 10 of the CC1101 data sheet (TI
SWRS061I): a register read or write, a command strobe, or a FIFO burst. That
reading gives properties such as "issues no strobe but SIDLE and then the mode's
own" their meaning.

Two outcomes exist only in the model:

- `Timeout` ends a poll loop that ran out of its `fuel` polls.
- `Panic` stands for a Rust panic. The cases are an index out of range in `read_data` and a `BoolU8` conversion of a value above 1.

| file | module | models |
|---|---|---|
| wrappers.dfy | Wrappers | `Option`, `Result` |
| traits.dfy | Traits | `OffsetSize`, `ToWider` (src/lowlevel/traits.rs) |
| bitfield.dfy | BitField | the read/write codec and the mask view (src/lowlevel/macros.rs, src/macros.rs) |
| layouts.dfy | Layouts | field tables, overlap, the single-bit reading of bare offsets |
| access.dfy | Access | direction and mode bits, `Mode::offset` (src/lowlevel/access.rs) |
| configs.dfy | Configs | the 47 configuration registers, `Config::addr`, tables and reset values |
| statuses.dfy | Statuses | the 14 status registers, `Status::addr`, their layouts |
| statusbyte.dfy | StatusBytes | `State::from`, `StatusByte::from` |
| commands.dfy | Commands | strobe opcodes, PATABLE/FIFO |
| encoders.dfy | Encoders | `Register::raddr`/`waddr`, both versions |
| registerview.dfy | RegisterViews | the typed views: `Default`, `modify`, getters, setters, `bits` |
| lowlevel.dfy | LowLevel | SPI oracle, trace, `read_register` … `read_fifo`, `access_fifo` |
| errors.dfy | Errors | `Error`, `UserError`, the `Run` outcome |
| machinestate.dfy | MachineStates | `MachineState`, its partial decode |
| packetstatus.dfy | PacketStatuses | `BoolU8`, `PacketStatus::from` |
| filterlength.dfy | FilterLengths | `FilterLength` flattening |
| rssi.dfy | Rssi | `rssi_to_dbm` |
| convert.dfy | Convert | `from_frequency` and its fixtures |
| settings.dfy | Settings | the setting enums the setters write, and their fit |
| builders.dfy | Builders | the DEVIATN builder and two setters whose mask reaches a neighbour |
| setters.dfy | Setters | `append_status_enable`, `set_address_filter`, `set_packet_length`, `set_sync_mode` |
| packets.dfy | Packets | the shadow flags, `read_data`, `write_data` |
| polls.dfy | Polls | the two poll loops, generic over the poll |
| driver.dfy | Driver | the status getters, `await_machine_state`, `set_radio_mode`, `rx_bytes_available` |
| receive.dfy | Receiver | `receive` |

The high-level driver in src/lib.rs is written against a newer low-level layer
than the src/lowlevel.rs shown. Five of the pieces it calls are not part of this
model's sources, so they are modelled from their call sites:

- `write_cmd_strobe` is taken as one single-byte transaction of the opcode.
- `access_fifo` is taken as one transaction: the burst FIFO header for the direction, then the optional fields, then the data (src/lib.rs:561-565, 622-626).
- `FIFO_SIZE_MAX` is taken as 64.
- `MachineState::try_from` is taken to accept 0x00..0x16 and return anything else as `InvalidState` (src/lib.rs:494-499).
- `from_rssi_to_rssi_dbm` (src/lib.rs:487, 577) is defined nowhere in the sources, and src/lib.rs declares no `rssi` module. It is taken to be `rssi_to_dbm` of src/rssi.rs, which `Rssi.ToDbm` models.

Two encoding facts are also assumptions:

- The newer encoder calls `Command::addr(access, mode)`. The command.rs shown has only the argument-free `addr()`, so the two-argument form is taken as `access | mode | opcode`, like the other categories.
- `Access` is not among the sources. Read is taken as 0x80 and Write as 0x00.

Status reads in the driver go through the older encoder, as src/lowlevel.rs does.

## Model

| member | source | states |
|---|---|---|
| Traits.WidthRule | src/lowlevel/traits.rs:8-26 | a bare offset `n` has offset `n` and size 1, so the macros make it two bits wide; a range `lo..hi` has offset `lo` and is `hi - lo + 1` bits wide, covering lo..hi inclusive |
| Traits.ToWider | src/lowlevel/traits.rs:33-38 | `to_wider` gives the u16 with the same numeric value, always below 0x100 |
| Access.ModeBits | src/lowlevel/access.rs:1-5 | the mode occupies only bit 6, and is 0x40 exactly for Burst |
| Access.DirectionBits | src/lowlevel/registers/config.rs:100-106 | the direction occupies only bit 7, and is 0x80 exactly for Read |
| Access.Offset | src/lowlevel/access.rs:7-11 | `Mode::offset` changes no bit but bit 6, and sets it for Burst |
| Access.SingleOffset | src/lowlevel/access.rs:7-11 | Single leaves an address unchanged |
| Access.OffsetOfBase | src/lowlevel/access.rs:7-11 | for a base below 0x40, Burst adds 0x40, and masking with 0x3F recovers the base in either mode |
| Access.OffsetIdempotent | src/lowlevel/access.rs:7-11 | applying a mode twice is applying it once |
| Access.DecodeHeaderInverse | src/lowlevel/registers/config.rs:100-106 | a header `access \| mode \| base` with base below 0x40 decodes back to its direction, mode and base |
| Access.HeaderOfDecode | src/lowlevel/registers/config.rs:100-106 | every byte is the header of what it decodes to |
| Access.HeaderIsOffset | src/lowlevel/access.rs:7-11 | the header is `Mode::offset` of the base with the direction bit added |
| BitField.MaskValue | src/lowlevel/macros.rs:38-40 | the mask `((1 << (size()+1)) - 1) as u8` is 2^width - 1 |
| BitField.FieldBitsSpan | src/macros.rs:19-25 | the mask view of a range `lo..hi` covers bits lo..hi inclusive |
| BitField.FieldBitsBare | src/macros.rs:19-25 | the mask view of a bare offset `n` covers bits n and n+1, cut off at bit 7 |
| BitField.ReadViaMaskView | src/macros.rs:50-58 | a field read equals `(bits & mask_view) >> offset` |
| BitField.WriteKeepsOutside | src/lowlevel/macros.rs:57-65 | a field write leaves every bit outside `mask << offset` unchanged |
| BitField.ReadAfterWrite | src/lowlevel/macros.rs:35-65 | reading back a written field gives the value with the bits shifted past bit 7 lost, and the value itself when the field fits in the byte |
| BitField.WriteTwice | src/lowlevel/macros.rs:61-65 | of two writes to one field the second wins; writing the same value twice is writing it once |
| BitField.WritesCommute | src/lowlevel/macros.rs:61-65 | writes to fields with disjoint masks commute |
| BitField.WriteKeepsDisjointRead | src/lowlevel/macros.rs:35-65 | a write to one field does not change the read of a field disjoint from it |
| Layouts.DescendingDisjoint | src/lowlevel/registers/config.rs:115-129 | a table listed from the high bits down, each field ending below the previous one's offset, has pairwise disjoint fields |
| Layouts.IntendedKeepsDisjoint | src/lowlevel/traits.rs:13-15 | reading every bare offset as one bit keeps apart any fields that were apart |
| Layouts.IntendedChainDisjoint | src/lowlevel/traits.rs:13-15 | a table whose fields, read as single bits at bare offsets, descend without touching is disjoint |
| RegisterViews.ViewsKeepByte | src/lowlevel/macros.rs:12-31 | `From<u8>` then `Into<u8>`, and `modify()` then `bits()`, give back the byte; `Default` gives the reset value; the older `mask()` starts from 0 |
| RegisterViews.GetViaMask | src/macros.rs:19-58 | a getter equals the older macro's mask-view read, and the mask view is the field's ones shifted to its offset |
| RegisterViews.SetKeepsOutside | src/lowlevel/macros.rs:52-68 | a setter changes no bit outside the field's mask view |
| RegisterViews.GetAfterSet | src/lowlevel/macros.rs:27-68 | a getter after its setter gives the value whenever the field does not run past bit 7 |
| RegisterViews.SetTwice | src/lowlevel/macros.rs:52-68 | a field set twice holds the second value; setting the same value twice is setting it once |
| RegisterViews.SetsCommute | src/lowlevel/macros.rs:52-68 | setters of fields with disjoint masks commute |
| RegisterViews.SetKeepsOtherFields | src/lowlevel/macros.rs:33-68 | in a register whose fields are disjoint as written, a setter leaves every other field's reading unchanged |
| RegisterViews.IntendedGetAfterSet | src/lowlevel/macros.rs:33-68 | with bare offsets read as one bit, every field reads back the value just written |
| RegisterViews.IntendedSetKeepsOtherFields | src/lowlevel/macros.rs:33-68 | with bare offsets read as one bit, a setter leaves every other field of any configuration register unchanged, the overlapping registers included |
| RegisterViews.IntendedOnRanges | src/lowlevel/macros.rs:33-45 | on range fields the single-bit reading agrees with the codec as written |
| Configs.BaseRoundTrip | src/lowlevel/registers/config.rs:2-97 | every register's base is at most 0x2E and maps back to that register |
| Configs.FromBaseRoundTrip | src/lowlevel/registers/config.rs:2-97 | exactly the bytes 0x00..0x2E name a register, each the register whose base it is, so the bases are contiguous |
| Configs.BaseInjective | src/lowlevel/registers/config.rs:2-97 | distinct registers have distinct bases |
| Configs.AddrFields | src/lowlevel/registers/config.rs:100-106 | `Config::addr` holds the direction in bit 7, the mode in bit 6 and the base in bits 0..5 |
| Configs.LayoutCodable | src/lowlevel/registers/config.rs:115-458 | every field position in the tables lies within the byte, so the codec accepts it |
| Configs.FieldsDisjoint | src/lowlevel/registers/config.rs:115-458 | a register's fields are pairwise disjoint as written exactly when it is not one of the ten overlapping registers, and every register's fields are disjoint once bare offsets are read as one bit |
| Configs.FieldsOfIOCFG1 | src/lowlevel/registers/config.rs:122-129 | as written `gdo1_inv @ 6` overlaps `gdo1_ds @ 7` |
| Configs.IntendedFieldsOfIOCFG1 | src/lowlevel/registers/config.rs:122-129 | read as single bits, IOCFG1's fields are disjoint |
| Configs.FieldsOfIOCFG0 | src/lowlevel/registers/config.rs:131-138 | as written IOCFG0's bare offsets overlap a neighbour |
| Configs.IntendedFieldsOfIOCFG0 | src/lowlevel/registers/config.rs:131-138 | read as single bits, IOCFG0's fields are disjoint |
| Configs.FieldsOfPKTCTRL1 | src/lowlevel/registers/config.rs:164-173 | as written `append_status @ 2` overlaps `crc_autoflush @ 3` |
| Configs.IntendedFieldsOfPKTCTRL1 | src/lowlevel/registers/config.rs:164-173 | read as single bits, PKTCTRL1's fields are disjoint |
| Configs.FieldsOfMDMCFG2 | src/lowlevel/registers/config.rs:235-244 | as written `manchester_en @ 3` overlaps `mod_format @ 4..6` |
| Configs.IntendedFieldsOfMDMCFG2 | src/lowlevel/registers/config.rs:235-244 | read as single bits, MDMCFG2's fields are disjoint |
| Configs.FieldsOfMCSM2 | src/lowlevel/registers/config.rs:267-275 | as written MCSM2's bare offsets overlap a neighbour |
| Configs.IntendedFieldsOfMCSM2 | src/lowlevel/registers/config.rs:267-275 | read as single bits, MCSM2's fields are disjoint |
| Configs.FieldsOfMCSM0 | src/lowlevel/registers/config.rs:286-295 | as written MCSM0's bare offsets overlap a neighbour |
| Configs.IntendedFieldsOfMCSM0 | src/lowlevel/registers/config.rs:286-295 | read as single bits, MCSM0's fields are disjoint |
| Configs.FieldsOfFOCCFG | src/lowlevel/registers/config.rs:297-306 | as written FOCCFG's bare offsets overlap a neighbour |
| Configs.IntendedFieldsOfFOCCFG | src/lowlevel/registers/config.rs:297-306 | read as single bits, FOCCFG's fields are disjoint |
| Configs.FieldsOfBSCFG | src/lowlevel/registers/config.rs:308-319 | as written BSCFG's bare offsets overlap a neighbour |
| Configs.IntendedFieldsOfBSCFG | src/lowlevel/registers/config.rs:308-319 | read as single bits, BSCFG's fields are disjoint |
| Configs.FieldsOfWORCTRL | src/lowlevel/registers/config.rs:360-369 | as written WORCTRL's bare offsets overlap a neighbour |
| Configs.IntendedFieldsOfWORCTRL | src/lowlevel/registers/config.rs:360-369 | read as single bits, WORCTRL's fields are disjoint |
| Configs.FieldsOfTEST0 | src/lowlevel/registers/config.rs:451-458 | as written `vco_sel_cal_en @ 1` overlaps `test0_1 @ 2..7` |
| Configs.IntendedFieldsOfTEST0 | src/lowlevel/registers/config.rs:451-458 | read as single bits, TEST0's fields are disjoint |
| Statuses.BaseRoundTrip | src/lowlevel/registers/status.rs:3-32 | every status base lies in 0x30..0x3D and maps back to its register |
| Statuses.FromBaseRoundTrip | src/lowlevel/registers/status.rs:3-32 | exactly the bytes 0x30..0x3D name a status register, each the one whose base it is |
| Statuses.BaseInjective | src/lowlevel/registers/status.rs:3-32 | distinct status registers have distinct bases |
| Statuses.AddrFields | src/lowlevel/registers/status.rs:34-42 | `Status::addr` holds the direction in bit 7, the mode in bit 6 and the base in bits 0..5 |
| Statuses.Reset | src/lowlevel/registers/status.rs:50-136 | every status reset value is 0 except VERSION's 0x14 |
| Statuses.FlagAndCount | src/lowlevel/registers/status.rs:65-70 | in LQI, TXBYTES and RXBYTES the flag is bit 7 and the count bits 0..6, at most 127 and without the flag; together they rebuild the byte |
| Statuses.FlagAndCountLayouts | src/lowlevel/registers/status.rs:114-126 | LQI, TXBYTES and RXBYTES list exactly the flag at 7 and the count at 0..6, and MARCSTATE the state at 0..4 |
| Statuses.MarcStateBits | src/lowlevel/registers/status.rs:77-80 | `marc_state` is the low five bits of MARCSTATE, so at most 31 |
| Statuses.PacketStatusFieldsOverlap | src/lowlevel/registers/status.rs:92-107 | as written PKTSTATUS's `cs @ 6` overlaps `crc_ok @ 7` |
| Statuses.PacketStatusFieldsIntended | src/lowlevel/registers/status.rs:92-107 | read as single bits, PKTSTATUS's flags are disjoint |
| StatusBytes.StateFrom | src/lowlevel/registers/status_byte.rs:24-38 | `State::from` succeeds exactly on 0..7 and returns the state with that discriminant; anything above panics |
| StatusBytes.StateRoundTrip | src/lowlevel/registers/status_byte.rs:4-38 | every state's discriminant is at most 7 and decodes back to the state |
| StatusBytes.ValueInjective | src/lowlevel/registers/status_byte.rs:4-22 | distinct states have distinct discriminants |
| StatusBytes.LayoutDisjoint | src/lowlevel/registers/status_byte.rs:59-66 | the three status-byte fields occupy separate bits even with the two-bit bare offset |
| StatusBytes.Decode | src/lowlevel/registers/status_byte.rs:48-57 | `StatusByte::from` is total: `chip_rdy` holds iff bit 7 is 0, the state is bits 4..6 (so the panic arm of `State::from` is unreachable), the FIFO count is bits 0..3 and at most 15 |
| StatusBytes.EncodeDecode | src/lowlevel/registers/status_byte.rs:48-57 | the decoding loses nothing: re-encoding it gives the byte back |
| StatusBytes.DecodeEncode | src/lowlevel/registers/status_byte.rs:48-57 | every status with a count below 16 is the decoding of its encoding |
| StatusBytes.DecodeReset | src/lowlevel/registers/status_byte.rs:40-66 | the reset value 0x80 decodes to the derived default: not ready, IDLE, no bytes |
| Commands.OpcodeRoundTrip | src/lowlevel/registers/command.rs:3-36 | every opcode lies in 0x30..0x3F and maps back to its command |
| Commands.FromOpcodeRoundTrip | src/lowlevel/registers/command.rs:3-36 | exactly the bytes 0x30..0x3F are opcodes, so they are contiguous |
| Commands.OpcodeInjective | src/lowlevel/registers/command.rs:3-36 | distinct commands have distinct opcodes |
| Commands.Addr | src/lowlevel/registers/command.rs:38-42 | `Command::addr` returns the opcode unchanged, below 0x40 |
| Commands.OpcodeUnderHeader | src/lowlevel/registers/command.rs:5-35 | OR-ing direction and mode bits into an opcode never changes its low six bits |
| Commands.OpcodesAreStatusBases | src/lowlevel/registers/command.rs:5-31 | the opcodes SRES..SNOP equal the status bases PARTNUM..RCCTRL0_STATUS |
| Commands.MultiByteBases | src/lowlevel/registers/multi_byte.rs:1-7 | PATABLE is 0x3E and FIFO 0x3F, the same numbers as the command table's entries |
| Commands.FifoBurstHeaders | src/lowlevel/registers/multi_byte.rs:9-17 | a burst read of the FIFO has header 0xFF, the byte `FIFO \| 0xC0`; a burst write 0x7F |
| Commands.MultiByteAddrFields | src/lowlevel/registers/multi_byte.rs:9-17 | `MultiByte::addr` decodes back to its direction, mode and base |
| Encoders.Base | src/lowlevel/registers.rs:16-21 | every register of the union is reached at a base below 0x40 |
| Encoders.RAddrFields | src/lowlevel/registers.rs:24-31 | a read header has bit 7 set and the base in bits 0..5; status reads are burst, commands single, the others use the mode given |
| Encoders.WAddrFields | src/lowlevel/registers.rs:33-40 | `waddr` panics exactly for a status register (`Status cannot be written!`); every other write header has bit 7 clear, the base in bits 0..5 and the category's mode |
| Encoders.ReadIsWritePlusDirection | src/lowlevel/registers.rs:24-40 | for every register `waddr` does not panic on, and every mode, the read header is the write header with bit 7 set |
| Encoders.StatusReadIsBurst | src/lowlevel/registers.rs:29 | a status read header is `0x80 \| 0x40 \| base` whatever mode is passed |
| Encoders.CommandIgnoresMode | src/lowlevel/registers.rs:26-35 | command headers do not depend on the mode argument |
| Encoders.RAddrInjective | src/lowlevel/registers.rs:24-31 | within a category distinct registers get distinct read headers |
| Encoders.LegacyReadIsWritePlusDirection | src/lowlevel/registers/mod.rs:19-33 | in the older encoder the read header is the write header with bit 7 set, for every register, and write headers are below 0x80 |
| Encoders.LegacyStatusWrite | src/lowlevel/registers/mod.rs:27-33 | the older `waddr` of a status register is `0x40 \| base`, with no panic |
| Encoders.EncodersAgree | src/lowlevel/registers/mod.rs:19-33 | the two encoders agree at Single on every read and on every non-status write; on a status write the older one gives `0x40 \| base` where the newer one panics |
| MachineStates.ValueRoundTrip | src/lowlevel/types/machine_state.rs:3-33 | every state's `value()` is at most 0x16 and decodes back to the state |
| MachineStates.TryFromRoundTrip | src/lib.rs:491-499 | the MARCSTATE value decodes to a state exactly when it is at most 0x16, and then to the state with that value; any other value is returned unchanged as `InvalidState` |
| MachineStates.ValueInjective | src/lowlevel/types/machine_state.rs:3-27 | distinct states have distinct values |
| PacketStatuses.BoolU8 | src/lowlevel/types/packet_status.rs:18-26 | the conversion succeeds exactly on 0 and 1, and gives true exactly on 1 |
| PacketStatuses.RawBits | src/lowlevel/types/packet_status.rs:28-39 | each accessor, with its bare offset, reads two bits: the flag's bit and the one above it |
| PacketStatuses.AsWrittenAccepts | src/lowlevel/types/packet_status.rs:28-39 | `PacketStatus::from` as written returns only on bytes with bits 7, 6, 5, 4, 3 and 1 clear, and panics on every other byte |
| PacketStatuses.AsWrittenOutcome | src/lowlevel/types/packet_status.rs:28-39 | when it returns, `crc_ok`, `carrier_sense`, `preamble_quality_reached`, `cca_channel_clear` and `sof_delimiter` are all false |
| PacketStatuses.CrcOkPanics | src/lowlevel/types/packet_status.rs:31 | a PKTSTATUS byte of 0x80 (CRC good, nothing else) makes the conversion panic |
| PacketStatuses.DecodeReadsIntended | src/lowlevel/types/packet_status.rs:6-14 | the corrected conversion is total and reads each of the seven flags from its own bit of PKTSTATUS |
| PacketStatuses.DecodeEncode | src/lowlevel/types/packet_status.rs:6-14 | encoding a packet status and decoding it gives it back |
| PacketStatuses.EncodeDecode | src/lowlevel/types/packet_status.rs:6-14 | decoding keeps every bit but bit 1, which no flag owns |
| PacketStatuses.AsWrittenAgrees | src/lowlevel/types/packet_status.rs:28-39 | wherever the as-written conversion returns, it returns the corrected decoding |
| FilterLengths.SamplesRoundTrip | src/lowlevel/types/filter_length.rs:22-37 | the sample counts convert to 0..3, one to one and onto |
| FilterLengths.BoundaryRoundTrip | src/lowlevel/types/filter_length.rs:43-58 | the decision boundaries convert to 0..3, one to one and onto |
| FilterLengths.ValueFits | src/lowlevel/types/filter_length.rs:9-16 | a filter length converts to at most 3, and knowing the variant the inner setting is recovered |
| FilterLengths.ValueForgetsVariant | src/lowlevel/types/filter_length.rs:9-16 | the conversion drops the variant: a sample count and a decision boundary in the same position give the same byte |
| Rssi.TruncDiv | src/rssi.rs:7-9 | `i16` division rounds toward zero: the quotient of the magnitude, negated for a negative dividend |
| Rssi.Signed | src/rssi.rs:4-9 | the two branches read the byte as a two's complement `i8`: in -128..127, non-negative exactly below 128, congruent to the byte |
| Rssi.ToDbmRange | src/rssi.rs:3-11 | every reading converts to -138..-11 dBm, which fits the `i16` returned |
| Rssi.ToDbmHalvesSigned | src/rssi.rs:3-11 | the result is the signed reading halved toward zero minus the offset 74, within the dropped half step of the exact value |
| Rssi.ToDbmMonotone | src/rssi.rs:6-10 | the conversion is monotone within each of the two branches |
| Rssi.ToDbmSpotValues | src/rssi.rs:1-11 | the branch ends: 0 gives -74, 127 gives -11, 128 gives -138 and 255 gives -74 |
| Rssi.TruncationAtZero | src/rssi.rs:9 | 0x01 and 0xFF both give -74 dBm because the division truncates; flooring would give -75 for 0xFF |
| Convert.FromFrequency | src/lowlevel/convert.rs:1-7 | the three bytes are the base-256 digits of the low 24 bits of `hz * 2^16 / 26 MHz`, each below 256 |
| Convert.ByteDigits | src/lowlevel/convert.rs:3-5 | masking and shifting out three bytes recovers the number modulo 2^24 |
| Convert.WordBrackets | src/lowlevel/convert.rs:2 | the word is the largest setting whose synthesised frequency does not exceed `hz` |
| Convert.WordMonotone | src/lowlevel/convert.rs:2 | a higher frequency never gives a smaller word |
| Convert.Freq2Fits | src/lowlevel/convert.rs:2-5 | below 1 GHz the `u64` product does not overflow and FREQ2 stays below 0x40, inside its six-bit field |
| Convert.Fixture433MHz | src/lowlevel/convert.rs:15 | 433 MHz gives (0x62, 0xA7, 0x10) |
| Convert.Fixture868MHz | src/lowlevel/convert.rs:16 | 868 MHz gives (0x76, 0x62, 0x21) |
| Convert.Fixture902MHz | src/lowlevel/convert.rs:17 | 902 MHz gives (0x3B, 0xB1, 0x22) |
| Convert.Fixture918MHz | src/lowlevel/convert.rs:18 | 918 MHz gives (0xC4, 0x4E, 0x23) |
| Settings.SyncCheckFits | src/lowlevel/registers/config.rs:243 | every `SyncCheck` value fits MDMCFG2's `sync_mode` field, so `set_sync_mode` meets the setter's `debug_assert` |
| Settings.AddressCheckFits | src/lowlevel/registers/config.rs:172 | every `AddressCheck` value fits PKTCTRL1's `adr_chk` field |
| Settings.LengthConfigFits | src/lowlevel/registers/config.rs:183 | every `LengthConfig` value fits PKTCTRL0's `length_config` field |
| Settings.CcaModeFits | src/lowlevel/registers/config.rs:279 | every `CcaMode` value fits MCSM1's `cca_mode` field |
| Settings.AutoCalibrationFits | src/lowlevel/registers/config.rs:288 | every `AutoCalibration` value fits MCSM0's `fs_autocal` field |
| Settings.NumPreambleFits | src/lowlevel/registers/config.rs:250 | every `NumPreamble` value fits MDMCFG1's `num_preamble` field |
| Settings.GdoCfgFits | src/lowlevel/registers/config.rs:115-138 | every `GdoCfg` value fits the six-bit `gdo2_cfg`, `gdo1_cfg` and `gdo0_cfg` fields |
| Settings.MDMCFG2Field3 | src/lowlevel/registers/config.rs:243 | `sync_mode` sits at 0..2 of MDMCFG2, a three-bit field (mask 0x07) |
| Settings.PKTCTRL1Fields | src/lowlevel/registers/config.rs:164-173 | in PKTCTRL1 `crc_autoflush` is at bare offset 3, `append_status` at bare offset 2 with a two-bit mask (0x03), and `adr_chk` at 0..1 (mask 0x03) |
| Settings.PKTCTRL0Field3 | src/lowlevel/registers/config.rs:183 | `length_config` sits at 0..1 of PKTCTRL0, a two-bit field (mask 0x03) |
| Settings.MCSM1Field0 | src/lowlevel/registers/config.rs:279 | `cca_mode @ 4..5` is a two-bit field (mask 0x03) |
| Settings.MCSM0Field0 | src/lowlevel/registers/config.rs:288 | `fs_autocal @ 4..5` is a two-bit field (mask 0x03) |
| Settings.MDMCFG1Field1 | src/lowlevel/registers/config.rs:250 | `num_preamble @ 4..6` is a three-bit field (mask 0x07) |
| Settings.IOCFG2Field1 | src/lowlevel/registers/config.rs:119 | `gdo2_cfg @ 0..5` is a six-bit field (mask 0x3F) |
| Settings.IOCFG1Field2 | src/lowlevel/registers/config.rs:128 | `gdo1_cfg @ 0..5` is a six-bit field (mask 0x3F) |
| Settings.IOCFG0Field2 | src/lowlevel/registers/config.rs:137 | `gdo0_cfg @ 0..5` is a six-bit field (mask 0x3F) |
| LowLevel.Response | src/lowlevel.rs:40 | a transfer in place clocks in exactly one byte per byte clocked out, as the device supplies them |
| LowLevel.Transfer | src/lowlevel.rs:40 | one transaction is recorded, fails exactly when the device faults, passes the device's error on unchanged and otherwise returns the bytes clocked in |
| LowLevel.StrobesAppend | src/lowlevel.rs:58-61 | the strobes issued by two runs in sequence are those of the first followed by those of the second |
| LowLevel.StrobesSnoc | src/lowlevel.rs:58-61 | one more transaction adds exactly its own strobe, if it is one |
| LowLevel.ReadRegister | src/lowlevel.rs:35-42 | `read_register` makes one transaction of `[raddr, 0]`, passes a transport error on, and otherwise returns the second byte clocked in |
| LowLevel.WriteRegister | src/lowlevel.rs:63-69 | `write_register` makes one transaction of `[waddr, value]` and passes a transport error on |
| LowLevel.WriteStrobe | src/lowlevel.rs:58-61 | `write_strobe` makes one single-byte transaction of the opcode and passes a transport error on |
| LowLevel.ModifyRegister | src/lowlevel.rs:71-79 | `modify_register` reads once and, only if the read succeeds, writes `f` of the byte read to the same register; a failed read writes nothing and its error is returned |
| LowLevel.ReadFifo | src/lowlevel.rs:44-56 | `read_fifo` makes one transaction starting with the header `FIFO | 0xC0` (0xFF); `len` is the second byte clocked in, `addr` the third, and the buffer receives the rest |
| LowLevel.AccessFifo | src/lib.rs:561-565 | the FIFO access `read_data` and `write_data` make is one transaction of the burst FIFO header, the optional fields and the data; a read fills both with the bytes clocked in, a write leaves them |
| LowLevel.ReadFrameInterpreted | src/lowlevel.rs:39 | the chip takes a `read_register` frame as a read of the register's base, not as a strobe |
| LowLevel.WriteFrameInterpreted | src/lowlevel.rs:67 | the chip takes a configuration write frame as a write of the value at the register's base, not as a strobe |
| LowLevel.StrobeFrameInterpreted | src/lowlevel.rs:59 | the chip takes every `write_strobe` frame as that command's strobe |
| LowLevel.FifoFrameInterpreted | src/lib.rs:561-565 | the chip takes a FIFO access as a FIFO read of the right length or a FIFO write of the fields and data, never as a strobe |
| LowLevel.ReadFifoIsAccessFifo | src/lowlevel.rs:44-56 | `read_fifo` is the FIFO read access with two optional bytes: same transaction, same outcome, same bytes |
| Builders.DeviatnFields | src/lowlevel/registers/config.rs:260-265 | DEVIATN's `deviation_e` is bits 4..6 and `deviation_m` bits 0..2, three bits each |
| Builders.DeviationBuilder | src/lib.rs:312-319 | `DEVIATN::default().deviation_m(m).deviation_e(e)` has m in bits 0..2, e in bits 4..6, and bits 3 and 7 of the reset value 0x47, both clear |
| Builders.DeviationWrites | src/lib.rs:316 | the built byte is the two field writes on the reset value, mantissa first |
| Builders.SetMantissa | src/lowlevel/macros.rs:52-68 | the `deviation_m` setter writes the three-bit field at bits 0..2 |
| Builders.SetExponent | src/lowlevel/macros.rs:52-68 | the `deviation_e` setter writes the three-bit field at bits 4..6 |
| Builders.MantissaWrite | src/lowlevel/registers/config.rs:260 | writing m into bits 0..2 of the reset value 0x47 gives 0x40 \| m |
| Builders.ExponentWrite | src/lowlevel/registers/config.rs:262 | writing e into bits 4..6 of 0x40 \| m gives (e << 4) \| m |
| Builders.DeviationReadsBack | src/lib.rs:316 | the getters read the built byte back as the mantissa and the exponent given |
| Builders.Iocfg1Fields | src/lowlevel/registers/config.rs:122-129 | `gdo1_ds` is at bare offset 7 and `gdo1_inv` at bare offset 6, so `gdo1_inv`'s mask is two bits |
| Builders.ActiveLowClearsDriveStrength | src/lib.rs:213-223 | as written, `set_gdo1_active_state(Low)` on IOCFG1 = 0xAE writes 0x6E: the high drive strength bit is cleared |
| Builders.ActiveLowKeepsDriveStrengthAsIntended | src/lib.rs:213-223 | with `gdo1_inv` a single bit the same call writes 0xEE and the drive strength stays set |
| Builders.AppendStatusClearsAutoflush | src/lib.rs:403-409 | as written, `append_status_enable(false)` on PKTCTRL1 = 0x0C writes 0x00: `crc_autoflush` goes from 1 to 0 |
| Builders.AppendStatusKeepsAutoflushAsIntended | src/lib.rs:403-409 | with `append_status` a single bit the same call writes 0x08 and `crc_autoflush` stays set |
| Setters.SetField | src/lowlevel.rs:71-79 | a field set through `modify_register` writes nothing when the read fails, and otherwise writes back the byte read with the field set |
| Setters.ThenWrite | src/lib.rs:376-377 | a `?`-chained register write is skipped after a failure and otherwise adds exactly its frame |
| Setters.ResetBytes | src/lowlevel/registers/config.rs:115-458 | the reset values the setters fall back on: ADDR 0x00, PKTLEN 0xFF, SYNC1 0xD3, SYNC0 0x91 |
| Setters.SetByteIsWrite | src/lowlevel/macros.rs:29-68 | `C(r).modify().<field>(x).bits()` is the field write on the byte read |
| Setters.SetFieldThenWrite | src/lib.rs:425-428 | a field set followed by a write issues, on success, the read, the write-back and the write, in that order |
| Setters.SetFieldThenTwoWrites | src/lib.rs:373-377 | a field set followed by two writes issues, on success, all four frames in order |
| Setters.LowTwoBitsWrite | src/lowlevel/macros.rs:52-68 | writing a two-bit field at bits 0..1 puts the value there and keeps bits 2..7 |
| Setters.LowThreeBitsWrite | src/lowlevel/macros.rs:52-68 | writing a three-bit field at bits 0..2 puts the value there and keeps bits 3..7 |
| Setters.AppendStatusBitWrite | src/lowlevel/registers/config.rs:168-170 | as written, setting `append_status` to 0 or 1 sets bit 2 to it, clears bit 3 (`crc_autoflush`) and keeps the rest |
| Setters.AppendStatusEnable | src/lib.rs:403-409 | `append_status_enable` sets `rx_status_fields` to the argument, before any SPI traffic, and leaves the other flags |
| Setters.AppendStatusEnableWrites | src/lib.rs:403-409 | on success it read PKTCTRL1 and wrote back bit 2 set exactly when the flag now says status bytes are appended, `crc_autoflush` cleared, and bits 0, 1, 4..7 as read |
| Setters.SetAddressFilter | src/lib.rs:412-430 | `set_address_filter` leaves `address_field` true exactly when the filter is not `Disabled`, and leaves the other flags |
| Setters.SetAddressFilterWrites | src/lib.rs:412-430 | on success it read PKTCTRL1, wrote back the filter's check in bits 0..1 with bits 2..7 as read, then wrote the device address (reset value 0x00 when disabled) to ADDR; the flag is set exactly when the chip checks addresses |
| Setters.AddressModeOff | src/lib.rs:414-423 | of the four filters only `Disabled` selects the check value 0, so the chip checks addresses exactly when a device address is given |
| Setters.PacketLimit | src/lib.rs:450-457 | the PKTLEN byte is the limit given, or the reset value 0xFF for `Infinite` |
| Setters.PacketLengthWrites | src/lib.rs:449-463 | on success `set_packet_length` read PKTCTRL0, wrote back the length configuration (0 fixed, 1 variable, 2 infinite) in bits 0..1 with bits 2..7 as read, then wrote the limit to PKTLEN |
| Setters.SetPacketLengthAsWritten | src/lib.rs:449-463 | as written only `Variable` touches `length_field`, setting it; `Fixed` and `Infinite` keep the earlier value |
| Setters.SetPacketLengthLeavesStaleFlag | src/lib.rs:450-457 | after `Variable(n)` then `Fixed(n)` the chip is told fixed length (bits 0..1 are 0) yet `length_field` stays true |
| Setters.SetPacketLength | src/lib.rs:449-463 | corrected: `length_field` is set exactly for `Variable` |
| Setters.SetPacketLengthAgrees | src/lib.rs:449-463 | corrected, after a successful call the flag says a length byte is on air exactly when the chip was configured for variable length |
| Setters.ResetWord | src/lib.rs:365 | the reset word is SYNC1's reset value above SYNC0's, 0xD391 |
| Setters.SyncWord | src/lib.rs:367-372 | the word written is the one given, or 0xD391 for `Disabled` |
| Setters.SyncBytesRecombine | src/lib.rs:376-377 | the bytes written to SYNC1 and SYNC0 put back together give the word |
| Setters.SetSyncMode | src/lib.rs:364-379 | a successful `set_sync_mode` makes exactly four transactions |
| Setters.SetSyncModeWrites | src/lib.rs:364-379 | on success it read MDMCFG2, wrote back the check level in bits 0..2 (0 none, 1 15/16, 2 16/16, 3 30/32) with bits 3..7 as read, then wrote the word's high byte to SYNC1 and its low byte to SYNC0 |
| Packets.OptionalCount | src/lib.rs:540 | the number of optional fields is the count of configured length and address flags, at most 2 |
| Packets.MissingArgument | src/lib.rs:545-558 | the first failing check in the source's order: a missing length when the length field is configured, else a missing address likewise, else (reads only) a missing RSSI or LQI slot when status bytes are appended; none exactly when every needed argument is there |
| Packets.Pack | src/lib.rs:612-620 | `write_data` fills one byte per configured field, the length first and the address last |
| Packets.WriteData | src/lib.rs:591-631 | `write_data` returns the argument error or `ArrayTooLong(len)` when data exceeds 64 minus the optional fields, with no SPI traffic; otherwise exactly one FIFO write, succeeding exactly when the transport does |
| Packets.WriteDataSends | src/lib.rs:622-626 | the chip receives a FIFO write of the length byte, the address byte (each when configured) and then the data, and no strobe |
| Packets.Zeros | src/lib.rs:542 | a read clocks out one zero per optional field |
| Packets.ClockedIn | src/lib.rs:561-565 | the read gets back one byte per optional field and per buffer byte |
| Packets.ReadData | src/lib.rs:532-588 | `read_data` returns the argument error or `ArrayTooLong(len)` with no SPI traffic; otherwise exactly one FIFO read, then the unpacking |
| Packets.UnpackFields | src/lib.rs:567-583 | the length is the first optional byte and the address the last, each only when configured, else the caller's value stays; with status bytes RSSI is the dBm of the second-to-last byte, LQI the last byte, both zeroed and every other byte kept; a buffer below two bytes panics; `from_rssi_to_rssi_dbm` is taken to be `rssi_to_dbm` of src/rssi.rs |
| Packets.ReadDataUnpacks | src/lib.rs:560-583 | a read that reaches the FIFO unpacks the optional fields from the first bytes clocked in and the buffer from the rest |
| Packets.ReadDataShortBufferPanics | src/lib.rs:576-583 | with status bytes appended, a buffer shorter than two bytes panics after the FIFO read has been sent |
| Packets.ReadBackWritten | src/lib.rs:532-631 | reading back what a successful `write_data` sent, plus the appended status bytes, returns the written length, address and data (the status bytes zeroed) and the status readings |
| Packets.UnpackPacked | src/lib.rs:567-583 | unpacking what `write_data` packed gives back the written fields and data |
| Driver.GetHwInfo | src/lib.rs:466-470 | `get_hw_info` reads PARTNUM and then VERSION and returns the two bytes; a failed first read stops there with its error |
| Driver.GetLqi | src/lib.rs:481-483 | `get_lqi` makes one LQI read and returns bits 0..6, at most 127, without the CRC flag |
| Driver.GetRssiDbm | src/lib.rs:486-488 | `get_rssi_dbm` makes one RSSI read and returns its dBm value, within -138..-11, with `from_rssi_to_rssi_dbm` taken to be `rssi_to_dbm` of src/rssi.rs |
| Driver.GetMachineState | src/lib.rs:491-500 | `get_machine_state` makes one MARCSTATE read; it succeeds exactly when the low five bits are at most 0x16, returning the state with that value, and otherwise fails with `InvalidState` of those bits |
| Driver.GetPacketStatus | src/lib.rs:503-505 | as written `get_packet_status` succeeds only when bits 7, 6, 5, 4, 3 and 1 of PKTSTATUS are clear and panics otherwise; when it succeeds it agrees with the single-bit decoding |
| Driver.GetTxBytes | src/lib.rs:508-517 | `get_tx_bytes` makes one TXBYTES read and returns `TxUnderflow` when bit 7 is set, else the count in bits 0..6 |
| Driver.GetRxBytes | src/lib.rs:520-529 | `get_rx_bytes` makes one RXBYTES read and returns `RxOverflow` when bit 7 is set, else the count in bits 0..6 |
| Driver.MarcStatePollIssues | src/lib.rs:644 | each poll of `await_machine_state` adds exactly one MARCSTATE read and never times out by itself |
| Driver.RxBytesPollIssues | src/lib.rs:709 | each poll of `rx_bytes_available` adds exactly one RXBYTES read and never times out by itself |
| Driver.MarcStateReadIsNoStrobe | src/lib.rs:492 | the chip takes a MARCSTATE read for no strobe |
| Driver.MarcStatePollErrors | src/lib.rs:491-500 | `get_machine_state` fails only with a transport error or `InvalidState` |
| Driver.AwaitNeverCrcMismatch | src/lib.rs:642-650 | `await_machine_state` never fails with `CrcMismatch`, so the mismatch `receive` reports comes from its own check |
| Driver.StrobeAndAwait | src/lib.rs:675-703 | a strobe followed by a wait only adds frames to the trace |
| Driver.SetRadioMode | src/lib.rs:675-703 | `set_radio_mode` only adds frames to the trace |
| Driver.ModeStrobesReachChip | src/lib.rs:675-703 | SIDLE and each mode's strobe (SPWD, SCAL, STX, SRX) reach the chip as that strobe |
| Driver.StrobeThenAwait | src/lib.rs:675-702 | a strobe and the wait after it issue that strobe and no other, whether or not the transfer failed |
| Driver.AwaitIssuesNoStrobe | src/lib.rs:642-650 | `await_machine_state` issues no strobe |
| Driver.AwaitMachineState | src/lib.rs:642-650 | `await_machine_state`, with a fuel bound on its polls; what it promises is carried by Driver.AwaitShows, Driver.AwaitIssuesNoStrobe and Driver.AwaitNeverCrcMismatch |
| Driver.AwaitShows | src/lib.rs:642-650 | a wait that succeeds ends with the MARCSTATE read that showed the target |
| Driver.StrobeThenAwaitShows | src/lib.rs:675-702 | a strobe and wait that succeed end with the MARCSTATE read that showed the target |
| Driver.SetRadioModeStrobes | src/lib.rs:675-703 | `set_radio_mode` issues no strobe but SIDLE and then the mode's own, in that order; it succeeds only after issuing both, its last MARCSTATE read showing IDLE, SLEEP, MANCAL, TX or RX as the mode asks |
| Driver.IdlePart | src/lib.rs:677-680 | the Idle arm issues exactly SIDLE and, on success, has last seen IDLE |
| Driver.OtherModeStrobes | src/lib.rs:681-702 | once the Idle part succeeded, every other mode adds exactly its own strobe and, on success, has last seen its state |
| Driver.ModeStrobesAfterIdle | src/lib.rs:681-702 | SIDLE followed by the mode's own strobe is exactly the strobe list of that mode, and extends what went before |
| Driver.SetRadioModeAfterIdle | src/lib.rs:681-702 | once the Idle part succeeded, every other mode is its own strobe followed by the wait for its state |
| Driver.RxBytesAvailable | src/lib.rs:705-718 | `rx_bytes_available`, with a fuel bound on its polls; what it promises is carried by Driver.RxBytesAvailableAgrees and Receiver.AvailableNoStrobe |
| Driver.RxBytesAvailableAgrees | src/lib.rs:705-718 | `rx_bytes_available` returns only a count above zero that two RXBYTES reads in a row showed, each without the overflow flag |
| Polls.Reads | src/lib.rs:643-648 | `n` polls add exactly `n` copies of the poll frame |
| Polls.ReadsNoStrobe | src/lib.rs:643-648 | any number of polls of a frame that is no strobe issue no strobe at all |
| Polls.ReadsIssueNoStrobe | src/lib.rs:643-648 | polls whose frame is no strobe add no strobe, however many |
| Polls.PollsIssueNoStrobe | src/lib.rs:643-648 | a trace that only adds such polls issues the strobes it started with |
| Polls.PollAtIsPoll | src/lib.rs:643-648 | the k-th poll of a loop is the poll on the trace the k earlier polls left |
| Polls.Await | src/lib.rs:642-650 | the wait only adds polls; every poll before the last returned a state other than the target, and the last returned the target (success) or an error (passed on unchanged); a timeout means every poll missed |
| Polls.AwaitStopsAtFirstHit | src/lib.rs:645-647 | the wait stops at the first poll that shows the target: with k misses before it, it succeeds after exactly k + 1 polls |
| Polls.AwaitEndsOnTarget | src/lib.rs:642-650 | a successful wait ends with a poll that returned the target |
| Polls.AwaitErrorFromPoll | src/lib.rs:644 | the wait reports no error other than its polls' errors and the model's timeout |
| Polls.AwaitIssuesNoStrobe | src/lib.rs:642-650 | a wait whose poll is no strobe issues no strobe |
| Polls.Debounce | src/lib.rs:705-718 | the debounce only adds polls; it returns only a count above zero equal to the count polled just before it, every earlier poll kept it going, and an error is passed on unchanged |
| Polls.DebounceStopsAtFirstRepeat | src/lib.rs:711-713 | the debounce stops at the first count above zero that repeats the one before it, after exactly that many polls |
| Polls.DebounceFromZero | src/lib.rs:706-717 | started from `last = 0`, the debounce returns a count only when the last two polls both showed it and it is above zero |
| Polls.DebounceIssuesNoStrobe | src/lib.rs:705-718 | a debounce whose poll is no strobe issues no strobe |
| Receiver.Receive | src/lib.rs:723-746 | `receive`, returning the length or error together with the packet `read_data` produced, which `*addr` and `buf` hold once the read succeeded; what it promises is carried by Receiver.ReceiveOutcome, Receiver.ReceiveStrobes, Receiver.ReceiveWaitFails and Receiver.ReceiveReadFails |
| Receiver.CrcOk | src/lib.rs:735 | the CRC check `(lqi >> 7) != 1` passes exactly when bit 7 of the LQI byte is set |
| Receiver.AvailableNoStrobe | src/lib.rs:705-718 | the RXBYTES polls of `receive` issue no strobe |
| Receiver.ReadPhaseNoStrobe | src/lib.rs:730 | the `read_data` call of `receive` issues no strobe |
| Receiver.LqiReadNoStrobe | src/lib.rs:732 | the LQI read of `receive` issues no strobe |
| Receiver.FlushStrobe | src/lib.rs:153-157 | `flush_rx_fifo_buffer` issues SFRX (0x3A), whatever the transport answers |
| Receiver.FlushAndCheckStrobes | src/lib.rs:733-739 | after the IDLE wait, SFRX goes out at most once, and exactly once when the CRC check is reached |
| Receiver.FinishStrobes | src/lib.rs:732-739 | after the LQI read, SFRX goes out at most once, and exactly once when the CRC check is reached |
| Receiver.ReadAndFlushStrobes | src/lib.rs:725-740 | the `Ok` arm issues SFRX at most once, exactly once when the CRC check is reached, and not at all when `read_data` fails |
| Receiver.ReceiveStrobes | src/lib.rs:723-746 | `receive` issues no strobe but SFRX, at most once: exactly once when the wait for data fails or the CRC check is reached, and never when `read_data` fails |
| Receiver.ReceiveWaitFails | src/lib.rs:741-744 | when the wait for data fails `receive` strobes SFRX and returns the wait's error, or the flush's own transport error, with no packet read |
| Receiver.ReceiveReadFails | src/lib.rs:730 | when `read_data` fails `receive` returns its error at once, with nothing more sent and no packet handed back |
| Receiver.FlushAndCheckOutcome | src/lib.rs:733-739 | after the IDLE wait, `CrcMismatch` comes exactly when the wait and the flush succeed and bit 7 of LQI is clear, success exactly when they succeed and it is set; a failed wait is passed on unchanged |
| Receiver.ProducedDefaults | src/lib.rs:726-730 | the `Some(0)` slots `receive` passes to `read_data` come back as length 0 without a length field and address 0 without an address field |
| Receiver.ReadAndFlushOutcome | src/lib.rs:730-739 | after a successful `read_data` the packet is handed back on every path; an LQI read error is returned as `Spi`; `CrcMismatch` and success follow the wait, the flush and bit 7 of LQI exactly; success returns the length |
| Receiver.ReceiveOutcome | src/lib.rs:723-740 | once `read_data` succeeded, `*addr` and `buf` hold the address (0 without an address field) and buffer it produced on every path, including `CrcMismatch` and the later wait, flush and LQI-read errors; `CrcMismatch` comes exactly when the wait and flush went through and bit 7 of LQI is clear, success exactly when it is set, returning the length (0 without a length field) |
| Errors.Lift | src/lib.rs:49-53 | a transport error becomes `Error::Spi` of it; success and the trace pass through unchanged |

## Left out

- The SPI transport (`SpiDevice`, `Operation`, `transaction`, `transfer_in_place`, `write`): it is foreign code with no visible semantics, so it is the oracle described above.
- Termination of `await_machine_state` and `rx_bytes_available`: it depends on the hardware. The loops get `fuel` polls, and every property holds for the trace up to the exit.
- Polls.Await: when the fuel runs out it returns `Timeout`, an outcome the source never produces, because the source keeps polling.
- Polls.Debounce: the same `Timeout` on running out of fuel.
- The `Display` and `std::error::Error` impls (src/lib.rs:55-80): they only format strings.
- src/hack.rs: `Deref` plumbing for an older driver API.
- src/lowlevel/mod.rs: module declarations only.
- src/traits.rs: a copy of the `OffsetSize` of src/lowlevel/traits.rs, which Traits models for both macro versions.
- Most discriminant-only enum tables are not modelled: `mod_format`, `po_timeout`, `fifo_threshold`, `target_amplitude`, and the `Modulation`, `CommandStrobe`, `TargetAmplitude` and `FilterLength` declarations of src/types.rs. They carry no behaviour.
- The enums the modelled setters write are transcribed in Settings. These are `SyncCheck`, `AddressCheck` and `LengthConfig`. `CcaMode`, `AutoCalibration`, `NumPreamble` and `GdoCfg` are also there, for their field-fit facts.
- The conversions `from_freq_if`, `from_deviation`, `from_drate`, `from_chanbw` and `to_frequency_offset` are not part of this model. They are named in src/lib.rs but their source is not among the files.
- `set_deviation` is modelled from the mantissa and exponent onward (Builders.Deviation).
- `get_est_freq_offset` is left out because it only applies `to_frequency_offset`.
- The one-line strobe wrappers (src/lib.rs:98-174) are modelled only through their opcodes, and only where the core uses them: SIDLE, SPWD, SCAL, STX, SRX and SFRX.
- `set_defaults` and `set_raw_mode` (src/lib.rs:654-672, 749-755) are application presets.
- The cached chip status `get_chip_status` (src/lib.rs:94-96) is kept up to date by a low-level revision that is not part of this model.
- The single-field setters are not modelled one by one. They are `set_gdo*_config`, `set_gdo0/2_active_state`, `temperature_sensor_enable`, `set_gdo_drive_strength`, `set_frequency`, `set_freq_if`, `set_magn_target`, `set_filter_length`, `set_autocalibration`, `set_data_rate`, `fec_enable`, `set_num_preamble`, `set_cca_mode`, `set_chanbw`, `set_modulation_format`, `crc_autoflush_enable`, `white_data_enable` and `crc_enable`. Each is one `modify_register` of one field, which is the pattern Setters.SetField models. Settings states that their values fit. `set_gdo1_active_state` is modelled in Builders for its finding.
- `new`, and the `From<MultiByte>`/`Into<Register>` impls, are left out. They are constructors and tag wrappers with no computation.
- BitField.Write: requires the value to fit the mask, as the setter's `debug_assert!` does. The release-build truncation `bits &= mask` is not modelled.
- RegisterViews.SetKeepsOtherFields: stated only for registers whose fields are disjoint as written. In the ten overlapping registers it fails (see Findings), and RegisterViews.IntendedSetKeepsOtherFields covers all of them under the corrected width.
- Convert.FromFrequency: requires `hz * 2^16 < 2^64`. Above that the source's `u64` multiplication overflows, and that path is not modelled.
- Driver.StrobeAndAwait: its own contract says only that the trace grows. Driver.StrobeThenAwait and Driver.StrobeThenAwaitShows state what it issues and what it saw.
- Driver.SetRadioMode: its own contract says only that the trace grows. Driver.SetRadioModeStrobes states the strobe sequence and the final state.
- Receiver.Receive: when `read_data` fails with a transport error inside the FIFO transaction, `buf` may already hold some bytes the transfer clocked in. The model hands back no packet then, since the transport's partial behaviour is not visible.
- Setters.SetSyncMode: its own contract gives only the number of transactions. Setters.SetSyncModeWrites states what is written.

## Findings

Each row was found by stating the natural property and proving its negation on a concrete input.

| source | as written | input that shows it | evidently intended | confidence | as-written member | corrected member |
|---|---|---|---|---|---|---|
| src/lowlevel/traits.rs:13-15 | a bare offset has `size()` 1, so the macros give every single-bit flag a two-bit mask that covers the next bit up as well; in PKTCTRL1 `append_status @ 2` overlaps `crc_autoflush @ 3`, and ten configuration registers have such an overlap | PKTCTRL1: the mask views of `append_status` and `crc_autoflush` are 0x0C and 0x18, which share bit 3 | a bare offset is one bit wide, and every register's fields are disjoint | high, not executed | Configs.FieldsOfPKTCTRL1 | Configs.IntendedFieldsOfPKTCTRL1 |
| src/lowlevel/types/packet_status.rs:28-39 | each flag is read with a two-bit mask and converted by `BoolU8`, so any byte with bit 7, 6, 5, 4, 3 or 1 set panics | PKTSTATUS 0x80 (CRC good): `cs()` reads 2 and the conversion panics | each flag is its own bit and the conversion is total | high, not executed | PacketStatuses.CrcOkPanics | PacketStatuses.DecodeReadsIntended |
| src/lib.rs:213-223 | `set_gdo1_active_state(Low)` writes `gdo1_inv @ 6` with a two-bit mask and clears `gdo1_ds` at bit 7 | IOCFG1 = 0xAE: the byte written back is 0x6E | only bit 6 changes, and 0xEE is written back | high, not executed | Builders.ActiveLowClearsDriveStrength | Builders.ActiveLowKeepsDriveStrengthAsIntended |
| src/lib.rs:403-409 | `append_status_enable` writes `append_status @ 2` with a two-bit mask and clears `crc_autoflush` at bit 3 | PKTCTRL1 = 0x0C, `enable = false`: the byte written back is 0x00 | only bit 2 changes, and 0x08 is written back | high, not executed | Builders.AppendStatusClearsAutoflush | Builders.AppendStatusKeepsAutoflushAsIntended |
| src/lib.rs:449-463 | `set_packet_length` sets `length_field` for `Variable` but never clears it, so after `Variable` a call with `Fixed` or `Infinite` leaves the flag set | `Variable(n)` then `Fixed(n)`: PKTCTRL0 bits 0..1 become 0, yet `length_field` stays true and `read_data`/`write_data` keep treating a payload byte as the length | `length_field` is true exactly for `Variable` | medium, not executed | Setters.SetPacketLengthLeavesStaleFlag | Setters.SetPacketLengthAgrees |

The first four rows share one cause: the width rule of src/lowlevel/traits.rs:13-15.
RegisterViews.IntendedSetKeepsOtherFields proves the corrected codec for every
configuration register: a setter leaves every other field unchanged. The driver
model (Setters, Driver) keeps the width rule as written, so the as-written side
effects appear in its contracts. Setters.AppendStatusEnableWrites shows the
cleared `crc_autoflush`, and Driver.GetPacketStatus shows the panic.
`set_packet_length` is modelled both ways: Setters.SetPacketLengthAsWritten and
Setters.SetPacketLength.
