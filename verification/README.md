# A model of the serialfc driver's clock, register and baud logic

Commtech's serial cards come in three families, and the driver and its small library do
three hard things for them. This project models those and proves what they promise.

* **Choosing clock dividers.** `GetICS30703Data` (FSCC cards) searches over error bounds,
  dividers and loop filters and packs five fields in 20 overlapping bytes;
  `GetICS30702Data` (Async-335 cards) keeps a best setting below and above the target and
  packs the nearer one in 21 bits. The searches are methods with the source's loops, proved
  against predicates that never mention a loop: which setting is optimal, first or absent.
* **Sending the words.** Both words go out bit by bit on three wires that are bits of a shared
  register. `Receiver` is the other end, a shift register and a latch, and the proofs are about
  what it has latched.
* **Keeping settings in registers.** Ports share registers and reach others through an index,
  a window and a bank switch. Each family has a `Card` class for what is shared and a `Port`
  class with the source's fields. `Current()` reads a port's registers as a record of settings,
  and every method is proved to do to that record what its name says, and nothing to any other
  port. `RunRequests` extends this to any interleaving of whole operations on all ports.

Files, from the bottom up: `Nonlinear`, `Words`, `Registers` (arithmetic, bytes, bit masks);
`Ics30702`; `OutputDivider`, `Ics30703`, `Ics30703Word`, `ClockBits`; `Receiver`,
`FsccSerialiser`, `PciSerialiser`; `FsccUart`, `FsccCard`; `Baud`, `PcieCard`; `PciCard`;
`EndToEnd`.

Conventions:

* A register that the driver masks is the set of its one bits (an or is a union, an and with a
  complement a difference); a register of plain values is a byte (`bv8`) or a bounded number.
* The doubles of `GetICS30703Data` are exact reals. The damping factor is compared squared.
  Casts to `int` and to unsigned are written out, and `CastsFit` proves they never overflow.
* Numbers are unbounded where the source's cannot overflow, and wrap where they can
  (`WindowHigh`, `Minus64`, the 32-bit parameter of `CalculateClockBits335`, the 20-bit latches).
* A failed call returns a status, as in the source; no precondition excludes it.

Where the code and its documentation differ, the model follows the code:

* `docs/clock-rate.md` gives 200 Hz as the low end for FSCC cards. The rules of the part leave
  nothing below 90 MHz / 8232, about 10.9 kHz; `SlowTargets` says exactly when a slower target
  still gets a (distant) answer. The high end, 270 MHz, is the documented one.
* For error bounds above 1000000 ppm the start of the VCO loop is computed from a negative
  number, and lands on the last divider instead of the first. `PruningExact` says for which
  inputs this skips a setting, `PruningLossyAboveAMillion` names one. The search still finds
  something whenever anything qualifies, and at the least bound. That it is the first setting
  feasible there holds exactly for targets of 5103 Hz and more (`FirstFeasibleExactly`); below,
  a search that ends at all ends at r 548, od 8232, v 2055 (`BelowThatTheSlowestWins`), having
  passed over r 4, v 15 of the same frequency, as at 5000 Hz (`PassedOverAt5000`).
* The divisor of a PCIe baud rate is cut to 20 bits without a check. `ReadBackExactly` says for
  which accepted rates the rate read back is still close to the one set.
* The comment on the crystal bit exempts FSCC cards with a revision greater than 6; the code
  exempts those up to 6, and so does `FsccCard.Adjusted`.
* The source sizes its waveform buffer for 323 values. The loops write 483, which is what
  `BuildWaveform` allocates and proves.
* Turning RS-485 off on channel 4 of an Async-335 card would set the echo cancel bit, and on
  higher channels reach no bit at all (`Rs485AndEchoCancel`, `Rs485DrivesTransmitter`). The
  runs are about channels 0 to 3.

## Model

| member | source | states |
|---|---|---|
| `Ics30702.Offer` | lib/raw/calculate-clock-bits.c:1064-1122 | Whatever path the loop body takes, each side takes the new setting exactly if it is no worse than what the side has and wins a tie on rdw, then vdw; otherwise the side is unchanged. |
| `Ics30702.SearchDivider` | lib/raw/calculate-clock-bits.c:1012-1132 | For one output divider, or none if it is not allowed at the rate, both sides keep the best of all settings visited so far. |
| `Ics30702.SearchAll` | lib/raw/calculate-clock-bits.c:1006-1132 | After all loops each side has the best candidate of all feasible settings: nearest frequency, then lowest rdw, highest vdw, lowest od. |
| `Ics30702.Choice` | lib/raw/calculate-clock-bits.c:1134-1179 | The comparison of distances picks a setting no feasible one is nearer than, an equal distance going to the low side, ties broken globally; it picks the error case exactly if there is nothing to find. |
| `Ics30702.Pack` | lib/raw/calculate-clock-bits.c:1149-1190 | The packed word has the code above bit 16, vdw above bit 7 and rdw below, is read back as the same od, vdw and rdw, and has 21 bits; packing fails exactly for an od without a code. |
| `Ics30702.WordsOfDividers` | lib/raw/calculate-clock-bits.c:1149-1176 | The literal word of each of the eight dividers; no other code stands for a divider. |
| `Ics30702.WordIsUnique` | lib/raw/calculate-clock-bits.c:1149-1190 | Two words of 21 bits read as one setting are the same word. |
| `Ics30702.DefaultWord` | src/serialfc.h:79-79 | The driver's default word is read as od 10, rdw 1, vdw 16. |
| `Ics30702.DefaultWordIsComputed` | src/serialfc.h:79-79 | Of all words the routine could return for 29.4912 MHz, exactly the driver's default word is optimal. |
| `Ics30702.GetICS30702Data` | lib/raw/calculate-clock-bits.c:964-1204 | For every 32-bit rate: a word if and only if some setting is inside the window or accepted on its low edge, and then a word read as an optimal setting. |
| `Ics30702.CalculateClockBits335` | lib/raw/calculate-clock-bits.c:138-148 | The same for an unsigned long frequency, cut to 32 bits. |
| `Ics30702.SolvableExactly` | lib/raw/calculate-clock-bits.c:1006-1179 | Of all 32-bit rates there is a word for exactly those from 5455547 Hz to 180 MHz. |
| `Ics30702.FeasibleExactly` | lib/raw/calculate-clock-bits.c:1014-1064 | Exactly which settings are considered, in whole numbers: the dividers and words, rate times od up to 360 MHz (50 MHz for od 7), the VCO from 60000001 Hz to below 360 MHz, rdw up to 90. |
| `Ics30702.ChosenInRange` | lib/raw/calculate-clock-bits.c:1060-1064 | Every setting considered runs the VCO strictly between 60 and 360 MHz and the phase detector above 200 kHz, in exact arithmetic. |
| `Ics30702.InRangeIsConsidered` | lib/raw/calculate-clock-bits.c:1060-1064 | Conversely, whatever runs them there with 1 Hz to spare is considered. |
| `Ics30702.CheckExactly` | lib/raw/calculate-clock-bits.c:1059-1059 | The frequency computed is vdw + 8 times the greatest m with m (rdw + 2) od up to 36864000. |
| `Ics30702.DocumentedRangeSucceeds` | docs/clock-rate.md:20-20 | From 6 MHz to 180 MHz there always is a word, less than 460800 Hz off up to 36 MHz and less than 2304000 Hz above. |
| `Ics30702.TruncationBound` | lib/raw/calculate-clock-bits.c:1059-1059 | The computed frequency is at most the exact one and less than vdw + 8 below it. |
| `Ics30702.ExactNearlyOptimal` | lib/raw/calculate-clock-bits.c:1059-1148 | The exact frequency chosen misses the rate by less than any other feasible exact frequency does, plus 1038 Hz. |
| `OutputDivider.StrideMatchesEncoder` | lib/raw/calculate-clock-bits.c:210-429 | The search visits an output divider if and only if the encoder can encode it. |
| `Ics30703.FindFilter` | lib/raw/calculate-clock-bits.c:268-419 | The first resistor and current, in table order, that meet the ratio and damping rules, or the end of the tables; `FilterExactly` says which those are. |
| `Ics30703.FilterExactly` | lib/raw/calculate-clock-bits.c:380-403 | The loop filter test, root and rounding included, is two double inequalities of whole numbers in r, v, resistor and current. |
| `Ics30703.DampingFactor` | lib/raw/calculate-clock-bits.c:399-403 | The damping factor itself, the root, is between 0.2 and 2 if and only if the whole-number inequality holds. |
| `Ics30703.FeasibleExactly` | lib/raw/calculate-clock-bits.c:196-443 | A setting is accepted at a bound if and only if it is on the grid and meets every rule and the bound, all in whole numbers: VCO from 90 MHz to the limit of its divider, r up to 1200, filter, error. |
| `Ics30703.TablesInOrder` | lib/raw/calculate-clock-bits.c:268-378 | The tables run from the greatest resistor down and from the least current up. |
| `Ics30703.SearchCell` | lib/raw/calculate-clock-bits.c:213-421 | The loop over v returns the first setting of its r and od that meets every rule and is not below the start, or none if there is none. |
| `Ics30703.SearchRow` | lib/raw/calculate-clock-bits.c:210-431 | The descent over od returns the first such setting of its r. |
| `Ics30703.SearchAtBound` | lib/raw/calculate-clock-bits.c:201-432 | The loop over r returns the first such setting of all. |
| `Ics30703.PruningExact` | lib/raw/calculate-clock-bits.c:214-222 | The start of the v loop skips no v that meets the error bound if and only if it is computed from more than -1, or the least v already overshoots the window. |
| `Ics30703.PruningLossless` | lib/raw/calculate-clock-bits.c:213-266 | Up to 1000000 ppm every feasible setting is one the loops reach. |
| `Ics30703.PruningLossyAboveAMillion` | lib/raw/calculate-clock-bits.c:214-222 | At 5000 Hz and 1186589 ppm the setting r 4, od 8232, v 15 is feasible and the loop starts at v 2055. |
| `Ics30703.SearchComplete` | lib/raw/calculate-clock-bits.c:196-443 | For every bound, whenever something is feasible the loops reach something feasible. |
| `Ics30703.FeasibleGrows` | lib/raw/calculate-clock-bits.c:199-266 | What is feasible at a bound is feasible at every larger one. |
| `Ics30703.CastsFit` | lib/raw/calculate-clock-bits.c:214-214 | For every 32-bit target the cast of the start to int is in range at every bound the search gets to. |
| `Ics30703.FrequencyEnvelope` | docs/clock-rate.md:19-19 | Every feasible frequency is at least 90 MHz / 8232 and at most 270 MHz. |
| `Ics30703.SlowTargets` | docs/clock-rate.md:19-19 | A target of at most 10932 Hz can be met at a bound if and only if target plus bound reaches 90 MHz / 8232. |
| `Ics30703.MillionSuffices` | lib/raw/calculate-clock-bits.c:196-443 | Something is feasible at 1000000 ppm if and only if the target is at least 5467 Hz. |
| `Ics30703.FirstFeasibleExactly` | lib/raw/calculate-clock-bits.c:196-443 | The setting found comes before every other feasible one at its bound (least r, greatest od, least v, first filter) if and only if the target is at least 5103 Hz; the bound is within 1000000 ppm if and only if it is at least 5467 Hz. |
| `Ics30703.FirstMeans` | lib/raw/calculate-clock-bits.c:196-443 | From 5103 Hz up the setting found has, among all feasible at its bound, the least r; then the greatest od; then the least v; then the greatest resistor; then the least current. |
| `Ics30703.BelowThatTheSlowestWins` | lib/raw/calculate-clock-bits.c:196-443 | Below 5103 Hz the only setting ever found is r 548, od 8232, v 2055 with the first filter of the tables. |
| `Ics30703.PassedOverAt5000` | lib/raw/calculate-clock-bits.c:196-443 | At 5000 Hz, with 1186589 ppm or more allowed, the search ends at 1186589 ppm and that setting, which is not the first feasible one. |
| `Ics30703.ErrorTestWhole` | lib/raw/calculate-clock-bits.c:259-266 | The error test is the whole-number inequality 1e6 times the miss of 24e6 v against f r od is at most ppm f r od. |
| `Ics30703.Solve` | lib/raw/calculate-clock-bits.c:150-443 | No solution if and only if nothing is feasible at the requested bound; otherwise the least bound anything meets, and up to 1000000 ppm the first feasible setting there by r, od downwards, v, filter; `FeasibleExactly` says what feasible means. |
| `Ics30703Word.EncodeInputDivider` | lib/raw/calculate-clock-bits.c:564-606 | Bytes 0 and 1 read back r in all three layouts; the error case exactly outside 1 to 2055. |
| `Ics30703Word.EncodeVcoDivider` | lib/raw/calculate-clock-bits.c:608-618 | Bytes 1 and 2 read back v, and byte 1 still reads back r. |
| `Ics30703Word.EncodeResistor` | lib/raw/calculate-clock-bits.c:620-640 | Byte 11 reads back the resistor. |
| `Ics30703Word.EncodeCurrent` | lib/raw/calculate-clock-bits.c:643-782 | Bytes 11, 15 and 16 read back each of the twenty currents as 125 (8 - b) (1 + s + 2 t), and byte 11 still reads back the resistor. |
| `Ics30703Word.FindForm` | lib/raw/calculate-clock-bits.c:860-952 | The first X, with Y and Z, whose formula gives the divider, or none if none does. |
| `Ics30703Word.EncodeOutputDivider` | lib/raw/calculate-clock-bits.c:785-962 | Bytes 11 to 13 read back the divider if and only if it is one the search visits, keep every bit of the other tables and of the outputs, and have the one layout for it: the least X of the formula, and unused bits at zero. |
| `Ics30703Word.EncodeTables` | lib/raw/calculate-clock-bits.c:552-969 | The status is 0 if and only if every table has bits for its field; all five fields read back despite the shared bytes. |
| `Ics30703Word.EncodeWord` | lib/raw/calculate-clock-bits.c:523-969 | The 20 bytes in the caller's array decode to the fields; the bits of no table are the fixed ones (CLK1 alone on, power up, crystal) and the bits a layout leaves over are zero. |
| `Ics30703Word.WordIsUnique` | lib/raw/calculate-clock-bits.c:523-969 | There is exactly one such word for each set of fields and clock source: the fields determine all 160 bits. |
| `Ics30703Word.EncodeDefault` | src/serialfc.h:80-84 | Encoding r 75, v 1843, od 32, 64000 ohms and 6.25 uA gives the driver's 18 MHz word byte for byte. |
| `Ics30703Word.ReadExactly` | lib/raw/calculate-clock-bits.c:552-962 | The decoder's bit operations read the fields as quotients and remainders of the bytes. |
| `Ics30703Word.CurrentsAreProducts` | lib/raw/calculate-clock-bits.c:643-782 | The twenty currents are exactly one to eight steps of 1.25 uA, once to four times. |
| `Ics30703Word.DefaultWord` | src/serialfc.h:80-84 | The driver's 18 MHz word is read as r 75, v 1843, od 32, 64000 ohms, 6.25 uA. |
| `Ics30703Word.CrystalIsNoField` | src/utils.c:1057-1068 | The driver's change of the crystal bit changes no field. |
| `Ics30703Word.CrystalKeepsWord` | src/utils.c:1057-1068 | It leaves the encoder's word as it was but for the clock source. |
| `ClockBits.FoundIsEncodable` | lib/raw/calculate-clock-bits.c:552-962 | Whatever the search can find, every table has bits for. |
| `ClockBits.GetICS30703Data` | lib/raw/calculate-clock-bits.c:150-971 | Only the returns 0 and 2 ever happen; 2 if and only if nothing is feasible at the requested bound, and with 0 the word is the one for a solution of least error. |
| `ClockBits.CalculateClockBits` | lib/raw/calculate-clock-bits.c:53-136 | 0 with such a word, or 1 with the caller's bytes untouched. |
| `ClockBits.WordMeetsBound` | lib/raw/calculate-clock-bits.c:53-136 | The decoded dividers meet the requested ppm. |
| `ClockBits.WordMeetsRules` | lib/raw/calculate-clock-bits.c:196-443 | The decoded fields keep the rules of VCO, reference and loop filter, in whole numbers. |
| `FsccSerialiser.WireMasks` | src/utils.c:1035-1080 | The wires are masks 0x1, 0x2 and 0x8 of the register, or those shifted by 8 for channel 1. |
| `FsccSerialiser.SentInOrder` | src/utils.c:1084-1087 | The k-th bit sent is bit 7 - k % 8 of byte 19 - k / 8. |
| `FsccSerialiser.WordRebuilt` | src/utils.c:1084-1087 | The 160 bits in the order sent give back the 20 bytes. |
| `FsccSerialiser.BuildWaveform` | src/utils.c:1071-1112 | The loops fill 483 values: the base, three for each bit from byte 19 down, the strobe, the register as it was. |
| `FsccSerialiser.WaveformProgramsChip` | src/utils.c:1082-1111 | For any register value and chip, up to the strobe the channel's chip sees one clock per bit and one strobe, and latches the bits. |
| `FsccSerialiser.WaveformWhole` | src/utils.c:1082-1114 | Restoring the register adds no strobe, and leaves the chip so programmed if its clock line was low to begin with. |
| `FsccSerialiser.WaveformTouchesOnlyWires` | src/utils.c:1082-1114 | Bits outside 0x0f0f are constant in all values, and the last value is the original register. |
| `FsccSerialiser.WaveformAndOtherChip` | src/utils.c:1082-1114 | The other channel's chip does not move if and only if its clock and strobe lines were low. |
| `PciSerialiser.WireMasks` | src/utils.c:1126-1128 | The wires are masks 0x01, 0x02 and 0x04 of the register. |
| `PciSerialiser.SentInOrder` | src/utils.c:1138-1161 | The k-th bit sent is bit 23 - k of the word. |
| `PciSerialiser.WordRebuilt` | src/utils.c:1138-1161 | The 24 bits in the order sent give back the low 24 bits of the word. |
| `PciSerialiser.BitsShiftIn` | src/utils.c:1142-1162 | The chip takes in every bit, or every bit but the first if the clock line was high on entry. |
| `PciSerialiser.WaveformProgramsChip` | src/utils.c:1138-1175 | With the strobe line low on entry there is one strobe; the chip latches the bits if and only if the clock line was low on entry or the lost bit happens to be the one in its place. |
| `FsccUart.WindowNeedsLcr` | src/utils.c:198-204 | While LCR is 0xbf an indexed access reaches neither index nor file, which is why every one clears LCR first. |
| `FsccUart.WindowNeedsAcr` | src/utils.c:321-334 | Otherwise a write reaches the indexed register, and a read does if and only if ACR bit 6 is set. |
| `FsccUart.ModeReadBack` | src/utils.c:648-765 | Each of the twelve clock modes is read back as set. |
| `FsccUart.ModesAsDocumented` | docs/isochronous.md:14-26 | CKS selects for each mode the receive and transmit clocks the documentation lists, and sets no other bit. |
| `FsccUart.MaskMatchesClocks` | src/utils.c:648-698 | The interrupt mask written with a mode covers DSR# exactly if it is the receive clock, RI# exactly if it is the transmit clock, and nothing else. |
| `FsccUart.CountReadBack` | src/utils.c:1310-1346 | Each transmit count from 0 to 8191 is read back as set. |
| `FsccUart.CountEnables` | src/utils.c:1310-1328 | The enable bit is set exactly for a count other than 0, which leaves the whole byte 0. |
| `FsccCard.RecordedRegisters` | src/serialfc.h:93-106 | The record by register number: sample rate 0x02, clock mode 0x03, trigger levels 0x04 and 0x05, transmit count 0x17 and 0x16, frame length 0x20. |
| `FsccCard.RecordedMasks` | src/utils.c:521-1613 | And by mask of the shared register: echo cancel 0x00010000 and 0x00100000, rs485 0x00040000 and 0x00400000, async 0x01000000 and 0x02000000. |
| `FsccCard.SentIsAdjusted` | src/utils.c:1057-1068 | Of the bytes given, the chip has bit 2 of byte 15 clear if and only if the card is an FSCC card (0x0f) up to revision 6 or a 232 card (0x16), and all other bits as given. |
| `FsccCard.Card.WriteFcrRep` | src/utils.c:1114-1114 | A row of writes runs both chips through their wires' levels. |
| `FsccCard.Port.constructor` | src/port.c:101-124 | From any reset state: the defaults in every setting, the driver's ACR copy right, the window closed, LCR at 0xbf, the interrupt mask that of the clock mode, the other channel untouched. |
| `FsccCard.Port.InitTriggers` | src/utils.c:1552-1567 | Enhanced mode is on, the ACR copy is 0, the register file is untouched. |
| `FsccCard.Port.WriteIndexed` | src/utils.c:198-204 | An indexed write changes one byte of the file and the index, and puts LCR back whatever it was. |
| `FsccCard.Port.ReadIndexed` | src/utils.c:321-334 | An indexed read returns the register and changes only the index: window closed again, ACR and LCR as before. |
| `FsccCard.Port.SetSampleRate` | src/utils.c:191-239 | 4 to 16 is set in register and cache, and nothing else; otherwise nothing changes. |
| `FsccCard.Port.SetTxTrigger` | src/utils.c:266-314 | 0 to 127 is set, and nothing else; otherwise nothing changes. |
| `FsccCard.Port.SetRxTrigger` | src/utils.c:376-425 | 0 to 127 is set, and nothing else; otherwise nothing changes. |
| `FsccCard.Port.SetRs485` | src/utils.c:509-547 | The setting, as ACR, its copy and the channel's bit of the shared register, and nothing else: every other byte of the file and register outside it is as before. |
| `FsccCard.Port.SetIsochronous` | src/utils.c:635-703 | The mode with the interrupt mask that goes with it, and nothing else; out of range nothing changes. |
| `FsccCard.Port.SetExternalTransmit` | src/utils.c:1299-1328 | The count, bit 7 of EXTH set exactly for a count other than 0; above 8191 nothing changes. |
| `FsccCard.Port.SetFrameLength` | src/utils.c:1397-1419 | 1 to 256 on firmware from 0x20 up; otherwise the matching error, and nothing changes. |
| `FsccCard.Port.SetAsync` | src/utils.c:1579-1613 | The channel's bit of the shared register, and no chip moves. |
| `FsccCard.Port.SetEchoCancel` | src/utils.c:914-940 | The channel's bit of the shared register, and no chip moves. |
| `FsccCard.Port.SetClockBits` | src/utils.c:1039-1119 | The channel's chip latches the bytes given, with bit 2 of byte 15 clear if and only if the revision is 0x0f up to 6 or 0x16; the other chip and the register are as before. |
| `FsccCard.Port.GetTxTrigger` | src/utils.c:316-335 | The setting, with no setting changed. |
| `FsccCard.Port.GetRxTrigger` | src/utils.c:427-446 | The setting, with no setting changed. |
| `FsccCard.Port.GetIsochronous` | src/utils.c:705-774 | The setting, with no setting changed. |
| `FsccCard.Port.GetExternalTransmit` | src/utils.c:1330-1352 | The setting, with no setting changed. |
| `FsccCard.Port.GetFrameLength` | src/utils.c:1421-1448 | The setting, or the error on old firmware, with no setting changed. |
| `FsccCard.Port.GetRs485` | src/utils.c:582-606 | The setting. |
| `FsccCard.Port.Get` | src/utils.c:316-1448 | Any getter there is returns its field of the record and changes no setting. |
| `FsccCard.Port.Execute` | src/utils.c:191-1613 | Any operation does to the port's record what the record says, keeps the interrupt mask and the transmit enable bit in step with it, and leaves the other channel's bits and chip and all registers outside the file alone. |
| `FsccCard.LastSetWins` | src/utils.c:191-1613 | After any run over both channels a setting has the value it was last successfully set to, whatever came in between or after. |
| `FsccCard.NeverSetKeeps` | src/utils.c:191-1613 | A setting no request of the run sets keeps the value it had. |
| `FsccCard.RunRequests` | src/utils.c:191-1613 | After any interleaving on both ports each record is as if its channel's operations had run alone; ACR copies and windows are intact, all registers outside the file, LCR among them, unchanged; the interrupt mask is that of the recorded clock mode, and the transmit enable bit agrees with the recorded count once any count was set. |
| `FsccCard.BringUp` | src/port.c:101-124 | Both ports come up with the defaults, the second leaving the first as it is. |
| `FsccCard.ReadAfterRun` | src/port.c:101-124 | From reset through initialisation and any run on both channels to a getter: it returns what the setting was last successfully set to, or the default if it never was. |
| `Baud.AcceptedExactly` | src/utils.c:1239-1240 | A rate is accepted if and only if rate times sample rate is at most 125 MHz, which is when its divisor is at least 16. |
| `Baud.DivisorExactly` | src/utils.c:1246-1246 | The divisor is the greatest d with d times rate times sample rate up to 2000000000. |
| `Baud.ReadBack` | src/utils.c:1229-1291 | The rate read back is not below the one set, exceeds it by less than rate / divisor, and is the least any divisor reads back that is not below. |
| `Baud.SetGetSet` | src/utils.c:1239-1286 | Setting the rate read back computes the same divisor. |
| `Baud.ReadBackAccepted` | src/utils.c:1239-1286 | An accepted rate has a divisor of at least 16 and reads back a rate that is accepted. |
| `Baud.DivisorFits` | src/utils.c:1246-1253 | The 20 bits of the latches hold the divisor if and only if rate times sample rate is at least 1908. |
| `Baud.NeverZero` | src/utils.c:1239-1258 | For the sample rates 4, 8 and 16 no accepted rate leaves a divisor of 0 in the latches. |
| `Baud.WrappedIsFar` | src/utils.c:1246-1286 | A divisor that lost its upper bits reads back a rate that misses by at least rate / divisor. |
| `Baud.ReadBackExactly` | src/utils.c:1229-1291 | Of the accepted rates, the one read back is not below the one set and less than rate / divisor above it if and only if rate times sample rate is at least 1908. |
| `Baud.TooSlowWraps` | src/utils.c:1239-1286 | An instance below that: 119 at sample rate 16 is accepted and reads back as 67787. |
| `PcieCard.Port.constructor` | src/port.c:101-120 | From any reset state the defaults, with no other channel's shared bits changed. |
| `PcieCard.RecordedMasks` | src/utils.c:488-912 | The record by mask: rs485 0x20 of FCTR, and 1 shifted by the channel in the shared registers. |
| `PcieCard.Port.SetRs485` | src/utils.c:488-507 | The setting in mask 0x04 of MCR and 0x20 of FCTR, and nothing else. |
| `PcieCard.Port.SetSampleRate` | src/utils.c:154-239 | 4, 8 or 16: exactly one sampling mode, equal to the cache; otherwise nothing changes. |
| `PcieCard.Port.SetTermination` | src/utils.c:819-832 | The channel's active-low bit, and nothing else. |
| `PcieCard.Port.SetEchoCancel` | src/utils.c:900-912 | The channel's bit, and nothing else. |
| `PcieCard.Port.SetBaudRate` | src/utils.c:1229-1263 | Accepted if and only if rate times sample rate is at most 125000000; the divisor modulo 2^20 is latched and never 0, LCR and the high half of DLD are kept. |
| `PcieCard.Port.GetBaudRate` | src/utils.c:1265-1291 | The rate of the latched divisor, with no register changed. |
| `PcieCard.Port.SetAndGetBaudRate` | src/utils.c:1229-1291 | On the machine, for every accepted rate: the read-back bounds hold if and only if rate times sample rate is at least 1908, and then the rate read back is the nearest from above, is accepted and has the latched divisor. |
| `PcieCard.Port.SetGetSetBaudRate` | src/utils.c:1229-1291 | Set, get, set leaves the settings the first set left. |
| `PcieCard.DivisorStaysUsable` | src/utils.c:1229-1291 | Whatever is set after a divisor other than 0 was latched, there still is one, so that the getter never divides by 0. |
| `PcieCard.RunRequests` | src/utils.c:154-1263 | After any interleaving on up to eight ports each record is as if its channel's operations had run alone; no channel is in two sampling modes and each is in the cached one. |
| `PcieCard.BringUp` | src/port.c:101-120 | Up to eight ports come up with the defaults. |
| `PciCard.MpioMasks` | src/utils.c:467-898 | The transmitter's mask is 0x8 shifted by the channel, cut to a byte; echo cancel's is 0x80. |
| `PciCard.Rs485AndEchoCancel` | src/utils.c:467-486 | The rs485 set of a channel never changes the echo cancel bit if and only if it is not channel 4. |
| `PciCard.Rs485DrivesTransmitter` | src/utils.c:467-486 | On and off differ in the shared register if and only if the channel is at most 4. |
| `PciCard.Card.SetClockBits` | src/utils.c:1130-1178 | From low clock lines the chip is programmed with the low 24 bits, by one strobe, and the register is restored. |
| `PciCard.Port.constructor` | src/port.c:101-121 | The defaults, the default clock word in the chip, no other channel's bits changed. |
| `PciCard.Port.SetRs485` | src/utils.c:467-486 | UART bit and transmitter bit together, and nothing else. |
| `PciCard.Port.SetEchoCancel` | src/utils.c:886-898 | The board-wide bit, and nothing else. |
| `PciCard.Port.SetSampleRate` | src/utils.c:127-239 | 8 or 16 in register and cache; otherwise nothing changes. |
| `PciCard.RunRequests` | src/utils.c:127-1178 | After any interleaving on up to four ports the port records and the board record are as replayed, and clock and strobe are low again. |
| `PciCard.BringUp` | src/port.c:101-121 | Up to four ports come up with the defaults and the default clock word. |
| `EndToEnd.SentIsRead` | src/utils.c:1057-1114 | A word survives the crystal adjustment, the wires and the latch with all its fields. |
| `EndToEnd.ProgramFsccClock` | src/utils.c:1039-1119 | From frequency to latch: the chip ends up with the one word for dividers of least error within ppm, in the ranges of the part, and the clock source of the card's revision, if there are any; nothing is sent otherwise. |
| `EndToEnd.ProgramPciClock` | src/utils.c:1130-1178 | From frequency to latch: from 5455547 Hz to 180 MHz the chip ends up with an optimal setting, and otherwise nothing is sent. |
| `EndToEnd.ProgramDocumentedPciClock` | docs/clock-rate.md:20-20 | From 6 MHz to 180 MHz the chip always ends up with a setting within a tenth of the target. |

## Left out

- Rounding of doubles in `GetICS30703Data`: the reals are exact, so a boundary the doubles miss by rounding is decided exactly here.
- Frequencies of 2^32 Hz and more for the FSCC search, where the cast of the start could overflow; the documented range ends at 270 MHz.
- The names, tables of printed text and unused results of the solvers (`errorPPM`, `clk1`, the debug output).
- Kernel plumbing: probing, device files, sysfs, user copies, allocation and its failure (`kmalloc` returning null), mapping and lists.
- Device timing and unlocked concurrent read-modify-write: operations are atomic and the hardware is passive but for the two chips.
- The dispatch on the card type, 9-bit mode and `fastcom_set_clock_rate`, which only select or refuse.
- The chips beyond shifting and latching: that they produce the frequency their fields ask for is not part of this model.
- Reset values: the runs start from any register contents, but for clock and strobe lines that must be low on the shared register.
- PcieCard.Port.SetBaudRate: requires a rate other than 0, by which the source divides.
- PcieCard.Port.GetBaudRate: requires a divisor other than 0 in the latches, by which the source divides; every accepted set leaves one (`NeverZero`).
- FsccCard channels above 1, for which the source's masks are 0; PciCard channels above 3, whose rs485 bits are discussed above.
