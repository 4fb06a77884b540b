// From a requested frequency to what the clock chip has latched.

module EndToEnd {

  import ClockBits
  import FsccCard
  import FsccSerialiser
  import Ics30702
  import Ics30703
  import Ics30703Word
  import PciCard
  import PciSerialiser

  /** What a 160-bit latch tells the chip. */
  function Latched(chip: seq<bool>): Ics30703Word.Fields
    requires |chip| == 160
  {
    Ics30703Word.Decode(FsccSerialiser.BytesOf(chip))
  }

  /** The word survives the crystal adjustment, the wires and the latch. */
  lemma SentIsRead(word: seq<bv8>, crystal: bool)
    requires |word| == 20
    ensures Latched(FsccSerialiser.BitsOf(Ics30703Word.WithCrystal(word, crystal))) == Ics30703Word.Decode(word)
  {
    hide Ics30703Word.Decode, FsccSerialiser.BitsOf;
    hide FsccSerialiser.BytesOf;
    Ics30703Word.CrystalIsNoField(word, crystal);
    FsccSerialiser.WordRebuilt(Ics30703Word.WithCrystal(word, crystal));
  }

  /** VCO, reference and loop filter are in their ranges. */
  predicate KeepsRules(f: Ics30703Word.Fields) {
    Ics30703.RulesWhole(f.r, f.od, f.v, f.resistor, f.current)
  }

  /** All cards but FSCC cards up to board revision 6 and 232 cards. */
  predicate RunsOffCrystal(r: FsccCard.Revision) {
    r.pdev != 0x16 && (r.pdev != 0x0f || r.prev >= 7)
  }

  lemma SentIsComplete(word: seq<bv8>, r: FsccCard.Revision)
    requires Ics30703Word.Complete(word, true)
    ensures Ics30703Word.Complete(
      FsccSerialiser.BytesOf(FsccSerialiser.BitsOf(Ics30703Word.WithCrystal(word, FsccCard.NeedsCrystal(r)))),
      RunsOffCrystal(r))
  {
    hide Ics30703Word.FixedBits, Ics30703Word.Plain, FsccSerialiser.BitsOf, FsccSerialiser.BytesOf;
    hide Ics30703Word.WithCrystal;
    Ics30703Word.CrystalKeepsWord(word, RunsOffCrystal(r));
    FsccSerialiser.WordRebuilt(Ics30703Word.WithCrystal(word, RunsOffCrystal(r)));
  }

  lemma WordFacts(word: seq<bv8>, freq: nat, ppm: nat, solution: Ics30703.Option<Ics30703.Solution>)
    requires ClockBits.Programs(word, freq, ppm, solution)
    ensures |word| == 20 && solution.Some? && Ics30703.LeastError(freq, ppm, solution)
    ensures Ics30703.InDomain(solution.value.candidate)
    ensures solution.value.candidate.rs < 4 && solution.value.candidate.icp < 20
    ensures var f := Ics30703Word.Decode(word);
      && f == ClockBits.FieldsOf(solution.value.candidate) && Ics30703.WithinErrorWhole(freq, ppm, f.r, f.od, f.v)
      && KeepsRules(f)
    ensures Ics30703Word.Complete(word, true)
  {
    hide Ics30703Word.Decode, Ics30703.LeastError, Ics30703.WithinErrorWhole, ClockBits.FieldsOf;
    hide Ics30703.RulesWhole, Ics30703Word.Complete;
    ClockBits.WordMeetsBound(word, freq, ppm, solution);
    ClockBits.WordMeetsRules(word, freq, ppm, solution);
  }

  /**
   * Calculate a word for a frequency and send it.  If there is one, the channel's chip
   * ends up with dividers within ppm of the target, at the least error any dividers
   * have; otherwise nothing is sent.  Only this channel's clock setting changes.
   */
  method ProgramFsccClock(port: FsccCard.Port, freq: nat, ppm: nat)
    returns (status: nat, ghost solution: Ics30703.Option<Ics30703.Solution>)
    requires port.Valid() && freq < 0x1_0000_0000
    modifies port.card
    ensures port.Valid()
    ensures status in {0, 1} && (status == 1 <==> Ics30703.Unreachable(freq, ppm))
    ensures status == 1 ==> port.Current() == old(port.Current()) && port.card.chips == old(port.card.chips)
    ensures status == 0 ==>
      var clock := port.Current().clock;
      && port.Current() == old(port.Current()).(clock := clock) && |clock| == 160
      && solution.Some? && Ics30703.LeastError(freq, ppm, solution)
      && Ics30703.InDomain(solution.value.candidate)
      && Latched(clock) == ClockBits.FieldsOf(solution.value.candidate)
      && Ics30703.WithinErrorWhole(freq, ppm, Latched(clock).r, Latched(clock).od, Latched(clock).v)
      && KeepsRules(Latched(clock))
      && Ics30703Word.Complete(FsccSerialiser.BytesOf(clock), RunsOffCrystal(port.card.revision[port.channel]))
    ensures port.card.fcr == old(port.card.fcr)
    ensures port.card.chips[1 - port.channel] == old(port.card.chips[1 - port.channel])
  {
    hide Ics30703Word.Decode, Ics30703Word.WithCrystal, FsccCard.Recorded, FsccSerialiser.BitsOf;
    hide FsccSerialiser.BytesOf;
    hide Ics30703.LeastError, Ics30703.WithinErrorWhole, Ics30703.Unreachable, Ics30703.InDomain;
    hide Latched, ClockBits.Programs, Ics30703Word.Complete, KeepsRules, RunsOffCrystal, FsccCard.Adjusted;
    hide FsccCard.NeedsCrystal;
    var bits := new bv8[20](_ => 0);
    status, solution := ClockBits.CalculateClockBits(freq, ppm, bits);
    if status == 0 {
      ghost var word := bits[..];
      WordFacts(word, freq, ppm, solution);
      SentIsComplete(word, port.card.revision[port.channel]);
      SentIsRead(word, FsccCard.NeedsCrystal(port.card.revision[port.channel]));
      port.SetClockBits(bits);
    }
  }

  // ---------------------------------------------------------------- the Async-335 path

  /** What a 24-bit latch tells the chip. */
  function LatchedTriple(chip: seq<bool>): Ics30702.Triple {
    Ics30702.Unpack(PciSerialiser.ValueOf(chip))
  }

  /**
   * Calculate a word for a frequency and send it.  If there is one, the chip ends up with
   * an optimal triple; otherwise nothing is sent.
   */
  method ProgramPciClock(port: PciCard.Port, freq: nat) returns (ok: bool)
    requires port.Valid() && freq < 0x1_0000_0000_0000_0000
    modifies port.card
    ensures port.Valid() && port.Current() == old(port.Current()) && port.card.mpioLvl == old(port.card.mpioLvl)
    ensures ok <==> 5455547 <= freq % 0x1_0000_0000 <= 180000000
    ensures !ok ==> port.card.chip == old(port.card.chip)
    ensures ok ==> Ics30702.Optimal(freq % 0x1_0000_0000, LatchedTriple(port.card.chip.latched))
  {
    hide Ics30702.Solvable, Ics30702.Optimal, Ics30702.Unpack, PciSerialiser.BitsOf, PciSerialiser.ValueOf;
    Ics30702.SolvableExactly(freq % 0x1_0000_0000);
    var outcome := Ics30702.CalculateClockBits335(freq);
    ok := outcome.Programmed?;
    if ok {
      port.SetClockBits(outcome.word);
    }
  }

  /** In the documented range there always is one, and it is near. */
  method ProgramDocumentedPciClock(port: PciCard.Port, freq: nat)
    requires port.Valid() && 6000000 <= freq <= 180000000
    modifies port.card
    ensures port.Valid() && port.Current() == old(port.Current())
    ensures var t := LatchedTriple(port.card.chip.latched);
      Ics30702.Feasible(freq, t) && Ics30702.Distance(freq, t) < Ics30702.WorstDistance(freq) <= freq / 10
  {
    hide LatchedTriple, Ics30702.Feasible, Ics30702.Distance, Ics30702.Solvable;
    Ics30702.DocumentedRangeSucceeds(freq);
    var ok := ProgramPciClock(port, freq);
    assert Ics30702.Optimal(freq, LatchedTriple(port.card.chip.latched));
  }
}
