// From a frequency to a programming word for the ICS307-03: GetICS30703Data as a whole,
// and calculate_clock_bits.

module ClockBits {

  import opened Ics30703
  import Ics30703Word
  import OutputDivider

  /** What the encoder is given for a candidate. */
  function FieldsOf(c: Candidate): Ics30703Word.Fields
    requires c.rs < 4 && c.icp < 20
  {
    Ics30703Word.Fields(c.r, c.v, c.od, Resistor(c.rs), Current(c.icp))
  }

  lemma TableEntries(i: nat, j: nat)
    requires i < 4 && j < 20
    ensures Resistor(i) in {64000, 52000, 16000, 4000} && Current(j) in Ics30703Word.CURRENTS
  {
  }

  /** Whatever the search finds, the encoder has bits for. */
  lemma FoundIsEncodable(c: Candidate)
    requires InDomain(c)
    ensures Ics30703Word.InTables(FieldsOf(c)) && OutputDivider.OnGrid(c.od)
  {
    hide OutputDivider.OnGrid;
    OutputDivider.AtLeastTwo(c.od);
    TableEntries(c.rs, c.icp);
  }

  /** The word a chip reads as an optimal solution for the target, and the one word the encoder has for it. */
  ghost predicate Programs(word: seq<bv8>, desired: nat, requestedPpm: nat, solution: Option<Solution>) {
    && |word| == 20
    && solution.Some?
    && LeastError(desired, requestedPpm, solution)
    && InDomain(solution.value.candidate)
    && Ics30703Word.Decode(word) == FieldsOf(solution.value.candidate)
    && Ics30703Word.Complete(word, true)
  }

  lemma FeasibleInDomain(desired: nat, ppm: nat, c: Candidate)
    requires Feasible(desired, ppm, c)
    ensures InDomain(c)
  {
    hide WithinError, FilterOk, VcoInRange, ReferenceInRange, InDomain;
  }

  lemma SolutionInDomain(desired: nat, requestedPpm: nat, solution: Option<Solution>)
    requires solution.Some? && LeastError(desired, requestedPpm, solution)
    ensures InDomain(solution.value.candidate)
  {
    hide Unreachable, FirstIn;
    FeasibleInDomain(desired, solution.value.ppm, solution.value.candidate);
  }

  lemma FieldsOfDivider(c: Candidate)
    requires InDomain(c)
    ensures c.rs < 4 && c.icp < 20 && FieldsOf(c).od == c.od
  {
    hide OutputDivider.OnGrid;
  }

  lemma WordIsComplete(word: seq<bv8>)
    requires |word| == 20 && Ics30703Word.FixedBits(word, true) && Ics30703Word.Plain(Ics30703Word.TableBytesOf(word))
    ensures Ics30703Word.Complete(word, true)
  {
  }

  lemma ProgramsIf(word: seq<bv8>, desired: nat, requestedPpm: nat, solution: Option<Solution>)
    requires |word| == 20 && solution.Some? && LeastError(desired, requestedPpm, solution)
    requires InDomain(solution.value.candidate)
    requires Ics30703Word.Decode(word) == FieldsOf(solution.value.candidate) && Ics30703Word.Complete(word, true)
    ensures Programs(word, desired, requestedPpm, solution)
  {
  }

  /** A solution and a proof that there is none exclude each other. */
  lemma SolvedOrUnreachable(desired: nat, requestedPpm: nat, result: Option<Solution>)
    requires LeastError(desired, requestedPpm, result)
    ensures result.None? <==> Unreachable(desired, requestedPpm)
  {
    hide Feasible, FirstIn;
    if result.Some? {
      FeasibleGrows(desired, result.value.ppm, requestedPpm, result.value.candidate);
    }
  }

  /**
   * The whole routine.  Of its error returns only 2 ever happens, and exactly when no
   * setting meets the requested bound.
   */
  method GetICS30703Data(desired: nat, ppm: nat, progdata: array<bv8>)
    returns (status: nat, ghost solution: Option<Solution>)
    requires desired < 0x1_0000_0000 && progdata.Length == 20
    modifies progdata
    ensures status == 0 || status == 2
    ensures status == 2 <==> Unreachable(desired, ppm)
    ensures status == 0 ==> Programs(progdata[..], desired, ppm, solution)
  {
    hide *;
    var result := Solve(desired, ppm);
    solution := result;
    SolvedOrUnreachable(desired, ppm, result);
    if result.None? {
      return 2, result;
    }
    var best := result.value.candidate;
    SolutionInDomain(desired, ppm, result);
    FoundIsEncodable(best);
    FieldsOfDivider(best);
    status := Ics30703Word.EncodeWord(progdata, FieldsOf(best));
    WordIsComplete(progdata[..]);
    ProgramsIf(progdata[..], desired, ppm, result);
  }

  /**
   * calculate_clock_bits: 0 and the word, or 1 and the caller's bytes untouched.
   */
  method CalculateClockBits(freq: nat, ppm: nat, progbytes: array<bv8>)
    returns (status: nat, ghost solution: Option<Solution>)
    requires freq < 0x1_0000_0000 && progbytes.Length == 20
    modifies progbytes
    ensures status == 0 || status == 1
    ensures status == 1 <==> Unreachable(freq, ppm)
    ensures status == 1 ==> progbytes[..] == old(progbytes[..])
    ensures status == 0 ==> Programs(progbytes[..], freq, ppm, solution)
  {
    hide *;
    var progwords := new bv8[20](_ => 0);
    var t;
    t, solution := GetICS30703Data(freq, ppm, progwords);
    ghost var word := progwords[..];
    if t == 0 {
      for i := 0 to 20
        invariant progwords[..] == word && progbytes[..i] == word[..i]
      {
        progbytes[i] := progwords[i];
      }
      assert progbytes[..] == progbytes[..20] == word;
    }
    status := if t == 0 then 0 else 1;
  }

  lemma FeasibleMeetsBound(desired: nat, ppm: nat, requestedPpm: nat, c: Candidate)
    requires Feasible(desired, ppm, c) && ppm <= requestedPpm
    ensures WithinErrorWhole(desired, requestedPpm, c.r, c.od, c.v)
  {
    hide WithinErrorWhole, FilterOk, VcoInRange, ReferenceInRange, AllowableError, Frequency;
    FeasibleGrows(desired, ppm, requestedPpm, c);
    OutputDivider.AtLeastTwo(c.od);
    ErrorTestWhole(desired, requestedPpm, c.r, c.od, c.v);
  }

  /**
   * The promise of the bound: the exact frequency of the word is within ppm of the
   * target, |24e6 v - f r od| 1e6 <= ppm f r od.
   */
  lemma WordMeetsBound(word: seq<bv8>, desired: nat, requestedPpm: nat, solution: Option<Solution>)
    requires Programs(word, desired, requestedPpm, solution)
    ensures var f := Ics30703Word.Decode(word); WithinErrorWhole(desired, requestedPpm, f.r, f.od, f.v)
  {
    var ppm, c := solution.value.ppm, solution.value.candidate;
    FeasibleMeetsBound(desired, ppm, requestedPpm, c);
  }

  /** The decoded fields keep the rules of the part: VCO, reference and loop filter in range. */
  lemma WordMeetsRules(word: seq<bv8>, desired: nat, requestedPpm: nat, solution: Option<Solution>)
    requires Programs(word, desired, requestedPpm, solution)
    ensures var f := Ics30703Word.Decode(word); RulesWhole(f.r, f.od, f.v, f.resistor, f.current)
  {
    hide Ics30703Word.Decode, Ics30703Word.Complete, Feasible, RulesWhole, Unreachable, FirstIn, WithinErrorWhole;
    FeasibleExactly(desired, solution.value.ppm, solution.value.candidate);
  }
}
