/**
 * The evidence-to-program translator of the DICE cross-check
 * (`DICEVerifier.generate_dice_program_simple`): it picks one of three
 * hand-written distributions over the seven FMS levels from threshold
 * rules on two evidence keys and renders it as a DICE `discrete(...)`
 * expression with six fractional digits per probability.
 * Probabilities are held as whole millionths (`Numerals.Scale`).
 */
module DiceProgram {
  import opened Wrappers
  import opened PyStrings
  import opened Numerals
  import opened Probability

  const MotionKey: string := "Motion_Intensity"
  const GsrKey: string := "GSR"
  /** Evidence at or above this value counts as elevated. */
  const Threshold: real := 4.0

  /** Which of the three hard-coded distributions the translator uses. */
  datatype Branch = Baseline | MotionElevated | GsrElevated

  /** The branch rules: motion first, then GSR, otherwise the baseline. */
  function SelectBranch(evidence: Evidence): Branch
  {
    if evidence == map[] then Baseline
    else if MotionKey in evidence && evidence[MotionKey] >= Threshold then MotionElevated
    else if GsrKey in evidence && evidence[GsrKey] >= Threshold then GsrElevated
    else Baseline
  }

  /** The total of a list of weights in millionths. */
  function Total(ws: seq<nat>): nat
  {
    if ws == [] then 0 else ws[0] + Total(ws[1..])
  }

  /** A seven-entry sum written out. */
  lemma TotalOfSeven(ws: seq<nat>)
    requires |ws| == 7
    ensures Total(ws) == ws[0] + ws[1] + ws[2] + ws[3] + ws[4] + ws[5] + ws[6]
  {
    assert ws[6..][1..] == [];
    assert Total(ws[6..]) == ws[6];
    assert ws[5..][1..] == ws[6..];
    assert Total(ws[5..]) == ws[5] + ws[6];
    assert ws[4..][1..] == ws[5..];
    assert Total(ws[4..]) == ws[4] + ws[5] + ws[6];
    assert ws[3..][1..] == ws[4..];
    assert Total(ws[3..]) == ws[3] + ws[4] + ws[5] + ws[6];
    assert ws[2..][1..] == ws[3..];
    assert Total(ws[2..]) == ws[2] + ws[3] + ws[4] + ws[5] + ws[6];
    assert ws[1..][1..] == ws[2..];
  }

  /** The three distributions of the translator, FMS level 1 first, in millionths. */
  const BaselineWeights: seq<nat> := [200000, 200000, 150000, 200000, 150000, 70000, 30000]
  const MotionWeights: seq<nat> := [100000, 150000, 150000, 250000, 200000, 100000, 50000]
  const GsrWeights: seq<nat> := [100000, 120000, 180000, 250000, 200000, 100000, 50000]

  /** The probabilities of a branch. */
  function Weights(b: Branch): (ws: seq<nat>)
    ensures |ws| == 7
    ensures forall i :: 0 <= i < |ws| ==> ws[i] <= Scale
    ensures Total(ws) == Scale
  {
    match b
    case Baseline => TotalOfSeven(BaselineWeights); BaselineWeights
    case MotionElevated => TotalOfSeven(MotionWeights); MotionWeights
    case GsrElevated => TotalOfSeven(GsrWeights); GsrWeights
  }

  /** `[f"{p:.6f}" for p in probs]` */
  function FormatAll(ws: seq<nat>): (parts: seq<string>)
    ensures |parts| == |ws|
  {
    if ws == [] then [] else [FormatFixed6(ws[0])] + FormatAll(ws[1..])
  }

  const Head: string := "discrete("
  const Separator: string := ", "

  /** `f"discrete({', '.join(...)})"` */
  function RenderProgram(ws: seq<nat>): string
  {
    Head + Join(FormatAll(ws), Separator) + ")"
  }

  /** `generate_dice_program_simple(evidence)` */
  function GenerateProgram(evidence: Evidence): string
  {
    RenderProgram(Weights(SelectBranch(evidence)))
  }

  /** Reads a comma-separated list of six-digit fixed-point numerals. */
  function ParseArguments(s: string): Option<seq<nat>>
    decreases |s|
  {
    match ParseFixed6(s)
    case None => None
    case Some((v, rest)) =>
      if rest == [] then Some([v])
      else if IsPrefix(Separator, rest) then
        match ParseArguments(rest[|Separator|..])
        case None => None
        case Some(vs) => Some([v] + vs)
      else None
  }

  /** Reads a `discrete(p1, ..., pn)` program back into its probabilities. */
  function ParseProgram(text: string): Option<seq<nat>>
  {
    if |text| > |Head| && text[..|Head|] == Head && text[|text| - 1] == ')' then
      ParseArguments(text[|Head|..|text| - 1])
    else None
  }

  lemma ParseArgumentsLast(s: string, v: nat)
    requires ParseFixed6(s) == Some((v, ""))
    ensures ParseArguments(s) == Some([v])
  {
  }

  lemma ParseArgumentsCons(s: string, tail: string, ws: seq<nat>)
    requires ws != []
    requires ParseFixed6(s) == Some((ws[0], Separator + tail))
    requires ParseArguments(tail) == Some(ws[1..])
    ensures ParseArguments(s) == Some(ws)
  {
    assert (Separator + tail)[|Separator|..] == tail;
    assert [ws[0]] + ws[1..] == ws;
  }

  /** Each numeral of `parts` reads back as the matching entry of `ws`, whatever follows it. */
  ghost predicate ReadsBackAs(parts: seq<string>, ws: seq<nat>)
  {
    |parts| == |ws| &&
    forall i, rest :: 0 <= i < |ws| ==> ParseFixed6(parts[i] + rest) == Some((ws[i], rest))
  }

  lemma {:induction false} ParseJoined(parts: seq<string>, ws: seq<nat>)
    requires ws != [] && ReadsBackAs(parts, ws)
    ensures ParseArguments(Join(parts, Separator)) == Some(ws)
  {
    if |ws| == 1 {
      assert ParseFixed6(parts[0] + "") == Some((ws[0], ""));
      assert parts[0] + "" == parts[0] == Join(parts, Separator);
      ParseArgumentsLast(parts[0], ws[0]);
      assert ws == [ws[0]];
    } else {
      var tail := Join(parts[1..], Separator);
      var joined := Join(parts, Separator);
      JoinCons(parts, Separator);
      assert ParseFixed6(joined) == Some((ws[0], Separator + tail));
      assert ReadsBackAs(parts[1..], ws[1..]) by {
        forall i, rest | 0 <= i < |ws| - 1
          ensures ParseFixed6(parts[1..][i] + rest) == Some((ws[1..][i], rest))
        {
          assert ParseFixed6(parts[i + 1] + rest) == Some((ws[i + 1], rest));
        }
      }
      ParseJoined(parts[1..], ws[1..]);
      ParseArgumentsCons(joined, tail, ws);
    }
  }

  lemma {:induction false} FormatAllReadsBack(ws: seq<nat>)
    ensures ReadsBackAs(FormatAll(ws), ws)
  {
    if ws != [] {
      FormatAllReadsBack(ws[1..]);
      var parts := FormatAll(ws);
      forall i, rest | 0 <= i < |ws|
        ensures ParseFixed6(parts[i] + rest) == Some((ws[i], rest))
      {
        if i == 0 {
          Fixed6RoundTrip(ws[0], rest);
        } else {
          assert parts[i] == FormatAll(ws[1..])[i - 1];
        }
      }
    }
  }

  lemma ArgumentsRoundTrip(ws: seq<nat>)
    requires ws != []
    ensures ParseArguments(Join(FormatAll(ws), Separator)) == Some(ws)
  {
    FormatAllReadsBack(ws);
    ParseJoined(FormatAll(ws), ws);
  }

  /** Reading a rendered program back recovers the probabilities it was rendered from. */
  lemma {:induction false} ProgramRoundTrip(ws: seq<nat>)
    requires ws != []
    ensures ParseProgram(RenderProgram(ws)) == Some(ws)
  {
    var body := Join(FormatAll(ws), Separator);
    var text := RenderProgram(ws);
    assert text == Head + body + ")";
    assert text[..|Head|] == Head;
    assert text[|Head|..|text| - 1] == body;
    ArgumentsRoundTrip(ws);
  }

  /** The program text for any evidence is the chosen distribution: seven probabilities in [0, 1] summing to one. */
  lemma GeneratedProgramDenotesDistribution(evidence: Evidence)
    ensures var ws := Weights(SelectBranch(evidence));
      && ParseProgram(GenerateProgram(evidence)) == Some(ws)
      && |ws| == 7 && Total(ws) == Scale
      && forall i :: 0 <= i < 7 ==> ws[i] <= Scale
  {
    ProgramRoundTrip(Weights(SelectBranch(evidence)));
  }

  /** No evidence gives the baseline population distribution. */
  lemma NoEvidenceIsBaseline()
    ensures SelectBranch(map[]) == Baseline
    ensures Weights(SelectBranch(map[])) == [200000, 200000, 150000, 200000, 150000, 70000, 30000]
  {
  }

  /** Elevated motion intensity selects the motion distribution whatever GSR says. */
  lemma MotionTakesPrecedence(evidence: Evidence)
    requires MotionKey in evidence && evidence[MotionKey] >= Threshold
    ensures SelectBranch(evidence) == MotionElevated
  {
  }

  /** The GSR distribution is chosen exactly when GSR is elevated and motion intensity is not. */
  lemma GsrBranchExactly(evidence: Evidence)
    ensures SelectBranch(evidence) == GsrElevated <==>
      !(MotionKey in evidence && evidence[MotionKey] >= Threshold) &&
      GsrKey in evidence && evidence[GsrKey] >= Threshold
  {
  }

  /** Keys other than the two recognised ones never influence the choice. */
  lemma OnlyRecognisedKeysMatter(evidence: Evidence)
    ensures SelectBranch(evidence) == SelectBranch(evidence - (evidence.Keys - {MotionKey, GsrKey}))
  {
    var kept := evidence - (evidence.Keys - {MotionKey, GsrKey});
    assert MotionKey in kept <==> MotionKey in evidence;
    assert GsrKey in kept <==> GsrKey in evidence;
    if kept == map[] {
      assert MotionKey !in evidence && GsrKey !in evidence;
    }
  }

  /** Without an elevated recognised key the translator falls back to the baseline. */
  lemma BelowThresholdIsBaseline(evidence: Evidence)
    requires !(MotionKey in evidence && evidence[MotionKey] >= Threshold)
    requires !(GsrKey in evidence && evidence[GsrKey] >= Threshold)
    ensures SelectBranch(evidence) == Baseline
  {
  }
}
