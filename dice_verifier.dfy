/**
 * The DICE cross-check driver (`DICEVerifier.run_dice`, `verify_with_dice`
 * and `compare_with_pgmpy`): it rejects evidence naming unknown nodes,
 * runs the translated program through DICE, reads DICE's table, queries
 * the network for the FMS marginal and reports the per-level absolute
 * differences over levels 1..7 and their maximum.
 *
 * Writing the program file and launching DICE are one opaque step here,
 * `run: string -> RunOutcome` from program text to what the process did;
 * exact inference by variable elimination is `infer`, from evidence to the
 * FMS distribution in level order.
 */
module DiceVerifier {
  import opened Wrappers
  import opened DiceProgram
  import opened DiceOutput
  import opened Probability

  /** What launching DICE (directly or in Docker) did. */
  datatype RunOutcome =
    | Exited(code: int, stdout: string, stderr: string)
    | TimedOut           // `subprocess.TimeoutExpired` after 30 seconds
    | ExecutableMissing  // `FileNotFoundError`: `docker` or `dice` is not installed

  /** The `RuntimeError`s `run_dice` raises. */
  datatype DiceError =
    | ExecutionFailed(stderr: string)
    | ExecutionTimedOut
    | DockerNotFound
    | DiceNotFound

  /** `run_dice`: the standard output on a zero exit status, otherwise the matching error. */
  function InterpretRun(useDocker: bool, outcome: RunOutcome): (r: Result<string, DiceError>)
    ensures r.Success? <==> outcome.Exited? && outcome.code == 0
    ensures r.Success? ==> r.value == outcome.stdout
    ensures outcome.Exited? && outcome.code != 0 ==> r == Failure(ExecutionFailed(outcome.stderr))
    ensures outcome.TimedOut? ==> r == Failure(ExecutionTimedOut)
    ensures outcome.ExecutableMissing? ==> r == Failure(if useDocker then DockerNotFound else DiceNotFound)
  {
    match outcome
    case Exited(code, stdout, stderr) =>
      if code != 0 then Failure(ExecutionFailed(stderr)) else Success(stdout)
    case TimedOut => Failure(ExecutionTimedOut)
    case ExecutableMissing => Failure(if useDocker then DockerNotFound else DiceNotFound)
  }

  /** The dictionary `verify_with_dice` returns. */
  datatype DiceRun = DiceRun(program: string, output: string, results: map<int, real>)

  /** `verify_with_dice(evidence)` */
  method VerifyWithDice(evidence: Evidence, useDocker: bool, run: string -> RunOutcome)
    returns (r: Result<DiceRun, DiceError>)
    ensures match InterpretRun(useDocker, run(GenerateProgram(evidence)))
      case Failure(e) => r == Failure(e)
      case Success(output) =>
        r == Success(DiceRun(GenerateProgram(evidence), output, Parsed(output)))
  {
    var program := GenerateProgram(evidence);
    var outcome := InterpretRun(useDocker, run(program));
    match outcome {
      case Failure(e) =>
        r := Failure(e);
      case Success(output) =>
        var results := ParseDiceOutput(output);
        r := Success(DiceRun(program, output, results));
    }
  }

  /** The report `compare_with_pgmpy` returns. */
  datatype Comparison = Comparison(
    dice: map<int, real>,
    pgmpy: map<int, real>,
    difference: map<int, real>,
    maxDiff: real)

  /** `d.get(level, 0.0)` */
  function GetOrZero(d: map<int, real>, level: int): real
  {
    if level in d then d[level] else 0.0
  }

  /** The FMS levels the comparison covers. */
  predicate IsLevel(level: int)
  {
    1 <= level <= 7
  }

  /** A distribution in level order as a map from 1-based level to probability. */
  function ByLevel(values: seq<real>): (m: map<int, real>)
    ensures forall level :: level in m <==> 1 <= level <= |values|
    ensures forall level :: level in m ==> m[level] == values[level - 1]
  {
    if values == [] then map[]
    else ByLevel(values[..|values| - 1])[|values| := values[|values| - 1]]
  }

  /** The difference map: levels 1..7, each the absolute difference with missing entries read as 0. */
  ghost predicate IsDifferenceMap(diff: map<int, real>, dice: map<int, real>, pgmpy: map<int, real>)
  {
    && (forall level :: level in diff <==> IsLevel(level))
    && (forall level :: IsLevel(level) ==> diff[level] == Abs(GetOrZero(dice, level) - GetOrZero(pgmpy, level)))
  }

  /** `m` is `max(d.values())`. */
  ghost predicate IsMaximum(m: real, d: map<int, real>)
  {
    (exists level :: level in d && d[level] == m) && forall level :: level in d ==> d[level] <= m
  }

  /** The loop of `compare_with_pgmpy` that keys the inference distribution by level. */
  method KeyByLevel(values: seq<real>) returns (pgmpy: map<int, real>)
    ensures pgmpy == ByLevel(values)
  {
    pgmpy := map[];
    for i := 0 to |values|
      invariant pgmpy == ByLevel(values[..i])
    {
      assert values[..i + 1][..i] == values[..i];
      pgmpy := pgmpy[i + 1 := values[i]];
    }
    assert values[..|values|] == values;
  }

  /** The loop of `compare_with_pgmpy` over levels 1..7 that fills `diff`. */
  method DifferenceMap(dice: map<int, real>, pgmpy: map<int, real>) returns (diff: map<int, real>)
    ensures IsDifferenceMap(diff, dice, pgmpy)
  {
    diff := map[];
    for level := 1 to 8
      invariant forall k :: k in diff <==> 1 <= k < level
      invariant forall k :: 1 <= k < level ==> diff[k] == Abs(GetOrZero(dice, k) - GetOrZero(pgmpy, k))
    {
      var diceProb := GetOrZero(dice, level);
      var pgmpyProb := GetOrZero(pgmpy, level);
      diff := diff[level := Abs(diceProb - pgmpyProb)];
    }
  }

  /** `max(diff.values())` over the seven levels. */
  method MaxOverLevels(diff: map<int, real>) returns (maxDiff: real)
    requires forall level :: level in diff <==> IsLevel(level)
    ensures IsMaximum(maxDiff, diff)
  {
    maxDiff := diff[1];
    ghost var argMax := 1;
    for level := 2 to 8
      invariant 1 <= argMax < level && diff[argMax] == maxDiff
      invariant forall k :: 1 <= k < level ==> diff[k] <= maxDiff
    {
      if diff[level] > maxDiff {
        maxDiff := diff[level];
        argMax := level;
      }
    }
  }

  /** The table-building part of `compare_with_pgmpy`, after both distributions are known. */
  method BuildComparison(dice: map<int, real>, pgmpyValues: seq<real>) returns (c: Comparison)
    ensures c.dice == dice
    ensures c.pgmpy == ByLevel(pgmpyValues)
    ensures IsDifferenceMap(c.difference, dice, c.pgmpy)
    ensures IsMaximum(c.maxDiff, c.difference)
    ensures c.maxDiff >= 0.0
  {
    var pgmpy := KeyByLevel(pgmpyValues);
    var diff := DifferenceMap(dice, pgmpy);
    var maxDiff := MaxOverLevels(diff);
    assert diff[1] >= 0.0;
    c := Comparison(dice, pgmpy, diff, maxDiff);
  }

  /** The evidence keys that name no node of the network. */
  function InvalidKeys(nodes: set<string>, evidence: Evidence): (invalid: set<string>)
    ensures forall key :: key in invalid <==> key in evidence && key !in nodes
  {
    evidence.Keys - nodes
  }

  /**
   * `compare_with_pgmpy(evidence)`: `Success(None)` when some evidence key is
   * not a node, before DICE runs or the network is queried; the error of
   * `run_dice` when DICE fails; otherwise the comparison.
   */
  method CompareWithPgmpy(
    nodes: set<string>, evidence: Evidence, useDocker: bool,
    run: string -> RunOutcome, infer: Evidence -> seq<real>)
    returns (r: Result<Option<Comparison>, DiceError>)
    ensures InvalidKeys(nodes, evidence) != {} ==> r == Success(None)
    ensures InvalidKeys(nodes, evidence) == {} ==>
      match InterpretRun(useDocker, run(GenerateProgram(evidence)))
      case Failure(e) => r == Failure(e)
      case Success(output) =>
        && r.Success? && r.value.Some?
        && r.value.value.dice == Parsed(output)
        && r.value.value.pgmpy == ByLevel(infer(evidence))
        && IsDifferenceMap(r.value.value.difference, Parsed(output), ByLevel(infer(evidence)))
        && IsMaximum(r.value.value.maxDiff, r.value.value.difference)
  {
    if evidence != map[] {
      var invalid := InvalidKeys(nodes, evidence);
      if invalid != {} {
        return Success(None);
      }
    }
    var diceRun := VerifyWithDice(evidence, useDocker, run);
    if diceRun.Failure? {
      return Failure(diceRun.error);
    }
    var c := BuildComparison(diceRun.value.results, infer(evidence));
    r := Success(Some(c));
  }

  /** The maximum difference is zero exactly when both sides agree on every level 1..7. */
  lemma MaxDiffZeroIffAgree(m: real, dice: map<int, real>, pgmpy: map<int, real>, diff: map<int, real>)
    requires IsDifferenceMap(diff, dice, pgmpy) && IsMaximum(m, diff)
    ensures m == 0.0 <==> forall level :: IsLevel(level) ==> GetOrZero(dice, level) == GetOrZero(pgmpy, level)
  {
    if m == 0.0 {
      forall level | IsLevel(level)
        ensures GetOrZero(dice, level) == GetOrZero(pgmpy, level)
      {
        assert level in diff && diff[level] <= m;
      }
    } else {
      var level :| level in diff && diff[level] == m;
      assert IsLevel(level);
    }
  }

  /** Identical distributions on both sides give an all-zero difference map and a zero maximum. */
  lemma IdenticalDistributionsAgree(values: seq<real>, diff: map<int, real>, m: real)
    requires IsDifferenceMap(diff, ByLevel(values), ByLevel(values)) && IsMaximum(m, diff)
    ensures forall level :: level in diff ==> diff[level] == 0.0
    ensures m == 0.0
  {
    MaxDiffZeroIffAgree(m, ByLevel(values), ByLevel(values), diff);
  }
}
