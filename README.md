# Cybersickness Bayesian-network checks, modelled in Dafny

This project models the analysis core of a cybersickness study. The study
predicts Fast Motion Sickness (FMS) levels 1..7 with a Bayesian network.
The core has three parts:

- **DICE cross-check** (`DICEVerifier`). The translator turns evidence into
  a one-line DICE program, `discrete(p1, ..., p7)`, choosing one of three
  fixed distributions by a threshold rule. The reader scans DICE's output
  table into a map from FMS level to probability. The comparator checks
  the evidence keys, runs DICE and exact inference, and builds a per-level
  absolute difference map and its maximum.
- **Model-intrinsic checks** (`PropertyVerifier`):
  - monotonicity: the severe-FMS mass at a low and a high setting of a
    driver feature;
  - probability bounds and normalisation of every conditional probability
    table (CPD);
  - the Markov non-descendant set of a node;
  - the `verify_key_properties` driver, which selects what to check and
    aggregates the bounds results.
- **±1 relabelling** (`generate_extended_predictions`). A prediction within
  one level of the true label is counted as the true label.

Modules:

| file | module | contents |
|---|---|---|
| wrappers.dfy | `Wrappers` | `Option` and `Result` |
| probability.dfy | `Probability` | evidence maps, absolute value and sums of probabilities |
| py_strings.dfy | `PyStrings` | Python's `strip`, `split('\n')`, `split()` and `in` on strings |
| numerals.dfy | `Numerals` | decimal numerals, six-digit fixed-point rendering, `int`/`float` token reading |
| dice_program.dfy | `DiceProgram` | branch choice, the three distributions, program text and its reader |
| dice_output.dfy | `DiceOutput` | the output scan, as a method and as a left fold |
| dice_verifier.dfy | `DiceVerifier` | the DICE run outcome, the comparison and its difference map |
| property_verifier.dfy | `PropertyVerifier` | the four model checks and the driver |
| extended_predictions.dfy | `ExtendedPredictions` | the ±1 relabelling |

Modelling choices:

- **Probabilities.** They are reals. The three fixed distributions are held
  exactly, as millionths (natural numbers). That makes `f"{p:.6f}"` an exact
  fixed-point rendering, so "the program text reads back as the chosen
  distribution" is a theorem.
- **Evidence.** It is a `map<string, real>`. Python's `None` and `{}` are
  both falsy and are treated alike, so both are the empty map.
- **Outside calls become parameters.**
  - The DICE process is a function `run` from program text to a
    `RunOutcome`: the exit code and streams, a timeout, or a missing
    executable.
  - pgmpy exact inference in the comparator is a function `infer` from
    evidence to the `fms` distribution.
  - The network of `PropertyVerifier` is a `Network` value. It holds the
    node set, a parents function and a descendants function (`None` when
    the query raises). It also holds the CPDs in `get_cpds()` order, and an
    inference `query` that yields a distribution or an exception message.
- **Printed output.** `verify_key_properties` prints its findings. The model
  returns them as a `KeyPropertiesReport` value instead.

## Model

| member | source | states |
|---|---|---|
| DiceProgram.Weights | cybersickness_bn_V2/notebooks/dice_integration.py:24-34 | each of the three distributions has 7 entries, each at most 1, summing to exactly 1 |
| DiceProgram.TotalOfSeven | cybersickness_bn_V2/notebooks/dice_integration.py:24-30 | the total of a seven-entry distribution is the sum of its seven entries |
| DiceProgram.NoEvidenceIsBaseline | cybersickness_bn_V2/notebooks/dice_integration.py:24-34 | empty evidence selects the baseline distribution 0.20, 0.20, 0.15, 0.20, 0.15, 0.07, 0.03 |
| DiceProgram.MotionTakesPrecedence | cybersickness_bn_V2/notebooks/dice_integration.py:26-28 | `Motion_Intensity` >= 4 selects the motion distribution whatever `GSR` is |
| DiceProgram.GsrBranchExactly | cybersickness_bn_V2/notebooks/dice_integration.py:26-30 | the GSR distribution is chosen if and only if the motion rule does not fire and `GSR` >= 4 |
| DiceProgram.BelowThresholdIsBaseline | cybersickness_bn_V2/notebooks/dice_integration.py:26-34 | when neither recognised key reaches 4 the baseline is used |
| DiceProgram.OnlyRecognisedKeysMatter | cybersickness_bn_V2/notebooks/dice_integration.py:26-32 | removing every key other than `Motion_Intensity` and `GSR` never changes the branch |
| DiceProgram.ProgramRoundTrip | cybersickness_bn_V2/notebooks/dice_integration.py:36-37 | reading back `discrete(...)` rendered from any nonempty list of millionths recovers that list |
| DiceProgram.ArgumentsRoundTrip | cybersickness_bn_V2/notebooks/dice_integration.py:36 | the `", "`-joined six-digit renderings parse back to the values rendered |
| DiceProgram.ParseJoined | cybersickness_bn_V2/notebooks/dice_integration.py:36 | a `", "`-joined list of parts, each reading as one value, parses back to those values |
| DiceProgram.FormatAllReadsBack | cybersickness_bn_V2/notebooks/dice_integration.py:36 | each six-digit rendering reads back as the value rendered |
| DiceProgram.GeneratedProgramDenotesDistribution | cybersickness_bn_V2/notebooks/dice_integration.py:22-39 | the generated program denotes exactly the chosen 7-entry distribution, which sums to 1 |
| DiceProgram.FormatAll | cybersickness_bn_V2/notebooks/dice_integration.py:36 | one rendered field per probability |
| DiceProgram.ParseArgumentsLast | cybersickness_bn_V2/notebooks/dice_integration.py:36 | a single rendered value is a one-element argument list |
| DiceProgram.ParseArgumentsCons | cybersickness_bn_V2/notebooks/dice_integration.py:36 | a value, the `", "` separator and a readable tail read as the value followed by the tail |
| Numerals.Fixed6RoundTrip | cybersickness_bn_V2/notebooks/dice_integration.py:36 | the `.6f` rendering of m millionths, followed by anything, is read back as m and the same remainder |
| Numerals.ParseFloatReadsFixed6 | cybersickness_bn_V2/notebooks/dice_integration.py:36 | `float` of the `.6f` rendering of m millionths is exactly m / 10^6 |
| Numerals.ToDigitsValue | cybersickness_bn_V2/notebooks/dice_integration.py:36 | the integer part rendered in decimal has the rendered value |
| Numerals.PadDigitsValue | cybersickness_bn_V2/notebooks/dice_integration.py:36 | the six zero-padded fractional digits have the rendered value |
| Numerals.ToDigits | cybersickness_bn_V2/notebooks/dice_integration.py:36 | the integer part is a nonempty run of digits with no leading zero; it starts with `0` only for 0 |
| Numerals.PadDigits | cybersickness_bn_V2/notebooks/dice_integration.py:36 | the fractional part is exactly the requested number of digits |
| Numerals.LeadingDigits | cybersickness_bn_V2/notebooks/dice_integration.py:120-124 | the reader's digit run is the longest all-digit prefix |
| Numerals.LeadingDigitsOfNumeral | cybersickness_bn_V2/notebooks/dice_integration.py:120-124 | a numeral followed by a non-digit yields exactly the numeral's digits |
| Numerals.ParseFixed6 | cybersickness_bn_V2/notebooks/dice_integration.py:36 | a successful read consumes at least one character |
| Numerals.ParseIntReadsNumeral | cybersickness_bn_V2/notebooks/dice_integration.py:120-123 | `int` reads a printed natural number back as itself, and with a leading minus sign as its negation |
| Numerals.DigitChar | cybersickness_bn_V2/notebooks/dice_integration.py:36 | digit characters and digit values are inverse |
| PyStrings.Strip | cybersickness_bn_V2/notebooks/dice_integration.py:108-116 | `strip()` is empty if and only if the line is all whitespace |
| PyStrings.TrimStart | cybersickness_bn_V2/notebooks/dice_integration.py:108 | removes exactly the leading whitespace: a suffix that is empty or starts with non-space |
| PyStrings.TrimEnd | cybersickness_bn_V2/notebooks/dice_integration.py:108 | removes exactly the trailing whitespace |
| PyStrings.SplitOn | cybersickness_bn_V2/notebooks/dice_integration.py:108 | `split('\n')` yields at least one line and no line contains the separator |
| PyStrings.JoinSplitOn | cybersickness_bn_V2/notebooks/dice_integration.py:108 | joining the split lines with the separator gives back the text |
| PyStrings.JoinCons | cybersickness_bn_V2/notebooks/dice_integration.py:36 | a join of two or more parts is the first part, the separator, and the join of the rest |
| PyStrings.WordLength | cybersickness_bn_V2/notebooks/dice_integration.py:117 | a word runs to the first whitespace character or the end |
| PyStrings.Words | cybersickness_bn_V2/notebooks/dice_integration.py:117 | `split()` of an all-whitespace line has no fields, and every field is a nonempty run without whitespace |
| PyStrings.WordsCons | cybersickness_bn_V2/notebooks/dice_integration.py:117 | a word followed by nothing or by whitespace is the first field, and the rest splits on its own |
| PyStrings.WordsSkipSpace | cybersickness_bn_V2/notebooks/dice_integration.py:117 | leading whitespace adds no field |
| PyStrings.SingleWord | cybersickness_bn_V2/notebooks/dice_integration.py:117 | a lone word splits into exactly itself |
| PyStrings.WordAfterSpace | cybersickness_bn_V2/notebooks/dice_integration.py:117 | a word behind one whitespace character splits into exactly itself |
| PyStrings.TwoWords | cybersickness_bn_V2/notebooks/dice_integration.py:117 | two words with one whitespace character between them split into exactly those two fields |
| PyStrings.ContainsIffOccurs | cybersickness_bn_V2/notebooks/dice_integration.py:112 | `sub in s` holds if and only if `sub` occurs in `s` at some position |
| DiceOutput.ParseRow | cybersickness_bn_V2/notebooks/dice_integration.py:116-127 | a row that is read has a zero-based index below 7 and is not blank |
| DiceOutput.WellFormedRowRead | cybersickness_bn_V2/notebooks/dice_integration.py:117-125 | a line whose first two fields read as an integer below 7 and a number is read as exactly that pair |
| DiceOutput.TwoFieldRowRead | cybersickness_bn_V2/notebooks/dice_integration.py:117-125 | two whitespace-separated fields reading as an index below 7 and a number form a row of exactly that pair |
| DiceOutput.Fixed6IsWord | cybersickness_bn_V2/notebooks/dice_integration.py:117 | a six-digit rendering of a probability contains no whitespace |
| DiceOutput.RowRoundTrip | cybersickness_bn_V2/notebooks/dice_integration.py:117-125 | a row printed as an index below 7, whitespace and a six-digit probability is read back as that index and exactly that probability |
| DiceOutput.ParseDiceOutput | cybersickness_bn_V2/notebooks/dice_integration.py:106-129 | the loop computes the scan over the stripped, split output, and every level it stores is at most 7 |
| DiceOutput.RunAppend | cybersickness_bn_V2/notebooks/dice_integration.py:111-127 | scanning two blocks of lines is scanning the second from where the first left off |
| DiceOutput.NoHeaderNoResults | cybersickness_bn_V2/notebooks/dice_integration.py:110-116 | with no header line the scan never leaves its initial state |
| DiceOutput.NoHeaderEmptyMap | cybersickness_bn_V2/notebooks/dice_integration.py:106-129 | output without a `Value`/`Probability` header gives the empty map |
| DiceOutput.RowsBeforeHeaderIgnored | cybersickness_bn_V2/notebooks/dice_integration.py:110-116 | rows before the first header contribute nothing |
| DiceOutput.RowSetsLevel | cybersickness_bn_V2/notebooks/dice_integration.py:116-125 | after the header, a readable row with index i sets level i+1, overwriting any earlier entry |
| DiceOutput.UnreadableRowSkipped | cybersickness_bn_V2/notebooks/dice_integration.py:116-127 | an unreadable row leaves the state unchanged without ending the scan |
| DiceOutput.MalformedRowRejected | cybersickness_bn_V2/notebooks/dice_integration.py:117-127 | fewer than two fields, a non-integer first field or a non-numeric second field gives no row |
| DiceOutput.OutOfRangeIndexDropped | cybersickness_bn_V2/notebooks/dice_integration.py:120-122 | an index of 7 or more is dropped |
| DiceOutput.ParsedLevelsAtMostSeven | cybersickness_bn_V2/notebooks/dice_integration.py:120-125 | every stored level is at most 7 |
| DiceOutput.ParsingStaysOn | cybersickness_bn_V2/notebooks/dice_integration.py:111-116 | once a header has been seen the scan never stops collecting |
| DiceOutput.EntrySurvives | cybersickness_bn_V2/notebooks/dice_integration.py:111-127 | a stored entry keeps its value over every line that does not read as a row of the same index |
| DiceOutput.RowAfterHeaderParsed | cybersickness_bn_V2/notebooks/dice_integration.py:106-129 | a readable row anywhere after a header sets its level to its probability, unless a later line reads as the same index |
| DiceOutput.StepEntry | cybersickness_bn_V2/notebooks/dice_integration.py:111-127 | an entry after one line was there before or comes from that line's row |
| DiceOutput.ParsedEntryHasRow | cybersickness_bn_V2/notebooks/dice_integration.py:106-129 | every stored entry comes from some output line whose row has that index and probability |
| DiceVerifier.InterpretRun | cybersickness_bn_V2/notebooks/dice_integration.py:64-88 | exit code 0 gives stdout; nonzero gives a failure carrying stderr; a timeout gives the timeout error; a missing executable gives the Docker error when Docker is used and the DICE error otherwise |
| DiceVerifier.VerifyWithDice | cybersickness_bn_V2/notebooks/dice_integration.py:90-104 | either the run's error, or the program, the raw output and its parsed map |
| DiceVerifier.ByLevel | cybersickness_bn_V2/notebooks/dice_integration.py:156-157 | the inference distribution is keyed 1..n, level k holding entry k-1 |
| DiceVerifier.KeyByLevel | cybersickness_bn_V2/notebooks/dice_integration.py:156-157 | the loop keys the inference distribution exactly as `ByLevel` does |
| DiceVerifier.DifferenceMap | cybersickness_bn_V2/notebooks/dice_integration.py:159-163 | the loop yields keys exactly 1..7, each the absolute gap with missing levels read as 0 |
| DiceVerifier.MaxOverLevels | cybersickness_bn_V2/notebooks/dice_integration.py:166 | over a map keyed 1..7 the result is one of its values and at least every value |
| DiceVerifier.BuildComparison | cybersickness_bn_V2/notebooks/dice_integration.py:151-166 | difference keys are exactly 1..7 with the absolute per-level gap (missing levels as 0); max_diff is one of them, at least every one, and at least 0 |
| DiceVerifier.InvalidKeys | cybersickness_bn_V2/notebooks/dice_integration.py:133-134 | the invalid keys are exactly the evidence keys that are not nodes |
| DiceVerifier.CompareWithPgmpy | cybersickness_bn_V2/notebooks/dice_integration.py:131-168 | an invalid key gives no comparison before anything runs; otherwise the DICE error propagates, or the comparison holds the parsed DICE map, the inference map and their difference map and maximum |
| DiceVerifier.MaxDiffZeroIffAgree | cybersickness_bn_V2/notebooks/dice_integration.py:159-166 | max_diff is 0 if and only if both sides agree on every level 1..7 |
| DiceVerifier.IdenticalDistributionsAgree | cybersickness_bn_V2/notebooks/dice_integration.py:156-166 | identical distributions give an all-zero difference map and max_diff 0 |
| PropertyVerifier.VerifyMonotonicity | cybersickness_bn_V1/notebooks/property_verification.py:13-43 | a feature outside the model gives its error without any query; a failed query gives its message and not monotonic; otherwise the severe masses at settings 1 and 5, their difference, and monotonic if and only if the difference is positive |
| PropertyVerifier.SevereMassOfSevenLevels | cybersickness_bn_V1/notebooks/property_verification.py:26-32 | on a 7-level distribution the severe mass is that of FMS 5, 6 and 7 |
| PropertyVerifier.NoEffectNotMonotonic | cybersickness_bn_V1/notebooks/property_verification.py:34-37 | equal distributions at both settings give not monotonic with difference 0 |
| Probability.SumAppend | cybersickness_bn_V1/notebooks/property_verification.py:56 | the sum of a concatenation is the sum of the parts |
| PropertyVerifier.FlattenPosition | cybersickness_bn_V1/notebooks/property_verification.py:52 | every table entry appears in the flattened table |
| PropertyVerifier.FlattenSource | cybersickness_bn_V1/notebooks/property_verification.py:52 | every flattened entry is a table entry |
| PropertyVerifier.FlattenKeepsUnitInterval | cybersickness_bn_V1/notebooks/property_verification.py:52-53 | a table with every entry in [0, 1] flattens to values in [0, 1] |
| PropertyVerifier.FlattenRevealsUnitInterval | cybersickness_bn_V1/notebooks/property_verification.py:52-53 | a table that flattens to values in [0, 1] has every entry in [0, 1] |
| PropertyVerifier.FlattenInUnitInterval | cybersickness_bn_V1/notebooks/property_verification.py:52-53 | the flattened table lies in [0, 1] if and only if every table entry does |
| PropertyVerifier.CheckCpd | cybersickness_bn_V1/notebooks/property_verification.py:49-68 | valid_bounds if and only if every entry is in [0, 1]; normalized is the whole-table rule for one variable, else the every-column rule; passed is their conjunction |
| PropertyVerifier.VerifyProbabilityBounds | cybersickness_bn_V1/notebooks/property_verification.py:45-70 | exactly one record per CPD, in CPD order, each the check of that CPD |
| PropertyVerifier.SingleColumnTotal | cybersickness_bn_V1/notebooks/property_verification.py:55-61 | on a one-column table the whole-table sum and the column sum coincide |
| PropertyVerifier.ValidCpdPasses | cybersickness_bn_V1/notebooks/property_verification.py:52-68 | a CPD with entries in [0, 1] and columns summing to 1 passes |
| PropertyVerifier.ShortColumnFails | cybersickness_bn_V1/notebooks/property_verification.py:57-68 | a multi-variable CPD with a column summing to 0.9 fails |
| PropertyVerifier.VerifyMarkovProperty | cybersickness_bn_V1/notebooks/property_verification.py:72-95 | a node outside the model gives its error; otherwise the non-descendants are nodes disjoint from the descendants, the parents and the node, together covering all nodes; a failed descendant query counts as none; holds is always true |
| PropertyVerifier.LeafNonDescendants | cybersickness_bn_V1/notebooks/property_verification.py:81-87 | without descendants, the non-descendants are every node but the node and its parents |
| PropertyVerifier.PresentIn | cybersickness_bn_V1/notebooks/property_verification.py:105-139 | the selected names are exactly the candidates that are nodes |
| PropertyVerifier.PresentInAppend | cybersickness_bn_V1/notebooks/property_verification.py:105-108 | selection keeps candidate order |
| PropertyVerifier.AllCandidatesPresent | cybersickness_bn_V1/notebooks/property_verification.py:105-108 | when every candidate is a node, all are selected in list order |
| PropertyVerifier.SelectPresent | cybersickness_bn_V1/notebooks/property_verification.py:105-139 | the appending loop builds exactly the selection |
| PropertyVerifier.CheckFeatures | cybersickness_bn_V1/notebooks/property_verification.py:113-114 | one monotonicity result per selected feature, in order, against `fms` |
| PropertyVerifier.CheckNodes | cybersickness_bn_V1/notebooks/property_verification.py:141-142 | one Markov result per node to test, in order |
| PropertyVerifier.FailedNodes | cybersickness_bn_V1/notebooks/property_verification.py:126 | a name is listed as failed if and only if some record with that name did not pass |
| PropertyVerifier.AllPassedIffNoFailures | cybersickness_bn_V1/notebooks/property_verification.py:125-126 | all records passed if and only if no node is listed as failed |
| PropertyVerifier.VerifyKeyProperties | cybersickness_bn_V1/notebooks/property_verification.py:98-150 | checks the present candidate features in order, every CPD, and `fms` followed by the present Markov candidates; all_passed and failed_nodes aggregate the bounds records |
| ExtendedPredictions.Extend | cybersickness_bn_V1/notebooks/plot_confusion_matrices.py:49 | the output is as long as the shorter input |
| ExtendedPredictions.GenerateExtendedPredictions | cybersickness_bn_V1/notebooks/plot_confusion_matrices.py:46-55 | the appending loop computes the relabelling |
| ExtendedPredictions.ExtendedLabelSource | cybersickness_bn_V1/notebooks/plot_confusion_matrices.py:50-53 | each output label is the true or the predicted one; it is the true one if and only if the prediction was within one level |
| ExtendedPredictions.ExtendNeverWorse | cybersickness_bn_V1/notebooks/plot_confusion_matrices.py:50-53 | a relabelled prediction is never further from the truth |
| ExtendedPredictions.ExtendKeepsLevels | cybersickness_bn_V1/notebooks/plot_confusion_matrices.py:50-53 | labels in 1..7 on both sides give labels in 1..7 |
| ExtendedPredictions.ExtendIdempotent | cybersickness_bn_V1/notebooks/plot_confusion_matrices.py:46-55 | relabelling the relabelled predictions changes nothing |
| ExtendedPredictions.ExactMatchesKept | cybersickness_bn_V1/notebooks/plot_confusion_matrices.py:50-53 | a correct exact prediction stays correct |
| ExtendedPredictions.MatchCount | cybersickness_bn_V1/notebooks/plot_confusion_matrices.py:82-83 | matches are counted over the zipped positions only |
| ExtendedPredictions.MatchCountNeverDrops | cybersickness_bn_V1/notebooks/plot_confusion_matrices.py:50-53 | the number of exact matches never decreases, so extended accuracy is at least exact accuracy |

## Left out

- Loading the network with `pickle` and creating the `dice_verification` directory in `DICEVerifier.__init__` are file I/O.
- `write_dice_program` is a file write. The model passes the program text straight to `run`.
- The command line of `run_dice` (Docker or local `dice`) and the 30-second timeout are process I/O. `run` returns the outcome, and `InterpretRun` models what each outcome becomes.
- `InterpretRun`: the model returns a `DiceError` value where the code raises `RuntimeError`. Only the error kind and the carried stderr are modelled, not the message text.
- `CompareWithPgmpy`: exceptions raised by pgmpy inference in the comparator are not modelled; `infer` always returns a distribution.
- Every `print` is left out, including the warnings of `compare_with_pgmpy` and the report lines of `verify_key_properties`. So is the `__init__` message of `PropertyVerifier`.
- `ParseInt` reads only an optional sign and decimal digits. Python's `int` also accepts underscores between digits and surrounding whitespace; neither is modelled.
- `ParseFloat` reads only an optional sign, decimal digits and an optional fraction. Python's `float` also accepts underscores, exponents, `inf`, `nan` and surrounding whitespace; none of those are modelled.
- `GenerateExtendedPredictions`, `Extend`: labels are unbounded integers. The only caller passes fixed-width numpy integer arrays, on which `true_val - pred_val` and `abs` wrap around; that wrap-around is not modelled. FMS labels 1..7 never reach it.
- Whitespace is the ASCII whitespace set, as Python's `str.split()` and `str.strip()` use it on ASCII text. Unicode whitespace is not modelled.
- `ParseDiceOutput` does not bound levels from below. A row with a negative index such as `-1` is stored at level 0 or below, exactly as the code does. The difference map only looks at levels 1..7, so such entries do not affect it.
- `BuildComparison`: the `if diff else 0.0` fallback is never taken, because the difference map always has seven keys. The model computes the maximum directly.
- `CheckCpd`: a CPD is a two-dimensional table, with a row per state and a column per parent configuration. With k parents of p1, ..., pk states, numpy keeps one axis per parent: `cpd.values.sum(axis=0)` has shape (p1, ..., pk) and is compared with a vector of p1 ones. Broadcasting lines up the last axis with that vector. When pk equals p1, or either is 1, every column sum is compared with 1, which is exactly the model's every-column rule. Otherwise numpy raises a broadcasting error; see the next line.
- `CheckCpd`, `VerifyProbabilityBounds`, `VerifyKeyProperties`: the broadcasting `ValueError` of `np.allclose` for a CPD whose last parent's cardinality differs from its first parent's (neither being 1) is an error path the model drops. `verify_probability_bounds` does not catch it, so `verify_key_properties` aborts at the bounds step (property_verification.py:124). The model returns the every-column verdict for such a CPD instead.
- Probabilities are reals. Floating-point rounding of sums and of `isclose` is not modelled. Only numpy's default tolerances (1e-8 absolute, 1e-5 relative) are kept.
- A `PropertyVerifier` built on an empty network is not rejected. The code has no such check: every feature and node is then reported missing, and the bounds check has no CPDs.
- The translator tests the key `Motion_Intensity`, while the property driver tests `MotionIntensity`. Both names are kept as the code spells them.
- `plot_dual_confusion_matrices`, the sklearn confusion matrix and the random `__main__` demo of plot_confusion_matrices.py are plotting, a foreign library and a random number generator.
- The editor checkpoint copy of the confusion-matrix notebook is entirely commented out. It is not part of this model.
- The placeholder `test_dice_verifier` and `test_property_verifier` functions only return `True`.
