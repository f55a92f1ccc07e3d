/**
 * The model-intrinsic checks of `PropertyVerifier`: the monotonicity
 * verdict for a driver feature, the bounds and normalisation check of
 * every conditional probability table, the Markov non-descendant set of a
 * node, and the `verify_key_properties` driver that selects what to check
 * and aggregates the bounds results.
 *
 * The fitted network is read only. Its pgmpy calls are fields of `Network`:
 * `parents` and `descendants` give the graph queries (`descendants` is
 * `None` when `get_descendants` raises), `cpds` the tables in `get_cpds()`
 * order, and `query` exact inference, from target and evidence to the
 * target's distribution in state order or the message of the exception.
 */
module PropertyVerifier {
  import opened Wrappers
  import opened Probability

  /** A CPD's values as a 2-D array: a row per state of the variable, a column per parent configuration. */
  type Table = t: seq<seq<real>> | forall i :: 0 <= i < |t| ==> |t[i]| == |t[0]|

  datatype Cpd = Cpd(variable: string, variables: seq<string>, values: Table)

  datatype Network = Network(
    nodes: set<string>,
    parents: string -> set<string>,
    descendants: string -> Option<set<string>>,
    cpds: seq<Cpd>,
    query: (string, Evidence) -> Result<seq<real>, string>)

  // ---------------------------------------------------------------- monotonicity

  /** The target variable of the driver. */
  const Target: string := "fms"
  /** Representative low and high settings of a driver feature. */
  const LowValue: real := 1.0
  const HighValue: real := 5.0
  /** Zero-based index of the first severe level (FMS 5). */
  const SevereFrom: nat := 4

  /** `sum(values[4:])`: the mass of FMS levels 5 and above (0 for a shorter distribution). */
  function SevereMass(dist: seq<real>): real
  {
    if |dist| <= SevereFrom then 0.0 else Sum(dist[SevereFrom..])
  }

  /** On the seven-level target, the severe mass is that of levels 5, 6 and 7. */
  lemma SevereMassOfSevenLevels(dist: seq<real>)
    requires |dist| == 7
    ensures SevereMass(dist) == dist[4] + dist[5] + dist[6]
  {
    var tail := dist[SevereFrom..];
    assert tail[1..][1..][1..] == [];
    assert Sum(tail[1..][1..]) == dist[6];
    assert Sum(tail[1..]) == dist[5] + dist[6];
  }

  /** The dictionary `verify_monotonicity` returns, by which keys it holds. */
  datatype MonotonicityResult =
    | FeatureMissing(feature: string, error: string)
    | QueryFailed(feature: string, error: string, monotonic: bool)
    | Measured(feature: string, pSevereLow: real, pSevereHigh: real, monotonic: bool, difference: real)

  /** `verify_monotonicity(feature, target)` */
  function VerifyMonotonicity(net: Network, feature: string, target: string): (r: MonotonicityResult)
    ensures r.feature == feature
    ensures r.FeatureMissing? <==> feature !in net.nodes
    ensures r.FeatureMissing? ==> r.error == "Feature " + feature + " not in model"
    ensures r.Measured? <==>
      && feature in net.nodes
      && net.query(target, map[feature := LowValue]).Success?
      && net.query(target, map[feature := HighValue]).Success?
    ensures r.QueryFailed? ==>
      && !r.monotonic
      && r.error == (if net.query(target, map[feature := LowValue]).Failure?
                     then net.query(target, map[feature := LowValue]).error
                     else net.query(target, map[feature := HighValue]).error)
    ensures r.Measured? ==>
      && r.pSevereLow == SevereMass(net.query(target, map[feature := LowValue]).value)
      && r.pSevereHigh == SevereMass(net.query(target, map[feature := HighValue]).value)
      && r.difference == r.pSevereHigh - r.pSevereLow
      && (r.monotonic <==> r.difference > 0.0)
  {
    if feature !in net.nodes then
      FeatureMissing(feature, "Feature " + feature + " not in model")
    else
      match net.query(target, map[feature := LowValue])
      case Failure(e) => QueryFailed(feature, e, false)
      case Success(low) =>
        match net.query(target, map[feature := HighValue])
        case Failure(e) => QueryFailed(feature, e, false)
        case Success(high) =>
          var pLow := SevereMass(low);
          var pHigh := SevereMass(high);
          Measured(feature, pLow, pHigh, pHigh > pLow, pHigh - pLow)
  }

  /** A feature with no effect on the target (same distribution at both settings) is reported not monotonic, with difference 0. */
  lemma NoEffectNotMonotonic(net: Network, feature: string, target: string)
    requires feature in net.nodes
    requires net.query(target, map[feature := LowValue]).Success?
    requires net.query(target, map[feature := HighValue]) == net.query(target, map[feature := LowValue])
    ensures var r := VerifyMonotonicity(net, feature, target);
      r.Measured? && !r.monotonic && r.difference == 0.0
  {
  }

  // ---------------------------------------------------------------- probability bounds

  /** The record `verify_probability_bounds` appends for one CPD. */
  datatype BoundsRecord = BoundsRecord(node: string, validBounds: bool, normalized: bool, passed: bool)

  /** `cpd.values.flatten()`: the rows one after the other. */
  function Flatten(t: seq<seq<real>>): (flat: seq<real>)
  {
    if t == [] then [] else t[0] + Flatten(t[1..])
  }

  /** Where entry (i, j) of a table lands in its flattening. */
  lemma {:induction false} FlattenPosition(t: seq<seq<real>>, i: nat, j: nat) returns (k: nat)
    requires i < |t| && j < |t[i]|
    ensures k < |Flatten(t)| && Flatten(t)[k] == t[i][j]
  {
    if i == 0 {
      k := j;
    } else {
      var k' := FlattenPosition(t[1..], i - 1, j);
      k := |t[0]| + k';
    }
  }

  /** Which entry of a table position k of its flattening comes from. */
  lemma {:induction false} FlattenSource(t: seq<seq<real>>, k: nat) returns (i: nat, j: nat)
    requires k < |Flatten(t)|
    ensures i < |t| && j < |t[i]| && Flatten(t)[k] == t[i][j]
  {
    if k < |t[0]| {
      i, j := 0, k;
    } else {
      var i', j' := FlattenSource(t[1..], k - |t[0]|);
      i, j := i' + 1, j';
    }
  }

  /** Every entry of the flattened table lies in [0, 1]. */
  predicate FlatInUnitInterval(flat: seq<real>)
  {
    forall k :: 0 <= k < |flat| ==> 0.0 <= flat[k] <= 1.0
  }

  /** Every entry of the table lies in [0, 1]. */
  predicate EntriesInUnitInterval(t: seq<seq<real>>)
  {
    forall i, j :: 0 <= i < |t| && 0 <= j < |t[i]| ==> 0.0 <= t[i][j] <= 1.0
  }

  /** A table whose entries lie in [0, 1] flattens to values in [0, 1]. */
  lemma FlattenKeepsUnitInterval(t: seq<seq<real>>)
    requires EntriesInUnitInterval(t)
    ensures FlatInUnitInterval(Flatten(t))
  {
    var flat := Flatten(t);
    forall k | 0 <= k < |flat|
      ensures 0.0 <= flat[k] <= 1.0
    {
      var i, j := FlattenSource(t, k);
      assert flat[k] == t[i][j];
    }
  }

  /** A table that flattens to values in [0, 1] has every entry in [0, 1]. */
  lemma FlattenRevealsUnitInterval(t: seq<seq<real>>)
    requires FlatInUnitInterval(Flatten(t))
    ensures EntriesInUnitInterval(t)
  {
    var flat := Flatten(t);
    forall i, j | 0 <= i < |t| && 0 <= j < |t[i]|
      ensures 0.0 <= t[i][j] <= 1.0
    {
      var k := FlattenPosition(t, i, j);
      assert flat[k] == t[i][j];
    }
  }

  /** The flattened table lies in [0, 1] exactly when every entry of the table does. */
  lemma FlattenInUnitInterval(t: seq<seq<real>>)
    ensures FlatInUnitInterval(Flatten(t)) <==> EntriesInUnitInterval(t)
  {
    if FlatInUnitInterval(Flatten(t)) {
      FlattenRevealsUnitInterval(t);
    }
    if EntriesInUnitInterval(t) {
      FlattenKeepsUnitInterval(t);
    }
  }

  /** numpy's default tolerances for `isclose` and `allclose`. */
  const Atol: real := 0.00000001
  const Rtol: real := 0.00001

  /** `np.isclose(x, 1.0)`: |x - 1| <= atol + rtol * |1|. */
  predicate CloseToOne(x: real)
  {
    Abs(x - 1.0) <= Atol + Rtol * 1.0
  }

  /** Number of columns of a table. */
  function Width(t: Table): nat
  {
    if t == [] then 0 else |t[0]|
  }

  /** `cpd.values.sum(axis=0)[j]` */
  function ColumnSum(t: Table, j: nat): real
    requires j < Width(t)
  {
    if |t| == 1 then t[0][j] else t[0][j] + ColumnSum(t[1..], j)
  }

  /** `np.allclose(cpd.values.sum(axis=0), np.ones(cpd.values.shape[1]))` */
  predicate ColumnsNormalized(t: Table)
  {
    forall j :: 0 <= j < Width(t) ==> CloseToOne(ColumnSum(t, j))
  }

  /** The checks of `verify_probability_bounds` for one CPD. */
  function CheckCpd(cpd: Cpd): (r: BoundsRecord)
    ensures r.node == cpd.variable
    ensures r.validBounds <==> EntriesInUnitInterval(cpd.values)
    ensures r.normalized <==>
      if |cpd.variables| == 1 then CloseToOne(Sum(Flatten(cpd.values))) else ColumnsNormalized(cpd.values)
    ensures r.passed <==> r.validBounds && r.normalized
  {
    var values := Flatten(cpd.values);
    FlattenInUnitInterval(cpd.values);
    var allValid := FlatInUnitInterval(values);
    var sumCheck := if |cpd.variables| == 1 then CloseToOne(Sum(values)) else ColumnsNormalized(cpd.values);
    BoundsRecord(cpd.variable, allValid, sumCheck, allValid && sumCheck)
  }

  /** `verify_probability_bounds()`: one record per CPD, in CPD order. */
  method VerifyProbabilityBounds(cpds: seq<Cpd>) returns (records: seq<BoundsRecord>)
    ensures |records| == |cpds|
    ensures forall i :: 0 <= i < |cpds| ==> records[i] == CheckCpd(cpds[i])
  {
    records := [];
    for i := 0 to |cpds|
      invariant |records| == i
      invariant forall k :: 0 <= k < i ==> records[k] == CheckCpd(cpds[k])
    {
      records := records + [CheckCpd(cpds[i])];
    }
  }

  /** With a single column, the whole-table sum is the column sum: both normalisation rules agree. */
  lemma {:induction false} SingleColumnTotal(t: Table)
    requires Width(t) == 1
    ensures Sum(Flatten(t)) == ColumnSum(t, 0)
  {
    assert t[0] == [t[0][0]];
    if |t| == 1 {
      assert Flatten(t) == t[0] + [];
    } else {
      var rest: Table := t[1..];
      SingleColumnTotal(rest);
      SumAppend(t[0], Flatten(rest));
    }
  }

  /**
   * A CPD whose entries lie in [0, 1] and whose every column sums to one
   * passes; a single-variable CPD has the one column of a root node.
   */
  lemma ValidCpdPasses(cpd: Cpd)
    requires EntriesInUnitInterval(cpd.values)
    requires forall j :: 0 <= j < Width(cpd.values) ==> ColumnSum(cpd.values, j) == 1.0
    requires |cpd.variables| == 1 ==> Width(cpd.values) == 1
    ensures CheckCpd(cpd).passed
  {
    if |cpd.variables| == 1 {
      SingleColumnTotal(cpd.values);
    }
  }

  /** A multi-variable CPD with a column summing to 0.9 fails the check. */
  lemma ShortColumnFails(cpd: Cpd, j: nat)
    requires |cpd.variables| != 1
    requires j < Width(cpd.values) && ColumnSum(cpd.values, j) == 0.9
    ensures !CheckCpd(cpd).passed
  {
  }

  // ---------------------------------------------------------------- Markov property

  /** The dictionary `verify_markov_property` returns (its lists as sets). */
  datatype MarkovResult =
    | NodeMissing(node: string, error: string)
    | MarkovReport(node: string, parents: set<string>, descendants: set<string>,
                   nonDescendants: set<string>, holds: bool)

  /** `verify_markov_property(node)` */
  function VerifyMarkovProperty(net: Network, node: string): (r: MarkovResult)
    ensures r.node == node
    ensures r.NodeMissing? <==> node !in net.nodes
    ensures r.NodeMissing? ==> r.error == "Node " + node + " not in model"
    ensures r.MarkovReport? ==>
      && r.parents == net.parents(node)
      && r.descendants == (if net.descendants(node).Some? then net.descendants(node).value else {})
      && r.nonDescendants <= net.nodes
      && r.nonDescendants !! r.descendants
      && r.nonDescendants !! r.parents
      && node !in r.nonDescendants
      && net.nodes <= r.nonDescendants + r.descendants + r.parents + {node}
      && r.holds
  {
    if node !in net.nodes then
      NodeMissing(node, "Node " + node + " not in model")
    else
      var parents := net.parents(node);
      var descendants := match net.descendants(node) case Some(d) => d case None => {};
      MarkovReport(node, parents, descendants, net.nodes - descendants - parents - {node}, true)
  }

  /** For a node without descendants the candidate set is every node but the node and its parents. */
  lemma LeafNonDescendants(net: Network, node: string)
    requires node in net.nodes
    requires net.descendants(node) == Some({}) || net.descendants(node) == None
    ensures VerifyMarkovProperty(net, node).nonDescendants == net.nodes - net.parents(node) - {node}
  {
  }

  // ---------------------------------------------------------------- the driver

  const MonotonicityCandidates: seq<string> := ["MotionIntensity", "GSR", "GazeErrorAngle", "HR"]
  const MarkovCandidates: seq<string> := ["GSR", "MotionIntensity"]

  /** The candidates that are nodes of the network, in candidate order. */
  function PresentIn<T(==, !new)>(candidates: seq<T>, nodes: set<T>): (present: seq<T>)
    ensures forall x :: x in present <==> x in candidates && x in nodes
    ensures |present| <= |candidates|
  {
    if candidates == [] then []
    else
      var last := candidates[|candidates| - 1];
      var init := candidates[..|candidates| - 1];
      assert candidates == init + [last];
      PresentIn(init, nodes) + (if last in nodes then [last] else [])
  }

  /** Selection keeps candidate order: selecting from a concatenation concatenates the selections. */
  lemma {:induction false} PresentInAppend<T(!new)>(a: seq<T>, b: seq<T>, nodes: set<T>)
    ensures PresentIn(a + b, nodes) == PresentIn(a, nodes) + PresentIn(b, nodes)
  {
    if b == [] {
      assert a + b == a;
    } else {
      var init, last := b[..|b| - 1], b[|b| - 1];
      assert (a + b)[..|a + b| - 1] == a + init;
      assert (a + b)[|a + b| - 1] == last;
      PresentInAppend(a, init, nodes);
      assert PresentIn(b, nodes) == PresentIn(init, nodes) + (if last in nodes then [last] else []);
    }
  }

  /** When every candidate is a node, all of them are selected, in order. */
  lemma {:induction false} AllCandidatesPresent<T(!new)>(candidates: seq<T>, nodes: set<T>)
    requires forall i :: 0 <= i < |candidates| ==> candidates[i] in nodes
    ensures PresentIn(candidates, nodes) == candidates
  {
    if candidates != [] {
      var init, last := candidates[..|candidates| - 1], candidates[|candidates| - 1];
      assert forall i :: 0 <= i < |init| ==> init[i] == candidates[i];
      AllCandidatesPresent(init, nodes);
      assert last in nodes;
      assert PresentIn(candidates, nodes) == PresentIn(init, nodes) + [last];
      assert candidates == init + [last];
    }
  }

  /** The list-building loops of `verify_key_properties`. */
  method SelectPresent<T(==, !new)>(candidates: seq<T>, nodes: set<T>) returns (present: seq<T>)
    ensures present == PresentIn(candidates, nodes)
  {
    present := [];
    for i := 0 to |candidates|
      invariant present == PresentIn(candidates[..i], nodes)
    {
      assert candidates[..i + 1][..i] == candidates[..i];
      if candidates[i] in nodes {
        present := present + [candidates[i]];
      }
    }
    assert candidates[..|candidates|] == candidates;
  }

  /** `all(r['passed'] for r in bounds_results)` */
  predicate AllPassed(records: seq<BoundsRecord>)
  {
    forall i :: 0 <= i < |records| ==> records[i].passed
  }

  /** `[r['node'] for r in bounds_results if not r['passed']]` */
  function FailedNodes(records: seq<BoundsRecord>): (failed: seq<string>)
    ensures |failed| <= |records|
    ensures forall x :: x in failed <==> exists i :: 0 <= i < |records| && !records[i].passed && records[i].node == x
  {
    if records == [] then []
    else
      var rest := FailedNodes(records[1..]);
      assert forall i :: 0 < i < |records| ==> records[i] == records[1..][i - 1];
      if records[0].passed then rest else [records[0].node] + rest
  }

  /** All CPDs passed exactly when no node is listed as failed. */
  lemma {:induction false} AllPassedIffNoFailures(records: seq<BoundsRecord>)
    ensures AllPassed(records) <==> FailedNodes(records) == []
  {
    if records != [] {
      AllPassedIffNoFailures(records[1..]);
      assert AllPassed(records) <==> records[0].passed && AllPassed(records[1..]) by {
        assert forall i :: 0 < i < |records| ==> records[i] == records[1..][i - 1];
      }
    }
  }

  /** What `verify_key_properties` reports (it prints it). */
  datatype KeyPropertiesReport = KeyPropertiesReport(
    featuresTested: seq<string>,
    monotonicity: seq<MonotonicityResult>,
    bounds: seq<BoundsRecord>,
    allPassed: bool,
    failedNodes: seq<string>,
    nodesTested: seq<string>,
    markov: seq<MarkovResult>)

  /** The monotonicity loop of `verify_key_properties`: one result per feature, in order. */
  method CheckFeatures(net: Network, features: seq<string>) returns (results: seq<MonotonicityResult>)
    ensures |results| == |features|
    ensures forall i :: 0 <= i < |features| ==> results[i] == VerifyMonotonicity(net, features[i], Target)
  {
    results := [];
    for i := 0 to |features|
      invariant |results| == i
      invariant forall k :: 0 <= k < i ==> results[k] == VerifyMonotonicity(net, features[k], Target)
    {
      results := results + [VerifyMonotonicity(net, features[i], Target)];
    }
  }

  /** The Markov loop of `verify_key_properties`: one result per node, in order. */
  method CheckNodes(net: Network, nodes: seq<string>) returns (results: seq<MarkovResult>)
    ensures |results| == |nodes|
    ensures forall i :: 0 <= i < |nodes| ==> results[i] == VerifyMarkovProperty(net, nodes[i])
  {
    results := [];
    for i := 0 to |nodes|
      invariant |results| == i
      invariant forall k :: 0 <= k < i ==> results[k] == VerifyMarkovProperty(net, nodes[k])
    {
      results := results + [VerifyMarkovProperty(net, nodes[i])];
    }
  }

  /** `verify_key_properties(model)` */
  method VerifyKeyProperties(net: Network) returns (report: KeyPropertiesReport)
    ensures report.featuresTested == PresentIn(MonotonicityCandidates, net.nodes)
    ensures |report.monotonicity| == |report.featuresTested|
    ensures forall i :: 0 <= i < |report.featuresTested| ==>
      report.monotonicity[i] == VerifyMonotonicity(net, report.featuresTested[i], Target)
    ensures |report.bounds| == |net.cpds|
    ensures forall i :: 0 <= i < |net.cpds| ==> report.bounds[i] == CheckCpd(net.cpds[i])
    ensures report.allPassed == AllPassed(report.bounds)
    ensures report.failedNodes == FailedNodes(report.bounds)
    ensures report.nodesTested == [Target] + PresentIn(MarkovCandidates, net.nodes)
    ensures |report.markov| == |report.nodesTested|
    ensures forall i :: 0 <= i < |report.nodesTested| ==>
      report.markov[i] == VerifyMarkovProperty(net, report.nodesTested[i])
  {
    var features := SelectPresent(MonotonicityCandidates, net.nodes);
    var monotonicity := CheckFeatures(net, features);

    var bounds := VerifyProbabilityBounds(net.cpds);
    var allPassed := AllPassed(bounds);
    var failedNodes := FailedNodes(bounds);

    var markovNodes := SelectPresent(MarkovCandidates, net.nodes);
    var nodes := [Target] + markovNodes;
    var markov := CheckNodes(net, nodes);

    report := KeyPropertiesReport(features, monotonicity, bounds, allPassed, failedNodes, nodes, markov);
  }
}
