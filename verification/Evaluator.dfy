/** The policy condition language: path resolution, field checks, eager compounds, evidence. */
module Evaluator {
  import opened Wrappers
  import opened Json

  // ----- paths

  /** `path.split(".")`. */
  function Split(path: string): (parts: seq<string>)
    ensures parts != []
  {
    if path == "" then [""]
    else
      var rest := Split(path[1..]);
      if path[0] == '.' then [""] + rest else [[path[0]] + rest[0]] + rest[1..]
  }

  ghost function JoinDots(parts: seq<string>): string
    requires parts != []
  {
    if |parts| == 1 then parts[0] else parts[0] + "." + JoinDots(parts[1..])
  }

  /** Splitting loses nothing, and no part holds a dot. */
  lemma {:induction false} SplitRoundTrip(path: string)
    ensures JoinDots(Split(path)) == path
    ensures forall i | 0 <= i < |Split(path)| :: '.' !in Split(path)[i]
  {
    if path != "" {
      SplitRoundTrip(path[1..]);
      var rest := Split(path[1..]);
      var parts := Split(path);
      if path[0] == '.' {
        assert parts[1..] == rest;
      } else if |rest| > 1 {
        assert parts[1..] == rest[1..];
        assert path == [path[0]] + path[1..];
      }
    }
  }

  lemma {:induction false} SplitWithoutDot(path: string)
    requires '.' !in path
    ensures Split(path) == [path]
  {
    if path != "" {
      SplitWithoutDot(path[1..]);
      assert path == [path[0]] + path[1..];
    }
  }

  /** The value at a list of keys; None is the engine's distinguished missing marker. */
  function ResolveParts(current: Json, parts: seq<string>): Option<Json> {
    if parts == [] then Some(current)
    else if !current.Obj? || parts[0] !in current.fields then None
    else ResolveParts(current.fields[parts[0]], parts[1..])
  }

  function Resolve(asset: Json, path: string): Option<Json> {
    ResolveParts(asset, Split(path))
  }

  /** The loop of _resolve_path. */
  method ResolvePath(asset: Json, path: string) returns (r: Option<Json>)
    ensures r == Resolve(asset, path)
  {
    var parts := Split(path);
    var current := asset;
    for i := 0 to |parts|
      invariant ResolveParts(current, parts[i..]) == Resolve(asset, path)
    {
      if !current.Obj? || parts[i] !in current.fields {
        return None;
      }
      current := current.fields[parts[i]];
    }
    r := Some(current);
  }

  // ----- conditions

  datatype Operator =
    | Missing
    | Exists
    | Eq
    | Ne
    | Ordered(op: Ordering)
    | In
    | NotIn
    | IsTrue
    | IsFalse
    | Unsupported

  datatype Connective = And | Or | UnsupportedConnective

  /** A condition tree. Malformed stands for a node whose type is unknown or whose required
      keys are absent; evaluating it raises. */
  datatype Node =
    | FieldCheck(path: string, operator: Operator, expected: Json)
    | Compound(connective: Connective, conditions: seq<Node>)
    | Malformed

  datatype Logic = FailWhen(condition: Node) | Plain(node: Node) | UnsupportedLogic

  datatype Verdict = Is(holds: bool) | Raised

  function FromOption(r: Option<bool>): Verdict {
    match r
    case None => Raised
    case Some(b) => Is(b)
  }

  function Negate(v: Verdict): Verdict {
    match v
    case Raised => Raised
    case Is(b) => Is(!b)
  }

  function CheckField(asset: Json, path: string, operator: Operator, expected: Json): Verdict {
    var actual := Resolve(asset, path);
    if operator == Missing then Is(actual.None?)
    else if operator == Exists then Is(actual.Some?)
    else if actual.None? then Is(false)
    else CheckValue(operator, actual.value, expected)
  }

  function CheckValue(operator: Operator, actual: Json, expected: Json): Verdict
    requires operator != Missing && operator != Exists
  {
    match operator
    case Eq => Is(PyEq(actual, expected))
    case Ne => Is(!PyEq(actual, expected))
    case Ordered(op) => FromOption(Compare(op, actual, expected))
    case In => FromOption(Member(actual, expected))
    case NotIn => Negate(FromOption(Member(actual, expected)))
    case IsTrue => Is(Truthy(actual))
    case IsFalse => Is(!Truthy(actual))
    case _ => Raised
  }

  function Evaluate(asset: Json, node: Node): Verdict {
    match node
    case FieldCheck(path, operator, expected) => CheckField(asset, path, operator, expected)
    case Compound(connective, conditions) => Combine(connective, EvaluateAll(asset, conditions))
    case Malformed => Raised
  }

  /** Every child is evaluated before the connective is looked at; None when any of them raises. */
  function EvaluateAll(asset: Json, conditions: seq<Node>): Option<seq<bool>> {
    if conditions == [] then Some([])
    else
      match (Evaluate(asset, conditions[0]), EvaluateAll(asset, conditions[1..]))
      case (Is(b), Some(bs)) => Some([b] + bs)
      case _ => None
  }

  function Combine(connective: Connective, results: Option<seq<bool>>): Verdict {
    if results.None? then Raised
    else
      match connective
      case And => Is(false !in results.value)
      case Or => Is(true in results.value)
      case UnsupportedConnective => Raised
  }

  /** Is(true) when the policy fails on the asset. */
  function EvaluateLogic(asset: Json, logic: Logic): Verdict {
    match logic
    case FailWhen(condition) => Evaluate(asset, condition)
    case Plain(node) => Evaluate(asset, node)
    case UnsupportedLogic => Raised
  }

  /** When a field check raises: never on a missing path, whatever the operator. */
  lemma CheckRaises(asset: Json, path: string, operator: Operator, expected: Json)
    ensures CheckField(asset, path, operator, expected).Raised? <==>
              && Resolve(asset, path).Some?
              && var actual := Resolve(asset, path).value;
                 || operator == Unsupported
                 || (operator.Ordered? && Compare(operator.op, actual, expected).None?)
                 || ((operator == In || operator == NotIn) && Member(actual, expected).None?)
  {
  }

  /** So an unsupported operator goes unnoticed on an asset that lacks the path. */
  lemma UnsupportedOperatorOnMissingPath()
    ensures CheckField(Obj(map[]), "mfa", Unsupported, Null) == Is(false)
    ensures CheckField(Obj(map["mfa" := Bool(true)]), "mfa", Unsupported, Null) == Raised
  {
    SplitWithoutDot("mfa");
    assert ResolveParts(Bool(true), ["mfa"][1..]) == Some(Bool(true));
  }

  lemma {:induction false} AllEvaluated(asset: Json, conditions: seq<Node>)
    ensures EvaluateAll(asset, conditions).None? <==> exists i :: 0 <= i < |conditions| && Evaluate(asset, conditions[i]).Raised?
    ensures EvaluateAll(asset, conditions).Some? ==>
              var results := EvaluateAll(asset, conditions).value;
              |results| == |conditions| && forall i | 0 <= i < |results| :: Evaluate(asset, conditions[i]) == Is(results[i])
    decreases conditions
  {
    if conditions != [] {
      AllEvaluated(asset, conditions[1..]);
      if i :| 0 <= i < |conditions[1..]| && Evaluate(asset, conditions[1..][i]).Raised? {
        assert Evaluate(asset, conditions[i + 1]).Raised?;
      }
      if i :| 0 <= i < |conditions| && Evaluate(asset, conditions[i]).Raised? {
        assert i > 0 ==> Evaluate(asset, conditions[1..][i - 1]).Raised?;
      }
    }
  }

  /** A compound raises when its connective is unknown or any child raises, even a child that
      could not change the result; otherwise "and" asks all children and "or" asks one. */
  lemma CompoundMeaning(asset: Json, connective: Connective, conditions: seq<Node>)
    ensures var verdict := Evaluate(asset, Compound(connective, conditions));
            && (verdict.Raised? <==>
                  connective.UnsupportedConnective? || exists i :: 0 <= i < |conditions| && Evaluate(asset, conditions[i]).Raised?)
            && (connective == And && !verdict.Raised? ==>
                  (verdict.holds <==> forall i | 0 <= i < |conditions| :: Evaluate(asset, conditions[i]) == Is(true)))
            && (connective == Or && !verdict.Raised? ==>
                  (verdict.holds <==> exists i :: 0 <= i < |conditions| && Evaluate(asset, conditions[i]) == Is(true)))
  {
    AllEvaluated(asset, conditions);
    if EvaluateAll(asset, conditions).Some? {
      var results := EvaluateAll(asset, conditions).value;
      if true in results {
        var i :| 0 <= i < |results| && results[i];
        assert Evaluate(asset, conditions[i]) == Is(true);
      }
      if false in results {
        var i :| 0 <= i < |results| && !results[i];
        assert Evaluate(asset, conditions[i]) == Is(false);
      }
    }
  }

  // ----- evidence

  function Evidence(asset: Json, fields: seq<string>): map<string, Json> {
    map f | f in fields && Resolve(asset, f).Some? :: Resolve(asset, f).value
  }

  /** The loop of build_evidence. */
  method BuildEvidence(asset: Json, fields: seq<string>) returns (evidence: map<string, Json>)
    ensures evidence == Evidence(asset, fields)
  {
    evidence := map[];
    for i := 0 to |fields|
      invariant evidence == Evidence(asset, fields[..i])
    {
      var value := ResolvePath(asset, fields[i]);
      if value.Some? {
        evidence := evidence[fields[i] := value.value];
      }
      assert fields[..i + 1] == fields[..i] + [fields[i]];
    }
    assert fields[..|fields|] == fields;
  }

  // ----- duality

  function DualOperator(operator: Operator): Operator {
    match operator
    case Missing => Exists
    case Exists => Missing
    case Eq => Ne
    case Ne => Eq
    case Ordered(op) => Ordered(Opposite(op))
    case In => NotIn
    case NotIn => In
    case IsTrue => IsFalse
    case IsFalse => IsTrue
    case Unsupported => Unsupported
  }

  function DualConnective(connective: Connective): Connective {
    match connective
    case And => Or
    case Or => And
    case UnsupportedConnective => UnsupportedConnective
  }

  /** Swap every operator and connective of the tree for its opposite. */
  function Dual(node: Node): Node {
    match node
    case FieldCheck(path, operator, expected) => FieldCheck(path, DualOperator(operator), expected)
    case Compound(connective, conditions) => Compound(DualConnective(connective), DualAll(conditions))
    case Malformed => Malformed
  }

  function DualAll(conditions: seq<Node>): (duals: seq<Node>)
    ensures |duals| == |conditions|
  {
    if conditions == [] then [] else [Dual(conditions[0])] + DualAll(conditions[1..])
  }

  /** A field check is regular on an asset when it tests presence, or when the path is present
      and no NaN decides an ordering. */
  predicate RegularCheck(asset: Json, path: string, operator: Operator, expected: Json) {
    var actual := Resolve(asset, path);
    || operator == Missing
    || operator == Exists
    || (actual.Some? && (operator.Ordered? && Compare(operator.op, actual.value, expected).Some?
                         ==> !NaNDecides(actual.value, expected)))
  }

  predicate Regular(asset: Json, node: Node) {
    match node
    case FieldCheck(path, operator, expected) => RegularCheck(asset, path, operator, expected)
    case Compound(_, conditions) => forall i | 0 <= i < |conditions| :: Regular(asset, conditions[i])
    case Malformed => true
  }

  /** For one field check, duality holds exactly on the assets where the check is regular. */
  lemma CheckDuality(asset: Json, path: string, operator: Operator, expected: Json)
    ensures CheckField(asset, path, DualOperator(operator), expected) == Negate(CheckField(asset, path, operator, expected))
            <==> RegularCheck(asset, path, operator, expected)
    ensures CheckField(asset, path, DualOperator(operator), expected).Raised?
            <==> CheckField(asset, path, operator, expected).Raised?
  {
    var actual := Resolve(asset, path);
    if operator.Ordered? && actual.Some? {
      OppositeNegates(operator.op, actual.value, expected);
    }
  }

  lemma {:induction false} CombineDual(connective: Connective, bs: seq<bool>, ds: seq<bool>)
    requires |bs| == |ds| && forall i | 0 <= i < |bs| :: ds[i] == !bs[i]
    ensures Combine(DualConnective(connective), Some(ds)) == Negate(Combine(connective, Some(bs)))
  {
    if false in bs {
      var i :| 0 <= i < |bs| && bs[i] == false;
      assert ds[i];
    }
    if true in bs {
      var i :| 0 <= i < |bs| && bs[i];
      assert !ds[i];
    }
    if true in ds {
      var i :| 0 <= i < |ds| && ds[i];
      assert !bs[i];
    }
    if false in ds {
      var i :| 0 <= i < |ds| && ds[i] == false;
      assert bs[i];
    }
  }

  /** Duality: on an asset where every check is regular, the dual tree raises when the tree
      raises and otherwise gives the opposite verdict. */
  lemma {:induction false} Duality(asset: Json, node: Node)
    requires Regular(asset, node)
    ensures Evaluate(asset, Dual(node)) == Negate(Evaluate(asset, node))
    decreases node
  {
    match node
    case FieldCheck(path, operator, expected) => CheckDuality(asset, path, operator, expected);
    case Malformed =>
    case Compound(connective, conditions) =>
      DualityAll(asset, conditions);
      if EvaluateAll(asset, conditions).Some? {
        CombineDual(connective, EvaluateAll(asset, conditions).value, EvaluateAll(asset, DualAll(conditions)).value);
      }
  }

  lemma {:induction false} DualityAll(asset: Json, conditions: seq<Node>)
    requires forall i | 0 <= i < |conditions| :: Regular(asset, conditions[i])
    ensures var bs, ds := EvaluateAll(asset, conditions), EvaluateAll(asset, DualAll(conditions));
            (bs.Some? <==> ds.Some?) &&
            (bs.Some? ==> |bs.value| == |ds.value| && forall i | 0 <= i < |bs.value| :: ds.value[i] == !bs.value[i])
    decreases conditions
  {
    if conditions != [] {
      Duality(asset, conditions[0]);
      DualityAll(asset, conditions[1..]);
      assert DualAll(conditions)[1..] == DualAll(conditions[1..]);
    }
  }

  /** On every asset, regular or not, a tree and its dual raise together. */
  lemma {:induction false} DualRaisesTogether(asset: Json, node: Node)
    ensures Evaluate(asset, Dual(node)).Raised? <==> Evaluate(asset, node).Raised?
    decreases node
  {
    match node
    case FieldCheck(path, operator, expected) => CheckDuality(asset, path, operator, expected);
    case Malformed =>
    case Compound(_, conditions) => DualRaisesTogetherAll(asset, conditions);
  }

  lemma {:induction false} DualRaisesTogetherAll(asset: Json, conditions: seq<Node>)
    ensures EvaluateAll(asset, DualAll(conditions)).None? <==> EvaluateAll(asset, conditions).None?
    decreases conditions
  {
    if conditions != [] {
      DualRaisesTogether(asset, conditions[0]);
      DualRaisesTogetherAll(asset, conditions[1..]);
      assert DualAll(conditions)[1..] == DualAll(conditions[1..]);
    }
  }

  /** Duality at the node and at every node below it. */
  ghost predicate DualEverywhere(asset: Json, node: Node) {
    && Evaluate(asset, Dual(node)) == Negate(Evaluate(asset, node))
    && (node.Compound? ==> forall i | 0 <= i < |node.conditions| :: DualEverywhere(asset, node.conditions[i]))
  }

  /** No node of a tree breaks duality exactly when every field check of the tree is regular. */
  lemma {:induction false} DualityIsExact(asset: Json, node: Node)
    ensures DualEverywhere(asset, node) <==> Regular(asset, node)
    decreases node
  {
    match node
    case FieldCheck(path, operator, expected) => CheckDuality(asset, path, operator, expected);
    case Malformed =>
    case Compound(_, conditions) =>
      forall i | 0 <= i < |conditions| ensures DualEverywhere(asset, conditions[i]) <==> Regular(asset, conditions[i]) {
        DualityIsExact(asset, conditions[i]);
      }
      if Regular(asset, node) {
        Duality(asset, node);
      }
  }

  lemma {:induction false} DualInvolution(node: Node)
    ensures Dual(Dual(node)) == node
    decreases node
  {
    match node
    case FieldCheck(_, _, _) =>
    case Malformed =>
    case Compound(_, conditions) => DualInvolutionAll(conditions);
  }

  lemma {:induction false} DualInvolutionAll(conditions: seq<Node>)
    ensures DualAll(DualAll(conditions)) == conditions
    decreases conditions
  {
    if conditions != [] {
      DualInvolution(conditions[0]);
      DualInvolutionAll(conditions[1..]);
      assert DualAll(conditions)[1..] == DualAll(conditions[1..]);
    }
  }

  // ----- locality

  function Paths(node: Node): set<string> {
    match node
    case FieldCheck(path, _, _) => {path}
    case Compound(_, conditions) => PathsAll(conditions)
    case Malformed => {}
  }

  function PathsAll(conditions: seq<Node>): set<string> {
    if conditions == [] then {} else Paths(conditions[0]) + PathsAll(conditions[1..])
  }

  function LogicPaths(logic: Logic): set<string> {
    match logic
    case FailWhen(condition) => Paths(condition)
    case Plain(node) => Paths(node)
    case UnsupportedLogic => {}
  }

  ghost predicate AgreeOn(a: Json, b: Json, paths: set<string>) {
    forall p | p in paths :: Resolve(a, p) == Resolve(b, p)
  }

  /** A verdict depends only on what the mentioned paths resolve to. */
  lemma {:induction false} Coincidence(a: Json, b: Json, node: Node)
    requires AgreeOn(a, b, Paths(node))
    ensures Evaluate(a, node) == Evaluate(b, node)
    decreases node
  {
    match node
    case FieldCheck(path, _, _) => assert path in Paths(node);
    case Malformed =>
    case Compound(_, conditions) => CoincidenceAll(a, b, conditions);
  }

  lemma {:induction false} CoincidenceAll(a: Json, b: Json, conditions: seq<Node>)
    requires AgreeOn(a, b, PathsAll(conditions))
    ensures EvaluateAll(a, conditions) == EvaluateAll(b, conditions)
    decreases conditions
  {
    if conditions != [] {
      Coincidence(a, b, conditions[0]);
      CoincidenceAll(a, b, conditions[1..]);
    }
  }

  /** The asset with the value at an existing path replaced. */
  function Update(current: Json, parts: seq<string>, value: Json): Json
    requires ResolveParts(current, parts).Some?
  {
    if parts == [] then value
    else Obj(current.fields[parts[0] := Update(current.fields[parts[0]], parts[1..], value)])
  }

  /** Updating reads back, and nothing at an incomparable path moves. */
  lemma {:induction false} UpdateFrame(current: Json, parts: seq<string>, value: Json, other: seq<string>)
    requires ResolveParts(current, parts).Some?
    ensures ResolveParts(Update(current, parts, value), parts) == Some(value)
    ensures !(parts <= other) && !(other <= parts) ==>
              ResolveParts(Update(current, parts, value), other) == ResolveParts(current, other)
  {
    if parts != [] {
      if other != [] && other[0] == parts[0] {
        UpdateFrame(current.fields[parts[0]], parts[1..], value, other[1..]);
        if parts[1..] <= other[1..] {
          assert parts == [parts[0]] + parts[1..];
        }
        if other[1..] <= parts[1..] {
          assert other == [other[0]] + other[1..];
        }
      } else {
        UpdateFrame(current.fields[parts[0]], parts[1..], value, []);
      }
    }
  }

  ghost predicate Incomparable(p: string, q: string) {
    !(Split(p) <= Split(q)) && !(Split(q) <= Split(p))
  }

  /** Locality: replacing the value at an existing path that is neither prefix nor extension of
      any path mentioned by the logic or the evidence fields changes neither verdict, nor error,
      nor evidence. */
  lemma Locality(asset: Json, target: string, value: Json, logic: Logic, fields: seq<string>)
    requires Resolve(asset, target).Some?
    requires forall p | p in LogicPaths(logic) || p in fields :: Incomparable(target, p)
    ensures var updated := Update(asset, Split(target), value);
            && EvaluateLogic(updated, logic) == EvaluateLogic(asset, logic)
            && Evidence(updated, fields) == Evidence(asset, fields)
  {
    var updated := Update(asset, Split(target), value);
    forall p | p in LogicPaths(logic) || p in fields
      ensures Resolve(updated, p) == Resolve(asset, p)
    {
      UpdateFrame(asset, Split(target), value, Split(p));
    }
    match logic
    case FailWhen(condition) => Coincidence(updated, asset, condition);
    case Plain(node) => Coincidence(updated, asset, node);
    case UnsupportedLogic =>
  }

  /** Duality is lost on an asset that lacks the path: both checks answer False. */
  lemma DualityNeedsPresence()
    ensures var node := FieldCheck("mfa", Eq, Bool(true));
            Evaluate(Obj(map[]), node) == Is(false) && Evaluate(Obj(map[]), Dual(node)) == Is(false)
  {
    assert Split("mfa") != [];
    assert Resolve(Obj(map[]), "mfa") == None;
  }
}
