/**
  The condition language of an automation rule (packages/automations/src/conditions.ts).

  `Walk` validates untyped JSON and builds a tree, `Evaluate` interprets the tree on the fields of
  an event.  The two main results: parsing is a bijection between the accepted inputs and the
  legal trees, and on the events a rule can receive the interpreter is classical two-valued logic.
*/
module Conditions {
  import opened Common

  /** An `unknown` value: whatever `JSON.parse` may have produced. */
  datatype Raw =
    | RawNull
    | RawBool(b: bool)
    | RawNumber(n: real)
    | RawString(s: string)
    | RawArray(elems: seq<Raw>)
    | RawObject(members: map<string, Raw>)

  datatype CompareOp = Eq | Neq | Lt | Lte | Gt | Gte | Contains

  datatype LogicOp = And | Or

  datatype Field =
    | Status | PreviousStatus | IntegrationType | IntegrationId | ErrorCode | JobType
    | ServiceKey | SloId | BurnState | Window | ImpactStatus

  datatype Value = StringValue(s: string) | NumberValue(n: real) | BoolValue(b: bool)

  datatype Node =
    | Compare(cmp: CompareOp, field: Field, value: Value)
    | Logic(op: LogicOp, nodes: seq<Node>)

  datatype Error =
    | TooDeep | InvalidCondition | InvalidNodes | UnknownField | InvalidOperator
    | ContainsNeedsString | NumericNeedsNumber | TypeMismatch | TooManyNodes | NoConditions

  const MAX_DEPTH := 4
  const MAX_NODES := 16
  const MAX_STRING := 256
  const MAX_CHILDREN := 8

  // ---------------------------------------------------------------- names

  function CompareOpOf(name: string): Option<CompareOp> {
    if name == "eq" then Some(Eq)
    else if name == "neq" then Some(Neq)
    else if name == "lt" then Some(Lt)
    else if name == "lte" then Some(Lte)
    else if name == "gt" then Some(Gt)
    else if name == "gte" then Some(Gte)
    else if name == "contains" then Some(Contains)
    else None
  }

  function CompareOpName(op: CompareOp): string {
    match op
    case Eq => "eq"
    case Neq => "neq"
    case Lt => "lt"
    case Lte => "lte"
    case Gt => "gt"
    case Gte => "gte"
    case Contains => "contains"
  }

  function LogicOpName(op: LogicOp): string {
    match op
    case And => "and"
    case Or => "or"
  }

  function FieldOf(name: string): Option<Field> {
    if name == "status" then Some(Status)
    else if name == "previousStatus" then Some(PreviousStatus)
    else if name == "integrationType" then Some(IntegrationType)
    else if name == "integrationId" then Some(IntegrationId)
    else if name == "errorCode" then Some(ErrorCode)
    else if name == "jobType" then Some(JobType)
    else if name == "serviceKey" then Some(ServiceKey)
    else if name == "sloId" then Some(SloId)
    else if name == "burnState" then Some(BurnState)
    else if name == "window" then Some(Window)
    else if name == "impactStatus" then Some(ImpactStatus)
    else None
  }

  function FieldName(f: Field): string {
    match f
    case Status => "status"
    case PreviousStatus => "previousStatus"
    case IntegrationType => "integrationType"
    case IntegrationId => "integrationId"
    case ErrorCode => "errorCode"
    case JobType => "jobType"
    case ServiceKey => "serviceKey"
    case SloId => "sloId"
    case BurnState => "burnState"
    case Window => "window"
    case ImpactStatus => "impactStatus"
  }

  // ---------------------------------------------------------------- parsing

  function ParseValue(raw: Raw): Option<Value> {
    match raw
    case RawString(s) => if 1 <= |s| && Utf16Length(s) <= MAX_STRING then Some(StringValue(s)) else None
    case RawNumber(n) => Some(NumberValue(n))
    case RawBool(b) => Some(BoolValue(b))
    case _ => None
  }

  /** The type rules for a comparison.  Every field holds a string. */
  function CheckTypes(op: CompareOp, value: Value): Option<Error> {
    if op == Contains then
      if value.StringValue? then None else Some(ContainsNeedsString)
    else if op in {Lt, Lte, Gt, Gte} then
      Some(NumericNeedsNumber)
    else if !value.StringValue? then Some(TypeMismatch)
    else None
  }

  function Lookup(members: map<string, Raw>, key: string): Option<Raw> {
    if key in members then Some(members[key]) else None
  }

  function WalkCompare(members: map<string, Raw>, allowed: set<Field>): Result<Node, Error> {
    match Lookup(members, "op")
    case Some(RawString(opName)) =>
      (match CompareOpOf(opName)
       case None => Err(InvalidOperator)
       case Some(op) =>
         match Lookup(members, "field")
         case Some(RawString(fieldName)) =>
           (match FieldOf(fieldName)
            case None => Err(UnknownField)
            case Some(field) =>
              if members.Keys != {"op", "field", "value"} then Err(InvalidCondition)
              else
                match ParseValue(members["value"])
                case None => Err(InvalidCondition)
                case Some(value) =>
                  if field !in allowed then Err(UnknownField)
                  else
                    match CheckTypes(op, value)
                    case Some(e) => Err(e)
                    case None => Ok(Compare(op, field, value)))
         case _ => Err(UnknownField))
    case _ => Err(InvalidOperator)
  }

  function Walk(input: Raw, depth: nat, allowed: set<Field>): Result<Node, Error>
    decreases input, 0
  {
    if depth > MAX_DEPTH then Err(TooDeep)
    else if !input.RawObject? then Err(InvalidCondition)
    else
      var op := Lookup(input.members, "op");
      if op == Some(RawString("and")) || op == Some(RawString("or")) then
        match Lookup(input.members, "nodes")
        case Some(RawArray(elems)) =>
          if !(1 <= |elems| <= MAX_CHILDREN) then Err(InvalidNodes)
          else if input.members.Keys != {"op", "nodes"} then Err(UnknownField)
          else
            assert input.members["nodes"] == RawArray(elems);
            (match WalkAll(elems, depth + 1, allowed)
             case Err(e) => Err(e)
             case Ok(nodes) => Ok(Logic(if op == Some(RawString("and")) then And else Or, nodes)))
        case _ => Err(InvalidNodes)
      else WalkCompare(input.members, allowed)
  }

  function WalkAll(elems: seq<Raw>, depth: nat, allowed: set<Field>): Result<seq<Node>, Error>
    decreases elems, 1
  {
    if elems == [] then Ok([])
    else
      match Walk(elems[0], depth, allowed)
      case Err(e) => Err(e)
      case Ok(n) =>
        match WalkAll(elems[1..], depth, allowed)
        case Err(e) => Err(e)
        case Ok(ns) => Ok([n] + ns)
  }

  function CountNodes(n: Node): (c: nat)
    decreases n, 0
  {
    match n
    case Compare(_, _, _) => 1
    case Logic(_, nodes) => 1 + CountAll(nodes)
  }

  function CountAll(ns: seq<Node>): nat
    decreases ns, 1
  {
    if ns == [] then 0 else CountNodes(ns[0]) + CountAll(ns[1..])
  }

  /** `parseConditionConfig`: a missing condition is legal and means "always". */
  function ParseConditionConfig(allowed: set<Field>, input: Raw): Result<Option<Node>, Error> {
    if input.RawNull? then Ok(None)
    else if allowed == {} then Err(NoConditions)
    else
      match Walk(input, 1, allowed)
      case Err(e) => Err(e)
      case Ok(n) => if CountNodes(n) > MAX_NODES then Err(TooManyNodes) else Ok(Some(n))
  }

  // ---------------------------------------------------------------- legal trees, independently

  /** What the language promises about an accepted tree, leaf by leaf. */
  ghost predicate LegalLeaf(n: Node, allowed: set<Field>)
    requires n.Compare?
  {
    && n.field in allowed
    && n.value.StringValue?
    && 1 <= |n.value.s| && Utf16Length(n.value.s) <= MAX_STRING
    && n.cmp in {Eq, Neq, Contains}
  }

  ghost predicate Legal(n: Node, allowed: set<Field>)
    decreases n
  {
    match n
    case Compare(_, _, _) => LegalLeaf(n, allowed)
    case Logic(_, nodes) => 1 <= |nodes| <= MAX_CHILDREN && forall m | m in nodes :: Legal(m, allowed)
  }

  function Depth(n: Node): (d: nat)
    decreases n, 0
  {
    match n
    case Compare(_, _, _) => 1
    case Logic(_, nodes) => 1 + DepthAll(nodes)
  }

  function DepthAll(ns: seq<Node>): nat
    decreases ns, 1
  {
    if ns == [] then 0
    else
      var a, b := Depth(ns[0]), DepthAll(ns[1..]);
      if a >= b then a else b
  }

  /** The obvious printer back to JSON. */
  function ToRaw(n: Node): Raw
    decreases n, 0
  {
    match n
    case Compare(op, field, value) =>
      RawObject(map["op" := RawString(CompareOpName(op)), "field" := RawString(FieldName(field)), "value" := ValueToRaw(value)])
    case Logic(op, nodes) =>
      RawObject(map["op" := RawString(LogicOpName(op)), "nodes" := RawArray(ToRawAll(nodes))])
  }

  function ToRawAll(ns: seq<Node>): (rs: seq<Raw>)
    ensures |rs| == |ns|
    decreases ns, 1
  {
    if ns == [] then [] else [ToRaw(ns[0])] + ToRawAll(ns[1..])
  }

  function ValueToRaw(v: Value): Raw {
    match v
    case StringValue(s) => RawString(s)
    case NumberValue(n) => RawNumber(n)
    case BoolValue(b) => RawBool(b)
  }

  /** Soundness: an accepted input is the printed form of a legal tree of depth at most MAX_DEPTH. */
  lemma {:induction false} WalkSound(input: Raw, depth: nat, allowed: set<Field>)
    requires Walk(input, depth, allowed).Ok?
    ensures var n := Walk(input, depth, allowed).value;
            Legal(n, allowed) && depth + Depth(n) <= MAX_DEPTH + 1 && ToRaw(n) == input
    decreases input, 0
  {
    var n := Walk(input, depth, allowed).value;
    if n.Logic? {
      var elems := input.members["nodes"].elems;
      WalkAllSound(elems, depth + 1, allowed);
      assert ToRaw(n).members == input.members;
    } else {
      assert ToRaw(n).members == input.members;
    }
  }

  lemma {:induction false} WalkAllSound(elems: seq<Raw>, depth: nat, allowed: set<Field>)
    requires WalkAll(elems, depth, allowed).Ok?
    ensures var ns := WalkAll(elems, depth, allowed).value;
            && |ns| == |elems|
            && (forall m | m in ns :: Legal(m, allowed))
            && (ns != [] ==> depth + DepthAll(ns) <= MAX_DEPTH + 1)
            && ToRawAll(ns) == elems
    decreases elems, 1
  {
    if elems != [] {
      WalkSound(elems[0], depth, allowed);
      WalkAllSound(elems[1..], depth, allowed);
      var ns := WalkAll(elems, depth, allowed).value;
      assert ns[1..] == WalkAll(elems[1..], depth, allowed).value;
    }
  }

  lemma NamesRoundTrip(op: CompareOp, field: Field)
    ensures CompareOpOf(CompareOpName(op)) == Some(op)
    ensures FieldOf(FieldName(field)) == Some(field)
  {
  }

  lemma WalkCompareComplete(n: Node, depth: nat, allowed: set<Field>)
    requires n.Compare? && Legal(n, allowed) && depth <= MAX_DEPTH
    ensures Walk(ToRaw(n), depth, allowed) == Ok(n)
  {
    var members := ToRaw(n).members;
    NamesRoundTrip(n.cmp, n.field);
    assert members.Keys == {"op", "field", "value"};
    assert CompareOpName(n.cmp) != "and" && CompareOpName(n.cmp) != "or";
  }

  /** Completeness: every legal tree within the depth bound is accepted from its printed form. */
  lemma {:induction false} WalkComplete(n: Node, depth: nat, allowed: set<Field>)
    requires Legal(n, allowed) && depth + Depth(n) <= MAX_DEPTH + 1
    ensures Walk(ToRaw(n), depth, allowed) == Ok(n)
    decreases n, 0
  {
    match n
    case Compare(_, _, _) => WalkCompareComplete(n, depth, allowed);
    case Logic(op, nodes) =>
      WalkAllComplete(nodes, depth + 1, allowed);
      assert ToRaw(n).members.Keys == {"op", "nodes"};
  }

  lemma {:induction false} WalkAllComplete(ns: seq<Node>, depth: nat, allowed: set<Field>)
    requires forall m | m in ns :: Legal(m, allowed)
    requires depth + DepthAll(ns) <= MAX_DEPTH + 1
    ensures WalkAll(ToRawAll(ns), depth, allowed) == Ok(ns)
    decreases ns, 1
  {
    if ns != [] {
      WalkComplete(ns[0], depth, allowed);
      WalkAllComplete(ns[1..], depth, allowed);
      assert [ns[0]] + ns[1..] == ns;
      assert ToRawAll(ns)[1..] == ToRawAll(ns[1..]);
    }
  }

  /**
    The accepted inputs are exactly the printed forms of the legal trees with depth at most 4 and
    at most 16 nodes, and each is read back as the tree it prints.
  */
  lemma AcceptedExactly(allowed: set<Field>, input: Raw, n: Node)
    requires allowed != {}
    ensures ParseConditionConfig(allowed, input) == Ok(Some(n))
            <==> Legal(n, allowed) && Depth(n) <= MAX_DEPTH && CountNodes(n) <= MAX_NODES && input == ToRaw(n)
  {
    if ParseConditionConfig(allowed, input) == Ok(Some(n)) {
      WalkSound(input, 1, allowed);
    }
    if Legal(n, allowed) && Depth(n) <= MAX_DEPTH && CountNodes(n) <= MAX_NODES && input == ToRaw(n) {
      WalkComplete(n, 1, allowed);
    }
  }

  // ---------------------------------------------------------------- evaluation

  function CompareValues(op: CompareOp, left: Value, right: Value): bool {
    match op
    case Contains =>
      left.StringValue? && right.StringValue? && Includes(left.s, right.s)
    case Eq => left == right
    case Neq => left != right
    case Lt => left.NumberValue? && right.NumberValue? && left.n < right.n
    case Lte => left.NumberValue? && right.NumberValue? && left.n <= right.n
    case Gt => left.NumberValue? && right.NumberValue? && left.n > right.n
    case Gte => left.NumberValue? && right.NumberValue? && left.n >= right.n
  }

  /** `String.prototype.includes`. */
  predicate Includes(text: string, part: string) {
    exists i | 0 <= i <= |text| :: OccursAt(text, part, i)
  }

  predicate OccursAt(text: string, part: string, i: nat) {
    i + |part| <= |text| && text[i..i + |part|] == part
  }

  predicate SameType(a: Value, b: Value) {
    a.StringValue? == b.StringValue? && a.NumberValue? == b.NumberValue? && a.BoolValue? == b.BoolValue?
  }

  /** `evaluateCondition`: a missing field or a field of another type makes a comparison false. */
  function Evaluate(n: Node, fields: map<Field, Value>): bool
    decreases n
  {
    match n
    case Logic(And, nodes) => forall i | 0 <= i < |nodes| :: Evaluate(nodes[i], fields)
    case Logic(Or, nodes) => exists i | 0 <= i < |nodes| :: Evaluate(nodes[i], fields)
    case Compare(op, field, value) =>
      if field !in fields then false
      else if !SameType(fields[field], value) then false
      else CompareValues(op, fields[field], value)
  }

  function EvaluateOptional(n: Option<Node>, fields: map<Field, Value>): bool {
    match n
    case None => true
    case Some(node) => Evaluate(node, fields)
  }

  /** The classical meaning of a tree over string fields, with no third case for missing data. */
  ghost predicate Holds(n: Node, facts: Field -> string)
    decreases n
  {
    match n
    case Logic(And, nodes) => forall m | m in nodes :: Holds(m, facts)
    case Logic(Or, nodes) => !forall m | m in nodes :: !Holds(m, facts)
    case Compare(op, field, value) =>
      var fact := facts(field);
      if op == Eq then value == StringValue(fact)
      else if op == Neq then !(value == StringValue(fact))
      else value.StringValue? && exists before, after :: fact == before + value.s + after
  }

  /** Every field a legal tree may mention is present and holds a string. */
  ghost predicate Provides(fields: map<Field, Value>, allowed: set<Field>) {
    forall f | f in allowed :: f in fields && fields[f].StringValue?
  }

  ghost function FactsOf(fields: map<Field, Value>): Field -> string {
    f => if f in fields && fields[f].StringValue? then fields[f].s else ""
  }

  lemma IncludesIsInfix(text: string, part: string)
    ensures Includes(text, part) <==> exists before, after :: text == before + part + after
  {
    if Includes(text, part) {
      var i :| 0 <= i <= |text| && OccursAt(text, part, i);
      assert text == text[..i] + part + text[i + |part|..];
    }
    if exists before, after :: text == before + part + after {
      var before, after :| text == before + part + after;
      assert OccursAt(text, part, |before|);
    }
  }

  lemma HoldsByIndex(nodes: seq<Node>, facts: Field -> string)
    ensures Holds(Logic(And, nodes), facts) <==> forall i | 0 <= i < |nodes| :: Holds(nodes[i], facts)
    ensures Holds(Logic(Or, nodes), facts) <==> exists i | 0 <= i < |nodes| :: Holds(nodes[i], facts)
  {
    assert forall i | 0 <= i < |nodes| :: nodes[i] in nodes;
  }

  lemma LeafIsClassical(n: Node, fields: map<Field, Value>, allowed: set<Field>)
    requires n.Compare? && LegalLeaf(n, allowed) && Provides(fields, allowed)
    ensures Evaluate(n, fields) <==> Holds(n, FactsOf(fields))
  {
    hide Includes, Utf16Length;
    IncludesIsInfix(fields[n.field].s, n.value.s);
  }

  /** On an event that provides every allowed field, the interpreter is classical logic. */
  lemma {:induction false} EvaluateIsClassical(n: Node, fields: map<Field, Value>, allowed: set<Field>)
    requires Legal(n, allowed) && Provides(fields, allowed)
    ensures Evaluate(n, fields) <==> Holds(n, FactsOf(fields))
    decreases n
  {
    hide Holds, LegalLeaf, FactsOf, Provides;
    match n
    case Compare(_, _, _) =>
      LeafIsClassical(n, fields, allowed);
    case Logic(op, nodes) =>
      forall i | 0 <= i < |nodes|
        ensures Evaluate(nodes[i], fields) <==> Holds(nodes[i], FactsOf(fields))
      {
        EvaluateIsClassical(nodes[i], fields, allowed);
      }
      HoldsByIndex(nodes, FactsOf(fields));
  }

  /** Negation by De Morgan: `and` and `or` swap, `eq` and `neq` swap. */
  function Dual(n: Node): Node
    decreases n, 0
  {
    match n
    case Compare(Eq, f, v) => Compare(Neq, f, v)
    case Compare(Neq, f, v) => Compare(Eq, f, v)
    case Compare(_, _, _) => n
    case Logic(op, nodes) => Logic(if op == And then Or else And, DualAll(nodes))
  }

  function DualAll(ns: seq<Node>): (r: seq<Node>)
    ensures |r| == |ns| && forall i | 0 <= i < |ns| :: r[i] == Dual(ns[i])
    decreases ns, 1
  {
    if ns == [] then [] else [Dual(ns[0])] + DualAll(ns[1..])
  }

  ghost predicate ContainsFree(n: Node)
    decreases n
  {
    match n
    case Compare(op, _, _) => op != Contains
    case Logic(_, nodes) => forall m | m in nodes :: ContainsFree(m)
  }

  lemma {:induction false} DualNegates(n: Node, fields: map<Field, Value>, allowed: set<Field>)
    requires Legal(n, allowed) && Provides(fields, allowed) && ContainsFree(n)
    ensures Evaluate(Dual(n), fields) <==> !Evaluate(n, fields)
    decreases n
  {
    match n
    case Compare(op, field, value) =>
    case Logic(op, nodes) =>
      forall i | 0 <= i < |nodes|
        ensures Evaluate(Dual(nodes[i]), fields) <==> !Evaluate(nodes[i], fields)
      {
        DualNegates(nodes[i], fields, allowed);
      }
      var duals := DualAll(nodes);
      assert Dual(n).nodes == duals;
      if op == And {
        assert Evaluate(n, fields) <==> forall i | 0 <= i < |nodes| :: Evaluate(nodes[i], fields);
        assert Evaluate(Dual(n), fields) <==> exists i | 0 <= i < |duals| :: Evaluate(duals[i], fields);
      } else {
        assert Evaluate(n, fields) <==> exists i | 0 <= i < |nodes| :: Evaluate(nodes[i], fields);
        assert Evaluate(Dual(n), fields) <==> forall i | 0 <= i < |duals| :: Evaluate(duals[i], fields);
      }
  }

  /**
    Without the guarantee that the event provides the field, `eq` and `neq` are not opposites: they
    are exactly when the field is present with the type of the literal.
  */
  lemma EqNeqOppositeExactly(field: Field, value: Value, fields: map<Field, Value>)
    ensures (Evaluate(Compare(Eq, field, value), fields) <==> !Evaluate(Compare(Neq, field, value), fields))
            <==> field in fields && SameType(fields[field], value)
  {
  }
}
