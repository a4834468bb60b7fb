/** The conversion of a sampling rule into the format of the Dash0 API: rates in conditions become numbers, at any
    depth. */
module SamplingRates {
  import opened Common

  /** JSON has no notation for infinities and for values that are not a number. */
  datatype Float = Finite(value: real) | NotFinite

  datatype Json =
    | Null
    | Bool(b: bool)
    | Number(number: Float)
    | Text(text: string)
    | Arr(items: seq<Json>)
    | Obj(fields: map<string, Json>)

  /** Stands for strconv.ParseFloat, which is not part of this model. It accepts texts like "NaN" and "Inf", too. */
  type ParseFloat = string -> Option<Float>

  // ---------------------------------------------------------------------------------------------
  // Specification on values
  // ---------------------------------------------------------------------------------------------

  function ConvertRate(parse: ParseFloat, rate: Json): Json {
    if rate.Text? && parse(rate.text).Some? then Number(parse(rate.text).value) else rate
  }

  function ConvertCondition(parse: ParseFloat, condition: Json): Json
    decreases condition
  {
    if condition.Obj? && "spec" in condition.fields then
      Obj(condition.fields["spec" := ConvertSpec(parse, condition.fields["spec"])])
    else
      condition
  }

  function ConvertSpec(parse: ParseFloat, spec: Json): Json
    decreases spec
  {
    if spec.Obj? && "conditions" in spec.fields && spec.fields["conditions"].Arr? then
      Obj(Rated(parse, spec).fields["conditions" := ConvertConditions(parse, spec.fields["conditions"])])
    else
      Rated(parse, spec)
  }

  function Rated(parse: ParseFloat, spec: Json): (rated: Json)
    ensures spec.Obj? ==> rated.Obj?
  {
    if spec.Obj? && "rate" in spec.fields then
      Obj(spec.fields["rate" := ConvertRate(parse, spec.fields["rate"])])
    else
      spec
  }

  function ConvertConditions(parse: ParseFloat, conditions: Json): Json
    requires conditions.Arr?
    decreases conditions
  {
    var items := conditions.items;
    Arr(seq(|items|, i requires 0 <= i < |items| => ConvertCondition(parse, items[i])))
  }

  /** The conditions of the resource are one condition, those of a condition are a list. */
  function ConvertResourceSpec(parse: ParseFloat, spec: Json): Json {
    if spec.Obj? && "conditions" in spec.fields then
      Obj(spec.fields["conditions" := ConvertCondition(parse, spec.fields["conditions"])])
    else
      spec
  }

  // ---------------------------------------------------------------------------------------------
  // What the conversion changes, and what it does not
  // ---------------------------------------------------------------------------------------------

  datatype Step = Key(name: string) | Index(i: nat)

  type Path = seq<Step>

  /** What can be found at a path: a value without parts, or which parts there are. */
  datatype Finding = Nothing | Scalar(value: Json) | Keys(keys: set<string>) | Length(n: nat)

  function At(json: Json, path: Path): Finding {
    if path == [] then
      match json
      case Obj(fields) => Keys(fields.Keys)
      case Arr(items) => Length(|items|)
      case _ => Scalar(json)
    else
      match path[0]
      case Key(name) => if json.Obj? && name in json.fields then At(json.fields[name], path[1..]) else Nothing
      case Index(i) => if json.Arr? && i < |json.items| then At(json.items[i], path[1..]) else Nothing
  }

  /** Paths of the form spec, conditions, i, spec, conditions, j, ..., spec, rate. */
  predicate IsRateOfCondition(path: Path)
    decreases |path|
  {
    path != [] && path[0] == Key("spec") && IsRateOfSpec(path[1..])
  }

  predicate IsRateOfSpec(path: Path)
    decreases |path|
  {
    path == [Key("rate")]
    || (|path| >= 2 && path[0] == Key("conditions") && path[1].Index? && IsRateOfCondition(path[2..]))
  }

  predicate IsRate(path: Path) {
    path != [] && path[0] == Key("conditions") && IsRateOfCondition(path[1..])
  }

  function Converted(parse: ParseFloat, finding: Finding): Finding {
    if finding.Scalar? then Scalar(ConvertRate(parse, finding.value)) else finding
  }

  /** The conversion changes exactly the rates, each one into its number if it is a text that can be parsed. Everything
      else, including the shape of the tree, is as before. */
  lemma {:induction false} ConditionChangesExactlyRates(parse: ParseFloat, condition: Json, path: Path)
    ensures At(ConvertCondition(parse, condition), path) ==
      if IsRateOfCondition(path) then Converted(parse, At(condition, path)) else At(condition, path)
    decreases |path|
  {
    if path != [] && condition.Obj? && "spec" in condition.fields && path[0] == Key("spec") {
      SpecChangesExactlyRates(parse, condition.fields["spec"], path[1..]);
    }
  }

  lemma {:induction false} SpecChangesExactlyRates(parse: ParseFloat, spec: Json, path: Path)
    ensures At(ConvertSpec(parse, spec), path) ==
      if IsRateOfSpec(path) then Converted(parse, At(spec, path)) else At(spec, path)
    decreases |path|
  {
    if path != [] && spec.Obj? {
      if path[0] == Key("rate") {
        RateAt(parse, spec, path);
      } else if path[0] == Key("conditions") && "conditions" in spec.fields && spec.fields["conditions"].Arr? {
        var items := spec.fields["conditions"].items;
        if |path| >= 2 && path[1].Index? && path[1].i < |items| {
          ConditionChangesExactlyRates(parse, items[path[1].i], path[2..]);
          assert path[1..][1..] == path[2..];
        }
      }
    }
  }

  lemma RateAt(parse: ParseFloat, spec: Json, path: Path)
    requires spec.Obj? && path != [] && path[0] == Key("rate")
    ensures At(ConvertSpec(parse, spec), path) ==
      if IsRateOfSpec(path) then Converted(parse, At(spec, path)) else At(spec, path)
  {
    if "rate" in spec.fields {
      var rate := spec.fields["rate"];
      assert At(spec, path) == At(rate, path[1..]);
      assert At(ConvertSpec(parse, spec), path) == At(ConvertRate(parse, rate), path[1..]);
      if path[1..] == [] {
        assert path == [Key("rate")];
      }
    }
  }

  lemma ConversionChangesExactlyRates(parse: ParseFloat, spec: Json, path: Path)
    ensures At(ConvertResourceSpec(parse, spec), path) ==
      if IsRate(path) then Converted(parse, At(spec, path)) else At(spec, path)
  {
    if path != [] && path[0] == Key("conditions") && spec.Obj? && "conditions" in spec.fields {
      ConditionChangesExactlyRates(parse, spec.fields["conditions"], path[1..]);
    }
  }

  /** A rate that is a text becomes the number that it is parsed to, or stays if it cannot be parsed; a rate that is
      anything else stays. */
  lemma RatesBecomeNumbers(parse: ParseFloat, spec: Json, path: Path)
    requires IsRate(path)
    ensures At(ConvertResourceSpec(parse, spec), path) ==
      match At(spec, path)
      case Scalar(Text(text)) =>
        (match parse(text)
         case Some(number) => Scalar(Number(number))
         case None => Scalar(Text(text)))
      case other => other
  {
    ConversionChangesExactlyRates(parse, spec, path);
  }

  /** No rate that can be reached is a text that can be parsed. */
  lemma NoParsableRateIsLeft(parse: ParseFloat, spec: Json, path: Path, text: string)
    requires IsRate(path) && At(ConvertResourceSpec(parse, spec), path) == Scalar(Text(text))
    ensures parse(text).None?
  {
    ConversionChangesExactlyRates(parse, spec, path);
  }

  predicate IsSerializable(json: Json) {
    match json
    case Number(number) => number.Finite?
    case Arr(items) => forall i | 0 <= i < |items| :: IsSerializable(items[i])
    case Obj(fields) => forall key | key in fields :: IsSerializable(fields[key])
    case _ => true
  }

  const NOT_FINITE := Scalar(Number(NotFinite))

  lemma {:induction false} SerializableHasFiniteNumbers(json: Json, path: Path)
    requires IsSerializable(json)
    ensures At(json, path) != NOT_FINITE
    decreases |path|
  {
    if path != [] {
      match path[0]
      case Key(name) =>
        if json.Obj? && name in json.fields {
          SerializableHasFiniteNumbers(json.fields[name], path[1..]);
        }
      case Index(i) =>
        if json.Arr? && i < |json.items| {
          SerializableHasFiniteNumbers(json.items[i], path[1..]);
        }
    }
  }

  lemma {:induction false} UnserializableHasAnotherNumber(json: Json) returns (path: Path)
    requires !IsSerializable(json)
    ensures At(json, path) == NOT_FINITE
    decreases json
  {
    match json
    case Number(_) =>
      path := [];
    case Arr(items) =>
      var i :| 0 <= i < |items| && !IsSerializable(items[i]);
      var rest := UnserializableHasAnotherNumber(items[i]);
      path := [Index(i)] + rest;
      assert path[1..] == rest;
    case Obj(fields) =>
      var key :| key in fields && !IsSerializable(fields[key]);
      var rest := UnserializableHasAnotherNumber(fields[key]);
      path := [Key(key)] + rest;
      assert path[1..] == rest;
  }

  /** A converted resource can be serialized exactly if none of its rates, at any depth, is a text that stands for an
      infinity or for a value that is not a number. */
  lemma ConversionIsSerializableIff(parse: ParseFloat, spec: Json)
    requires IsSerializable(spec)
    ensures IsSerializable(ConvertResourceSpec(parse, spec)) <==>
      forall path, text | IsRate(path) && At(spec, path) == Scalar(Text(text)) :: parse(text) != Some(NotFinite)
  {
    var converted := ConvertResourceSpec(parse, spec);
    if IsSerializable(converted) {
      forall path, text | IsRate(path) && At(spec, path) == Scalar(Text(text))
        ensures parse(text) != Some(NotFinite)
      {
        SerializableHasFiniteNumbers(converted, path);
        ConversionChangesExactlyRates(parse, spec, path);
      }
    } else {
      var path := UnserializableHasAnotherNumber(converted);
      SerializableHasFiniteNumbers(spec, path);
      ConversionChangesExactlyRates(parse, spec, path);
    }
  }

  function Condition(kind: string, fields: map<string, Json>): Json {
    Obj(map["kind" := Text(kind), "spec" := Obj(fields)])
  }

  const RATE_OF_CONDITION: Path := [Key("spec"), Key("rate")]
  const RATE_OF_FIRST: Path := [Index(0)] + RATE_OF_CONDITION
  const RATE_OF_NESTED: Path := [Key("conditions")] + ([Key("spec"), Key("conditions")] + RATE_OF_FIRST)

  /** A condition with one nested condition that has the given rate. */
  function NestedRate(text: string): Json {
    Obj(map["conditions" := Condition("and", map["conditions" := Arr([RateCondition(text)])])])
  }

  function RateCondition(text: string): Json {
    Condition("probabilistic", map["rate" := Text(text)])
  }

  /** The rate of a nested condition is not restricted by the custom resource definition. */
  lemma NestedNotANumberIsNotSerializable(parse: ParseFloat)
    requires parse("NaN") == Some(NotFinite)
    ensures IsSerializable(NestedRate("NaN")) && !IsSerializable(ConvertResourceSpec(parse, NestedRate("NaN")))
  {
    NestedRateIsSerializable("NaN");
    NestedRateAt("NaN");
    hide *;
    ConversionIsSerializableIff(parse, NestedRate("NaN"));
  }

  lemma NestedRateIsSerializable(text: string)
    ensures IsSerializable(NestedRate(text))
  {
    ConditionIsSerializable("probabilistic", map["rate" := Text(text)]);
    hide Condition;
    assert IsSerializable(Arr([RateCondition(text)]));
    ConditionIsSerializable("and", map["conditions" := Arr([RateCondition(text)])]);
  }

  lemma NestedRateAt(text: string)
    ensures IsRate(RATE_OF_NESTED) && At(NestedRate(text), RATE_OF_NESTED) == Scalar(Text(text))
  {
    NestedPathIsRate();
    var conditions := Arr([RateCondition(text)]);
    RateAtCondition(text);
    assert RATE_OF_FIRST[1..] == RATE_OF_CONDITION;
    assert At(conditions, RATE_OF_FIRST) == Scalar(Text(text)) by {
      hide RateCondition;
    }
    ConditionAt("and", map["conditions" := conditions], "conditions", RATE_OF_FIRST);
    hide Condition, RateCondition, IsRate;
    var rest := [Key("spec"), Key("conditions")] + RATE_OF_FIRST;
    assert RATE_OF_NESTED[1..] == rest;
    assert At(Condition("and", map["conditions" := conditions]), rest) == Scalar(Text(text));
  }

  lemma RateAtCondition(text: string)
    ensures At(RateCondition(text), RATE_OF_CONDITION) == Scalar(Text(text))
  {
    ConditionAt("probabilistic", map["rate" := Text(text)], "rate", []);
    assert [Key("spec"), Key("rate")] + [] == RATE_OF_CONDITION;
  }

  lemma NestedPathIsRate()
    ensures IsRate(RATE_OF_NESTED)
  {
    assert RATE_OF_CONDITION[1..] == [Key("rate")];
    assert IsRateOfCondition(RATE_OF_CONDITION);
    var inSpec := [Key("conditions")] + RATE_OF_FIRST;
    assert inSpec[2..] == RATE_OF_CONDITION;
    assert IsRateOfSpec(inSpec);
    assert RATE_OF_NESTED[1..][1..] == inSpec;
  }

  lemma ConditionIsSerializable(kind: string, fields: map<string, Json>)
    requires forall key | key in fields :: IsSerializable(fields[key])
    ensures IsSerializable(Condition(kind, fields))
  {
    assert IsSerializable(Obj(fields));
  }

  lemma ConditionAt(kind: string, fields: map<string, Json>, key: string, path: Path)
    requires key in fields
    ensures At(Condition(kind, fields), [Key("spec"), Key(key)] + path) == At(fields[key], path)
  {
    var whole := [Key("spec"), Key(key)] + path;
    assert whole[1..] == [Key(key)] + path && whole[1..][1..] == path;
    assert At(Condition(kind, fields), whole) == At(Obj(fields), whole[1..]);
  }

  lemma {:induction false} ConditionIsIdempotent(parse: ParseFloat, condition: Json)
    ensures ConvertCondition(parse, ConvertCondition(parse, condition)) == ConvertCondition(parse, condition)
    decreases condition
  {
    if condition.Obj? && "spec" in condition.fields {
      SpecIsIdempotent(parse, condition.fields["spec"]);
    }
  }

  lemma {:induction false} SpecIsIdempotent(parse: ParseFloat, spec: Json)
    ensures ConvertSpec(parse, ConvertSpec(parse, spec)) == ConvertSpec(parse, spec)
    decreases spec
  {
    if spec.Obj? {
      var once := ConvertSpec(parse, spec);
      if "conditions" in spec.fields && spec.fields["conditions"].Arr? {
        var conditions := spec.fields["conditions"];
        var converted := ConvertConditions(parse, conditions);
        forall i | 0 <= i < |conditions.items|
          ensures ConvertCondition(parse, converted.items[i]) == converted.items[i]
        {
          ConditionIsIdempotent(parse, conditions.items[i]);
        }
        assert ConvertConditions(parse, converted).items == converted.items;
        assert once.fields["conditions"] == converted;
      }
      assert ConvertSpec(parse, once).fields == once.fields;
    }
  }

  lemma ConversionIsIdempotent(parse: ParseFloat, spec: Json)
    ensures ConvertResourceSpec(parse, ConvertResourceSpec(parse, spec)) == ConvertResourceSpec(parse, spec)
  {
    if spec.Obj? && "conditions" in spec.fields {
      ConditionIsIdempotent(parse, spec.fields["conditions"]);
    }
  }

  // ---------------------------------------------------------------------------------------------
  // Objects on the heap: maps are shared, not copied
  // ---------------------------------------------------------------------------------------------

  datatype Value =
    | NullValue
    | BoolValue(b: bool)
    | NumberValue(number: Float)
    | TextValue(text: string)
    | ArrValue(items: seq<Value>)
    | ObjValue(obj: JsonObject)

  class JsonObject {
    var entries: map<string, Value>
    ghost const Repr: set<JsonObject>

    constructor (entries: map<string, Value>, ghost children: set<JsonObject>)
      ensures this.entries == entries && Repr == {this} + children
    {
      this.entries := entries;
      Repr := {this} + children;
    }
  }

  /** The objects that a value is made of. */
  ghost function Objects(value: Value): set<JsonObject> {
    match value
    case ArrValue(items) => set i, o | 0 <= i < |items| && o in Objects(items[i]) :: o
    case ObjValue(obj) => obj.Repr
    case _ => {}
  }

  /** No object occurs twice in the value. */
  ghost predicate IsTree(value: Value)
    reads Objects(value)
    decreases Objects(value), value
  {
    match value
    case ArrValue(items) =>
      && (forall i | 0 <= i < |items| :: Objects(items[i]) <= Objects(value) && IsTree(items[i]))
      && (forall i, j | 0 <= i < j < |items| :: Objects(items[i]) !! Objects(items[j]))
    case ObjValue(obj) =>
      && obj in obj.Repr
      && (forall key | key in obj.entries ::
            Objects(obj.entries[key]) <= obj.Repr - {obj} && IsTree(obj.entries[key]))
      && (forall k, l | k in obj.entries && l in obj.entries && k != l ::
            Objects(obj.entries[k]) !! Objects(obj.entries[l]))
    case _ => true
  }

  /** The value as it is serialized. */
  function Meaning(value: Value): Json
    requires IsTree(value)
    reads Objects(value)
    decreases Objects(value), value, 0
  {
    match value
    case NullValue => Null
    case BoolValue(b) => Bool(b)
    case NumberValue(number) => Number(number)
    case TextValue(text) => Text(text)
    case ArrValue(items) => Arr(Meanings(value, |items|))
    case ObjValue(obj) => Obj(map key | key in obj.entries :: Meaning(obj.entries[key]))
  }

  function Meanings(value: Value, n: nat): (meanings: seq<Json>)
    requires IsTree(value) && value.ArrValue? && n <= |value.items|
    reads Objects(value)
    ensures |meanings| == n && forall i | 0 <= i < n :: meanings[i] == Meaning(value.items[i])
    decreases Objects(value), value, 0, n
  {
    if n == 0 then [] else Meanings(value, n - 1) + [Meaning(value.items[n - 1])]
  }

  lemma {:induction false} ObjectsAreAllocated(value: Value)
    ensures forall o | o in Objects(value) :: allocated(o)
  {
    if value.ArrValue? {
      forall i | 0 <= i < |value.items| {
        ObjectsAreAllocated(value.items[i]);
      }
    }
  }

  lemma ObjectMeaningIs(obj: JsonObject, fields: map<string, Json>)
    requires obj in obj.Repr && fields.Keys == obj.entries.Keys
    requires forall key | key in fields :: Objects(obj.entries[key]) <= obj.Repr - {obj} && IsTree(obj.entries[key])
    requires forall k, l | k in fields && l in fields && k != l :: Objects(obj.entries[k]) !! Objects(obj.entries[l])
    requires forall key | key in fields :: Meaning(obj.entries[key]) == fields[key]
    ensures IsTree(ObjValue(obj)) && Meaning(ObjValue(obj)) == Obj(fields)
  {
    assert IsTree(ObjValue(obj));
    MeaningIs(obj, fields);
  }

  lemma MeaningIs(obj: JsonObject, fields: map<string, Json>)
    requires IsTree(ObjValue(obj)) && fields.Keys == obj.entries.Keys
    requires forall key | key in fields :: fields[key] == Meaning(obj.entries[key])
    ensures Meaning(ObjValue(obj)) == Obj(fields)
  {
    assert Meaning(ObjValue(obj)).fields == fields;
  }

  lemma EntryKinds(obj: JsonObject, key: string)
    requires IsTree(ObjValue(obj))
    ensures var meaning := Meaning(ObjValue(obj));
      && obj in obj.Repr && meaning.Obj? && meaning.fields.Keys == obj.entries.Keys
      && (key in obj.entries ==>
            && IsTree(obj.entries[key]) && meaning.fields[key] == Meaning(obj.entries[key])
            && (obj.entries[key].ArrValue? <==> meaning.fields[key].Arr?)
            && (obj.entries[key].ObjValue? <==> meaning.fields[key].Obj?))
  {
  }

  lemma EntriesOf(obj: JsonObject)
    requires IsTree(ObjValue(obj))
    ensures obj in obj.Repr
    ensures forall key | key in obj.entries ::
      Objects(obj.entries[key]) <= obj.Repr - {obj} && IsTree(obj.entries[key])
    ensures forall k, l | k in obj.entries && l in obj.entries && k != l ::
      Objects(obj.entries[k]) !! Objects(obj.entries[l])
    ensures Meaning(ObjValue(obj)) == Obj(map key | key in obj.entries :: Meaning(obj.entries[key]))
  {
  }

  lemma ItemsOf(value: Value)
    requires IsTree(value) && value.ArrValue?
    ensures forall i | 0 <= i < |value.items| :: Objects(value.items[i]) <= Objects(value) && IsTree(value.items[i])
    ensures forall i, j | 0 <= i < j < |value.items| :: Objects(value.items[i]) !! Objects(value.items[j])
    ensures var meaning := Meaning(value);
      && meaning.Arr? && |meaning.items| == |value.items|
      && forall i | 0 <= i < |value.items| ::
           && meaning.items[i] == Meaning(value.items[i])
           && (value.items[i].ObjValue? <==> meaning.items[i].Obj?)
  {
  }

  lemma ArrayMeaningIs(value: Value, items: seq<Json>)
    requires value.ArrValue? && |items| == |value.items|
    requires forall i | 0 <= i < |items| :: Objects(value.items[i]) <= Objects(value) && IsTree(value.items[i])
    requires forall i, j | 0 <= i < j < |items| :: Objects(value.items[i]) !! Objects(value.items[j])
    requires forall i | 0 <= i < |items| :: Meaning(value.items[i]) == items[i]
    ensures IsTree(value) && Meaning(value) == Arr(items)
  {
    assert Meaning(value).items == items;
  }

  method ConvertRateInCondition(parse: ParseFloat, condition: JsonObject)
    requires IsTree(ObjValue(condition))
    modifies condition.Repr
    ensures IsTree(ObjValue(condition))
    ensures Meaning(ObjValue(condition)) == ConvertCondition(parse, old(Meaning(ObjValue(condition))))
    decreases condition.Repr, 2
  {
    hide IsTree, Meaning;
    EntriesOf(condition);
    EntryKinds(condition, "spec");
    ghost var before := Meaning(ObjValue(condition));
    if "spec" !in condition.entries || !condition.entries["spec"].ObjValue? {
      return;
    }
    var spec := condition.entries["spec"].obj;
    ConvertRateInSpec(parse, spec);
    assert forall key | key in condition.entries && key != "spec" ::
      IsTree(condition.entries[key]) && Meaning(condition.entries[key]) == old(Meaning(condition.entries[key]));
    ObjectMeaningIs(condition, ConvertCondition(parse, before).fields);
  }

  method ConvertRateInSpec(parse: ParseFloat, spec: JsonObject)
    requires IsTree(ObjValue(spec))
    modifies spec.Repr
    ensures IsTree(ObjValue(spec))
    ensures Meaning(ObjValue(spec)) == ConvertSpec(parse, old(Meaning(ObjValue(spec))))
    decreases spec.Repr, 1
  {
    hide IsTree, Meaning;
    EntryKinds(spec, "rate");
    SetRate(parse, spec);
    EntryKinds(spec, "conditions");
    if "conditions" in spec.entries && spec.entries["conditions"].ArrValue? {
      ConvertConditionsOf(parse, spec);
    }
  }

  method ConvertConditionsOf(parse: ParseFloat, spec: JsonObject)
    requires IsTree(ObjValue(spec)) && "conditions" in spec.entries && spec.entries["conditions"].ArrValue?
    requires var fields := Meaning(ObjValue(spec)).fields; "conditions" in fields && fields["conditions"].Arr?
    modifies spec.Repr
    ensures IsTree(ObjValue(spec))
    ensures var fields := old(Meaning(ObjValue(spec)).fields);
      Meaning(ObjValue(spec)) == Obj(fields["conditions" := ConvertConditions(parse, fields["conditions"])])
    decreases spec.Repr, 0
  {
    ghost var fields := Meaning(ObjValue(spec)).fields;
    ConvertRateInConditions(parse, spec.entries["conditions"]);
    MeaningIs(spec, fields["conditions" := ConvertConditions(parse, fields["conditions"])]);
  }

  method SetRate(parse: ParseFloat, spec: JsonObject)
    requires IsTree(ObjValue(spec))
    modifies spec
    ensures IsTree(ObjValue(spec))
    ensures Meaning(ObjValue(spec)) == Rated(parse, old(Meaning(ObjValue(spec))))
  {
    ghost var before := Meaning(ObjValue(spec)).fields;
    if "rate" in spec.entries && spec.entries["rate"].TextValue? {
      var rate := parse(spec.entries["rate"].text);
      assert before["rate"] == Meaning(spec.entries["rate"]) == Text(spec.entries["rate"].text);
      if rate.Some? {
        SetNumber(spec, "rate", rate.value);
      }
    }
  }

  method SetNumber(obj: JsonObject, key: string, number: Float)
    requires IsTree(ObjValue(obj))
    modifies obj
    ensures IsTree(ObjValue(obj))
    ensures Meaning(ObjValue(obj)) == Obj(old(Meaning(ObjValue(obj)).fields)[key := Number(number)])
  {
    hide IsTree, Meaning;
    EntriesOf(obj);
    ghost var before := Meaning(ObjValue(obj)).fields;
    obj.entries := obj.entries[key := NumberValue(number)];
    assert forall k | k in obj.entries && k != key ::
      IsTree(obj.entries[k]) && Meaning(obj.entries[k]) == old(Meaning(obj.entries[k]));
    NumberMeans(number);
    ObjectMeaningIs(obj, before[key := Number(number)]);
  }

  lemma NumberMeans(number: Float)
    ensures IsTree(NumberValue(number)) && Meaning(NumberValue(number)) == Number(number)
    ensures Objects(NumberValue(number)) == {}
  {
  }

  method ConvertRateInConditions(parse: ParseFloat, conditions: Value)
    requires IsTree(conditions) && conditions.ArrValue?
    modifies Objects(conditions)
    ensures IsTree(conditions)
    ensures Meaning(conditions) == ConvertConditions(parse, old(Meaning(conditions)))
    decreases Objects(conditions), 3
  {
    hide IsTree, Meaning;
    ItemsOf(conditions);
    var items := conditions.items;
    ghost var before := Meaning(conditions).items;
    for i := 0 to |items|
      invariant forall k | 0 <= k < |items| :: IsTree(items[k])
      invariant forall k | 0 <= k < |items| ::
        Meaning(items[k]) == if k < i then ConvertCondition(parse, before[k]) else before[k]
    {
      label step:
      if items[i].ObjValue? {
        forall k | 0 <= k < |items| {
          ObjectsAreAllocated(items[k]);
        }
        ConvertRateInCondition(parse, items[i].obj);
        forall k | 0 <= k < |items| && k != i
          ensures IsTree(items[k]) && Meaning(items[k]) == old@step(Meaning(items[k]))
        {
          assert Objects(items[k]) !! Objects(items[i]);
        }
      }
    }
    ArrayMeaningIs(conditions, ConvertConditions(parse, Arr(before)).items);
  }

  method ConvertConditionRates(parse: ParseFloat, spec: JsonObject)
    requires IsTree(ObjValue(spec))
    modifies spec.Repr
    ensures IsTree(ObjValue(spec))
    ensures Meaning(ObjValue(spec)) == ConvertResourceSpec(parse, old(Meaning(ObjValue(spec))))
  {
    hide IsTree, Meaning;
    EntriesOf(spec);
    EntryKinds(spec, "conditions");
    ghost var before := Meaning(ObjValue(spec));
    if "conditions" !in spec.entries || !spec.entries["conditions"].ObjValue? {
      return;
    }
    ConvertRateInCondition(parse, spec.entries["conditions"].obj);
    assert forall key | key in spec.entries && key != "conditions" ::
      IsTree(spec.entries[key]) && Meaning(spec.entries[key]) == old(Meaning(spec.entries[key]));
    ObjectMeaningIs(spec, ConvertResourceSpec(parse, before).fields);
  }

  /** Objects that did not exist at some earlier time, forming a tree that means the given value. */
  method Unmarshal(json: Json) returns (value: Value)
    ensures fresh(Objects(value)) && IsTree(value) && Meaning(value) == json
    decreases json
  {
    match json {
      case Null => value := NullValue;
      case Bool(b) => value := BoolValue(b);
      case Number(number) => value := NumberValue(number);
      case Text(text) => value := TextValue(text);
      case Arr(items) => value := UnmarshalArray(json);
      case Obj(fields) => value := UnmarshalObject(json);
    }
  }

  method UnmarshalArray(json: Json) returns (value: Value)
    requires json.Arr?
    ensures fresh(Objects(value)) && IsTree(value) && Meaning(value) == json
    decreases json, 0
  {
    hide IsTree, Meaning;
    var values: seq<Value> := [];
    for i := 0 to |json.items|
      invariant |values| == i
      invariant forall k | 0 <= k < i :: fresh(Objects(values[k])) && IsTree(values[k])
      invariant forall k | 0 <= k < i :: Meaning(values[k]) == json.items[k]
      invariant forall j, k | 0 <= j < k < i :: Objects(values[j]) !! Objects(values[k])
    {
      forall k | 0 <= k < i {
        ObjectsAreAllocated(values[k]);
      }
      var next := Unmarshal(json.items[i]);
      values := values + [next];
    }
    value := ArrValue(values);
    ArrayMeaningIs(value, json.items);
  }

  method UnmarshalObject(json: Json) returns (value: Value)
    requires json.Obj?
    ensures fresh(Objects(value)) && IsTree(value) && Meaning(value) == json
    decreases json, 0
  {
    hide IsTree, Meaning;
    var remaining := json.fields.Keys;
    var values: map<string, Value> := map[];
    while remaining != {}
      invariant values.Keys == json.fields.Keys - remaining
      invariant forall key | key in values :: fresh(Objects(values[key])) && IsTree(values[key])
      invariant forall key | key in values :: Meaning(values[key]) == json.fields[key]
      invariant forall k, l | k in values && l in values && k != l :: Objects(values[k]) !! Objects(values[l])
    {
      var key :| key in remaining;
      forall k | k in values {
        ObjectsAreAllocated(values[k]);
      }
      var next := Unmarshal(json.fields[key]);
      values := values[key := next];
      remaining := remaining - {key};
    }
    forall k | k in values {
      ObjectsAreAllocated(values[k]);
    }
    ghost var children := set key, o | key in values && o in Objects(values[key]) :: o;
    var obj := new JsonObject(values, children);
    value := ObjValue(obj);
    ObjectMeaningIs(obj, json.fields);
  }

  /** The value of an object, if JSON can represent it. */
  function Marshal(obj: JsonObject): Option<Json>
    requires IsTree(ObjValue(obj))
    reads obj.Repr
  {
    var meaning := Meaning(ObjValue(obj));
    if IsSerializable(meaning) then Some(meaning) else None
  }

  method DeepCopy(obj: JsonObject) returns (copy: Option<JsonObject>)
    requires IsTree(ObjValue(obj))
    ensures copy.Some? <==> IsSerializable(old(Meaning(ObjValue(obj))))
    ensures copy.Some? ==> fresh(copy.value.Repr) && IsTree(ObjValue(copy.value)) &&
                           Meaning(ObjValue(copy.value)) == old(Meaning(ObjValue(obj)))
  {
    var marshalled := Marshal(obj);
    if marshalled.None? {
      return None;
    }
    var value := Unmarshal(marshalled.value);
    copy := Some(value.obj);
  }

  function Labels(dataset: string): Json {
    Obj(map["dash0.com/dataset" := Text(dataset)])
  }

  function Metadata(name: string, dataset: string): Json {
    Obj(map["name" := Text(name), "labels" := Labels(dataset)])
  }

  function Payload(name: string, dataset: string, spec: Json): Json {
    Obj(map["kind" := Text("Dash0Sampling"), "metadata" := Metadata(name, dataset), "spec" := spec])
  }

  lemma TextMeans(text: string)
    ensures IsTree(TextValue(text)) && Meaning(TextValue(text)) == Text(text) && Objects(TextValue(text)) == {}
  {
  }

  method NewMetadata(name: string, dataset: string) returns (metadata: Value)
    ensures fresh(Objects(metadata)) && IsTree(metadata) && Meaning(metadata) == Metadata(name, dataset)
  {
    hide IsTree, Meaning;
    TextMeans(dataset);
    var labels := new JsonObject(map["dash0.com/dataset" := TextValue(dataset)], {});
    ObjectMeaningIs(labels, Labels(dataset).fields);
    var obj := new JsonObject(map["name" := TextValue(name), "labels" := ObjValue(labels)], {labels});
    TextMeans(name);
    ObjectMeaningIs(obj, Metadata(name, dataset).fields);
    metadata := ObjValue(obj);
  }

  method NewPayload(metadata: Value, spec: Value, ghost meaning: Json) returns (payload: JsonObject)
    requires IsTree(metadata) && IsTree(spec) && Objects(metadata) !! Objects(spec)
    requires meaning ==
      Obj(map["kind" := Text("Dash0Sampling"), "metadata" := Meaning(metadata), "spec" := Meaning(spec)])
    ensures IsTree(ObjValue(payload)) && Meaning(ObjValue(payload)) == meaning
    ensures fresh(payload.Repr - Objects(metadata) - Objects(spec))
  {
    hide IsTree, Meaning;
    ObjectsAreAllocated(metadata);
    ObjectsAreAllocated(spec);
    payload := new JsonObject(map["kind" := TextValue("Dash0Sampling"), "metadata" := metadata, "spec" := spec],
                              Objects(metadata) + Objects(spec));
    TextMeans("Dash0Sampling");
    ObjectMeaningIs(payload, meaning.fields);
  }

  method CopyAndConvert(parse: ParseFloat, spec: JsonObject) returns (copy: Option<Value>)
    requires IsTree(ObjValue(spec))
    ensures copy.Some? <==> IsSerializable(old(Meaning(ObjValue(spec))))
    ensures copy.Some? ==> fresh(Objects(copy.value)) && IsTree(copy.value) &&
                           Meaning(copy.value) == ConvertResourceSpec(parse, old(Meaning(ObjValue(spec))))
  {
    hide IsTree, Meaning;
    var specCopy := DeepCopy(spec);
    if specCopy.None? {
      return None;
    }
    ConvertConditionRates(parse, specCopy.value);
    copy := Some(ObjValue(specCopy.value));
  }

  /** The payload for a resource, or that there is none because it has no spec, or one that cannot be copied. */
  ghost function PayloadFor(parse: ParseFloat, resource: Json, name: string, dataset: string): Option<Json> {
    if resource.Obj? && "spec" in resource.fields && resource.fields["spec"].Obj? &&
       IsSerializable(resource.fields["spec"])
    then
      Some(Payload(name, dataset, ConvertResourceSpec(parse, resource.fields["spec"])))
    else
      None
  }

  /** The resource is not modified. */
  method TransformToSamplingApiPayload(parse: ParseFloat, resource: JsonObject, name: string, dataset: string)
    returns (payload: Option<JsonObject>)
    requires IsTree(ObjValue(resource))
    ensures IsTree(ObjValue(resource)) && Meaning(ObjValue(resource)) == old(Meaning(ObjValue(resource)))
    ensures payload.Some? <==> PayloadFor(parse, old(Meaning(ObjValue(resource))), name, dataset).Some?
    ensures payload.Some? ==>
      && fresh(payload.value.Repr) && IsTree(ObjValue(payload.value))
      && Some(Meaning(ObjValue(payload.value))) == PayloadFor(parse, old(Meaning(ObjValue(resource))), name, dataset)
  {
    hide IsTree, Meaning;
    EntryKinds(resource, "spec");
    ObjectsAreAllocated(ObjValue(resource));
    if "spec" !in resource.entries || !resource.entries["spec"].ObjValue? {
      return None;
    }
    var spec := CopyAndConvert(parse, resource.entries["spec"].obj);
    if spec.None? {
      return None;
    }
    ObjectsAreAllocated(spec.value);
    label copied:
    var metadata := NewMetadata(name, dataset);
    assert IsTree(spec.value) && Meaning(spec.value) == old@copied(Meaning(spec.value));
    var apiPayload := NewPayload(metadata, spec.value, Payload(name, dataset, Meaning(spec.value)));
    payload := Some(apiPayload);
    assert Meaning(ObjValue(resource)) == old(Meaning(ObjValue(resource)));
  }

  lemma PayloadIsSerializable(name: string, dataset: string, spec: Json)
    ensures IsSerializable(Payload(name, dataset, spec)) <==> IsSerializable(spec)
  {
    assert Payload(name, dataset, spec).fields["spec"] == spec;
    assert forall key | key in Payload(name, dataset, spec).fields && key != "spec" ::
      IsSerializable(Payload(name, dataset, spec).fields[key]) by {
      assert IsSerializable(Labels(dataset));
      assert IsSerializable(Metadata(name, dataset));
    }
  }

  /** The serialized payload. For a resource that can be serialized itself, there is one exactly if the resource has
      a spec and no rate in it is a text that stands for something other than a finite number. */
  method SerializeSamplingDefinition(parse: ParseFloat, resource: JsonObject, name: string, dataset: string)
    returns (serialized: Option<Json>)
    requires IsTree(ObjValue(resource))
    ensures IsTree(ObjValue(resource)) && Meaning(ObjValue(resource)) == old(Meaning(ObjValue(resource)))
    ensures var payload := PayloadFor(parse, old(Meaning(ObjValue(resource))), name, dataset);
      serialized == if payload.Some? && IsSerializable(payload.value) then payload else None
  {
    hide IsTree, Meaning, PayloadFor, IsSerializable;
    var apiPayload := TransformToSamplingApiPayload(parse, resource, name, dataset);
    if apiPayload.None? {
      return None;
    }
    serialized := Marshal(apiPayload.value);
  }

  /** What can be found in the payload. */
  lemma PayloadParts(parse: ParseFloat, resource: Json, name: string, dataset: string, path: Path)
    requires PayloadFor(parse, resource, name, dataset).Some?
    ensures var payload := PayloadFor(parse, resource, name, dataset).value;
      && resource.Obj? && "spec" in resource.fields
      && At(payload, []) == Keys({"kind", "metadata", "spec"})
      && At(payload, [Key("kind")]) == Scalar(Text("Dash0Sampling"))
      && At(payload, [Key("metadata"), Key("name")]) == Scalar(Text(name))
      && At(payload, [Key("metadata"), Key("labels"), Key("dash0.com/dataset")]) == Scalar(Text(dataset))
      && At(payload, [Key("spec")] + path) ==
           if IsRate(path) then At(ConvertResourceSpec(parse, resource.fields["spec"]), path)
           else At(resource.fields["spec"], path)
  {
    var payload := PayloadFor(parse, resource, name, dataset).value;
    MetadataParts(name, dataset);
    assert ([Key("spec")] + path)[1..] == path;
    assert [Key("metadata"), Key("name")][1..] == [Key("name")];
    assert [Key("metadata"), Key("labels"), Key("dash0.com/dataset")][1..] ==
      [Key("labels"), Key("dash0.com/dataset")];
    ConversionChangesExactlyRates(parse, resource.fields["spec"], path);
    hide Metadata, ConvertResourceSpec, IsRate, IsSerializable;
    assert At(payload, [Key("spec")] + path) == At(payload.fields["spec"], path);
  }

  lemma MetadataParts(name: string, dataset: string)
    ensures At(Metadata(name, dataset), [Key("name")]) == Scalar(Text(name))
    ensures At(Metadata(name, dataset), [Key("labels"), Key("dash0.com/dataset")]) == Scalar(Text(dataset))
  {
    assert [Key("labels"), Key("dash0.com/dataset")][1..] == [Key("dash0.com/dataset")];
    assert At(Labels(dataset), [Key("dash0.com/dataset")]) == Scalar(Text(dataset));
  }

  lemma SerializedIff(parse: ParseFloat, resource: Json, name: string, dataset: string)
    requires IsSerializable(resource)
    ensures var payload := PayloadFor(parse, resource, name, dataset);
      payload.Some? && IsSerializable(payload.value) <==>
      && resource.Obj? && "spec" in resource.fields && resource.fields["spec"].Obj?
      && forall path, text | IsRate(path) && At(resource.fields["spec"], path) == Scalar(Text(text)) ::
           parse(text) != Some(NotFinite)
  {
    if resource.Obj? && "spec" in resource.fields && resource.fields["spec"].Obj? {
      var spec := resource.fields["spec"];
      ConversionIsSerializableIff(parse, spec);
      PayloadIsSerializable(name, dataset, ConvertResourceSpec(parse, spec));
    }
  }
}
