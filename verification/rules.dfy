/** Rules, conditions and normalized events (siem-server/rules/rule_structure.go). */
module Rules {
  import opened Wrappers

  /** A normalized event: its standard fields, and the values reachable inside the JSON of raw_log. */
  datatype Event = Event(fields: map<string, string>, rawFields: map<string, string>)

  /** A condition. What it tests is abstract; what is kept is the field lookup and, for the
      regex operator, whether the pattern is valid and whether it has been compiled. */
  datatype Condition = Condition(field: string, isRegex: bool, validPattern: bool, compiled: bool, test: Event -> bool)

  datatype AggregationKind = Count | Threshold | Sequence | Unsupported

  datatype TimeWindow = EmptyWindow | MalformedWindow | Window(length: int)

  datatype ThresholdOp = NoOperator | Sum | Max | Avg | DistinctCount | UnknownOperator

  datatype Aggregation = Aggregation(
    kind: AggregationKind,
    field: string,
    window: TimeWindow,
    threshold: int,
    valueField: string,
    operator: ThresholdOp,
    thresholdValue: real,
    parseFloat: string -> Option<real>,
    steps: seq<seq<Condition>>)

  datatype Rule = Rule(id: string, enabled: bool, conditions: seq<Condition>, aggregation: Option<Aggregation>)

  function FieldValue(field: string, e: Event): Option<string> {
    if field in e.fields then Some(e.fields[field]) else None
  }

  /** The grouping key: "global" without a field, "" when the event lacks the field. */
  function GroupKey(field: string, e: Event): string {
    if field == "" then "global"
    else match FieldValue(field, e)
      case None => ""
      case Some(v) => field + ":" + v
  }

  /** Keys separate groups: without a field all events share the key "global"; with one, an event has no key
      iff it lacks the field, and two events share a key iff they share the value of the field. */
  lemma GroupKeysSeparate(field: string, a: Event, b: Event)
    ensures field == "" ==> GroupKey(field, a) == "global"
    ensures field != "" ==> (GroupKey(field, a) == "" <==> field !in a.fields)
    ensures field != "" && field in a.fields ==> GroupKey(field, a) == field + ":" + a.fields[field]
    ensures field != "" && field in a.fields && field in b.fields ==>
              (GroupKey(field, a) == GroupKey(field, b) <==> a.fields[field] == b.fields[field])
  {
    if FieldValue(field, a).Some? {
      var v := FieldValue(field, a).value;
      assert (field + ":" + v)[|field| + 1..] == v;
      if FieldValue(field, b).Some? {
        var u := FieldValue(field, b).value;
        assert (field + ":" + u)[|field| + 1..] == u;
      }
    }
  }

  const RAW_PREFIX := "raw_log."

  function ExtractValueField(valueField: string, e: Event): string {
    if RAW_PREFIX <= valueField then
      var sub := valueField[|RAW_PREFIX|..];
      if sub in e.rawFields then e.rawFields[sub] else ""
    else match FieldValue(valueField, e)
      case None => ""
      case Some(v) => v
  }

  /** A value field under "raw_log." names a value inside the raw log, any other a field of the event; a
      missing value reads as empty. */
  lemma ValueFieldMeans(name: string, e: Event)
    ensures ExtractValueField("raw_log." + name, e) == if name in e.rawFields then e.rawFields[name] else ""
    ensures !("raw_log." <= name) ==> ExtractValueField(name, e) == if name in e.fields then e.fields[name] else ""
  {
    assert ("raw_log." + name)[|RAW_PREFIX|..] == name;
  }

  predicate CheckCondition(c: Condition, e: Event) {
    FieldValue(c.field, e).Some? && (c.isRegex ==> c.compiled) && c.test(e)
  }

  predicate CheckConditions(cs: seq<Condition>, e: Event) {
    forall i :: 0 <= i < |cs| ==> CheckCondition(cs[i], e)
  }

  /** Conditions hold of an event iff each names a field that the event has and its test holds; a regular
      expression that was not compiled never holds. */
  lemma ConditionsMean(cs: seq<Condition>, e: Event)
    ensures CheckConditions(cs, e) <==>
              forall c :: c in cs ==> c.field in e.fields && c.test(e) && (c.isRegex ==> c.compiled)
  {
    if CheckConditions(cs, e) {
      forall c | c in cs ensures c.field in e.fields && c.test(e) && (c.isRegex ==> c.compiled) {
        var i :| 0 <= i < |cs| && cs[i] == c;
        assert CheckCondition(cs[i], e);
      }
    }
  }

  /** threshold_value, or threshold when it is zero. */
  function EffectiveThreshold(agg: Aggregation): real {
    if agg.thresholdValue == 0.0 then agg.threshold as real else agg.thresholdValue
  }

  /** The group an event belongs to under a rule. */
  function Group(rule: Rule, e: Event): string {
    if rule.aggregation.None? then "" else GroupKey(rule.aggregation.value.field, e)
  }
}
