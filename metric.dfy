/** The float64 histogram instrument of the OpenTelemetry metrics API. */
module Metric {
  import SemConv

  /** An attribute set: one value per key, kept in key order, so a map. */
  type AttributeSet = map<string, SemConv.Value>

  /** The keys an attribute list names, each once. */
  ghost function KeysOf(attrs: seq<SemConv.KeyValue>): set<string>
  {
    set i | 0 <= i < |attrs| :: attrs[i].key
  }

  /**
   * metric.WithAttributes: the attribute list becomes an attribute set
   * (attribute.NewSet), which keeps, for each key, the value that comes last
   * in the list.
   */
  function WithAttributes(attrs: seq<SemConv.KeyValue>): (s: AttributeSet)
    ensures s.Keys == KeysOf(attrs)
    ensures |attrs| > 0 ==> s[attrs[|attrs| - 1].key] == attrs[|attrs| - 1].value
  {
    if |attrs| == 0 then map[]
    else
      var init, last := attrs[..|attrs| - 1], attrs[|attrs| - 1];
      assert KeysOf(attrs) == KeysOf(init) + {last.key} by {
        assert forall i :: 0 <= i < |init| ==> init[i] == attrs[i];
      }
      WithAttributes(init)[last.key := last.value]
  }

  /**
   * An entry whose key does not come again later in the list is the value
   * the set holds for that key; so the set keeps the last value of each key.
   */
  lemma {:induction false} WithAttributesKeepsLast(attrs: seq<SemConv.KeyValue>, i: nat)
    requires i < |attrs|
    requires forall j :: i < j < |attrs| ==> attrs[j].key != attrs[i].key
    ensures attrs[i].key in WithAttributes(attrs)
    ensures WithAttributes(attrs)[attrs[i].key] == attrs[i].value
  {
    if i < |attrs| - 1 {
      var init := attrs[..|attrs| - 1];
      assert forall j :: i < j < |init| ==> init[j] == attrs[j];
      WithAttributesKeepsLast(init, i);
    }
  }

  /** One recorded value with the attribute set it was filed under. */
  datatype Measurement = Measurement(value: real, attrs: AttributeSet)

  /**
   * A histogram created by a meter of instrumentation scope `scope`, under
   * instrument name `name` with unit `unit`. `records` is every measurement
   * handed to it, in order; aggregation and export happen elsewhere.
   */
  class Histogram {
    const scope: string
    const name: string
    const unit: string
    ghost var records: seq<Measurement>

    constructor (scope: string, name: string, unit: string)
      ensures this.scope == scope && this.name == name && this.unit == unit
      ensures records == []
    {
      this.scope, this.name, this.unit := scope, name, unit;
      records := [];
    }

    method Record(value: real, attrs: AttributeSet)
      modifies this
      ensures records == old(records) + [Measurement(value, attrs)]
    {
      records := records + [Measurement(value, attrs)];
    }
  }
}
