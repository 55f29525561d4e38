/** The telemetry records the core reads: a run of samples, each sample a
    dictionary from field name to value, as the collector produces them. */
module Telemetry {
  import opened Wrappers

  /** A value held in a sample dictionary. Python's `float(v)` either returns a
      number or raises: numbers (and booleans) convert; a string converts when it
      spells a float, and `asFloat` records what `float` returns for it (None
      when it raises ValueError); None and other objects raise TypeError. */
  datatype Value = Num(x: real) | Text(s: string, asFloat: Option<real>) | Null

  /** `float(v)`, with None standing for a raised TypeError or ValueError. */
  function ToFloat(v: Value): Option<real> {
    match v
    case Num(x) => Some(x)
    case Text(_, f) => f
    case Null => None
  }

  /** The empty string `""`, which `float` refuses. */
  const EmptyText: Value := Text("", None)

  type Sample = map<string, Value>

  /** The fields of a collected run that the core reads. */
  datatype TelemetryRun = TelemetryRun(runId: string, runLabel: Option<string>, samples: seq<Sample>)
}
