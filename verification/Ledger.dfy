/** The events that profile objects carry, and snapshots of them. */
module Ledger {
  import opened Graphs

  datatype Event = Calls | Samples | Samples2 | Time | TimeRatio | TotalTime | TotalTimeRatio | CallRatio | PruneRatio

  type Events = map<Event, real>

  /** The events of all functions, of all calls, and of the cycles (under the ids of their members). */
  datatype Books = Books(functions: map<FunctionId, Events>, calls: map<(FunctionId, FunctionId), Events>,
      cycles: map<FunctionId, Events>)

  ghost predicate SameEvent(a: Events, b: Events, event: Event) {
    (event in a <==> event in b) && (event in a ==> a[event] == b[event])
  }
}
