/**
 * The logger (KVLogger over slf4j) and the Dropwizard meters, abstracted as a
 * trace of events: a structured log line or one `mark()` of a named meter.
 */
module Telemetry {
  import opened Wrappers
  import opened Throwables

  /** KVLogger.Level */
  datatype Level = ERROR | WARN | INFO | DEBUG

  /** A value in a structured log map. */
  datatype LogValue = Text(text: string) | Number(number: int)

  type LogMap = map<string, LogValue>

  datatype Event =
    | Log(level: Level, key: string, logMap: LogMap, throwable: Option<Throwable>)
    | Mark(meter: string)

  /** How many times `meter` is marked in `events`. */
  function MarkCount(events: seq<Event>, meter: string): nat
    decreases |events|
  {
    if events == [] then 0
    else (if events[0] == Mark(meter) then 1 else 0) + MarkCount(events[1..], meter)
  }

  /** How many log lines `events` holds. */
  function LogCount(events: seq<Event>): nat
    decreases |events|
  {
    if events == [] then 0
    else (if events[0].Log? then 1 else 0) + LogCount(events[1..])
  }

  /** Counting a concatenated trace adds the counts of its parts. */
  lemma {:induction false} CountsAppend(a: seq<Event>, b: seq<Event>, meter: string)
    ensures MarkCount(a + b, meter) == MarkCount(a, meter) + MarkCount(b, meter)
    ensures LogCount(a + b) == LogCount(a) + LogCount(b)
    decreases |a|
  {
    if a == [] {
      assert a + b == b;
    } else {
      assert (a + b)[1..] == a[1..] + b;
      CountsAppend(a[1..], b, meter);
    }
  }

  /** The counts of a one-event trace. */
  lemma CountsSingle(e: Event, meter: string)
    ensures MarkCount([e], meter) == if e == Mark(meter) then 1 else 0
    ensures LogCount([e]) == if e.Log? then 1 else 0
  {
    assert [e][1..] == [];
  }
}
