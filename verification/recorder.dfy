/** The part of the X-Ray recorder the interceptor drives: a stack of open
    entities (the innermost one is the "current entity" of the trace context),
    the subsegments already ended, and the reports made to the
    missing-context handler. Recorder operations that act on the current
    entity do nothing when no entity is open. */
module Tracing {
  import opened Common
  import opened Models

  /** A segment or subsegment: its name, namespace, `aws` and `http` attribute
      bags, outcome flags and recorded exceptions. */
  datatype Entity = Entity(
    name: string,
    ns: Option<string>,
    aws: map<string, Value>,
    http: map<string, map<string, Value>>,
    hasError: bool,
    isThrottled: bool,
    hasFault: bool,
    exceptions: seq<Exception>)

  /** A freshly begun subsegment. */
  function NewSubsegment(name: string): (e: Entity)
    ensures e.name == name && e.aws == map[] && e.http == map[] && e.exceptions == []
    ensures !e.hasError && !e.isThrottled && !e.hasFault && e.ns.None?
  {
    Entity(name, None, map[], map[], false, false, false, [])
  }

  /** The recorder as a value: open entities (last = current), ended subsegments,
      and the number of missing-context reports. */
  datatype TraceState = TraceState(open: seq<Entity>, closed: seq<Entity>, missingReports: nat)

  function Top(open: seq<Entity>): Entity
    requires open != []
  {
    open[|open| - 1]
  }

  /** `open` with its current entity replaced by `e`. */
  function WithTop(open: seq<Entity>, e: Entity): (r: seq<Entity>)
    requires open != []
    ensures |r| == |open| && r[..|r| - 1] == open[..|open| - 1] && Top(r) == e
  {
    open[..|open| - 1] + [e]
  }

  class Recorder {
    /** `IsTracingDisabled()` of the recorder instance. */
    const tracingDisabled: bool
    var open: seq<Entity>
    var closed: seq<Entity>
    var missingReports: nat

    constructor (tracingDisabled: bool, open: seq<Entity>)
      ensures this.tracingDisabled == tracingDisabled
      ensures this.open == open && closed == [] && missingReports == 0
    {
      this.tracingDisabled := tracingDisabled;
      this.open := open;
      closed := [];
      missingReports := 0;
    }

    function State(): TraceState
      reads this
    {
      TraceState(open, closed, missingReports)
    }

    /** `GetEntity()`: the current entity, or `None` where it throws
        `EntityNotAvailableException`. */
    method GetEntity() returns (r: Option<Entity>)
      ensures r.None? <==> open == []
      ensures r.Some? ==> r.value == open[|open| - 1]
    {
      if open == [] {
        return None;
      }
      return Some(open[|open| - 1]);
    }

    /** `TraceContext.HandleEntityMissing`: a report, never a throw. */
    method HandleEntityMissing()
      modifies this`missingReports
      ensures missingReports == old(missingReports) + 1
    {
      missingReports := missingReports + 1;
    }

    /** `BeginSubsegment(name)`: a new subsegment becomes the current entity. */
    method BeginSubsegment(name: string)
      modifies this`open
      ensures old(open) == [] ==> open == []
      ensures old(open) != [] ==> open == old(open) + [NewSubsegment(name)]
    {
      if open != [] {
        open := open + [NewSubsegment(name)];
      }
    }

    /** `EndSubsegment()`: the current entity is ended. */
    method EndSubsegment()
      modifies this`open, this`closed
      ensures old(open) == [] ==> open == [] && closed == old(closed)
      ensures old(open) != [] ==> open == old(open)[..|old(open)| - 1] && closed == old(closed) + [Top(old(open))]
    {
      if open != [] {
        closed := closed + [Top(open)];
        open := open[..|open| - 1];
      }
    }

    /** Replaces the current entity by `e`: the shape of every recorder call that
        updates the current entity (`SetNamespace`, `MarkError`, writes to `Aws`, ...). */
    method UpdateCurrent(e: Entity)
      requires open != []
      modifies this`open
      ensures open == WithTop(old(open), e)
    {
      open := WithTop(open, e);
    }

    method SetNamespace(ns: string)
      modifies this`open
      ensures old(open) == [] ==> open == []
      ensures old(open) != [] ==> open == WithTop(old(open), Top(old(open)).(ns := Some(ns)))
    {
      if open != [] {
        UpdateCurrent(Top(open).(ns := Some(ns)));
      }
    }

    method MarkError()
      modifies this`open
      ensures old(open) == [] ==> open == []
      ensures old(open) != [] ==> open == WithTop(old(open), Top(old(open)).(hasError := true))
    {
      if open != [] {
        UpdateCurrent(Top(open).(hasError := true));
      }
    }

    method MarkThrottle()
      modifies this`open
      ensures old(open) == [] ==> open == []
      ensures old(open) != [] ==> open == WithTop(old(open), Top(old(open)).(isThrottled := true))
    {
      if open != [] {
        UpdateCurrent(Top(open).(isThrottled := true));
      }
    }

    method MarkFault()
      modifies this`open
      ensures old(open) == [] ==> open == []
      ensures old(open) != [] ==> open == WithTop(old(open), Top(old(open)).(hasFault := true))
    {
      if open != [] {
        UpdateCurrent(Top(open).(hasFault := true));
      }
    }

    /** `AddHttpInformation(key, value)`: stores an attribute bag under `http[key]`. */
    method AddHttpInformation(key: string, attributes: map<string, Value>)
      modifies this`open
      ensures old(open) == [] ==> open == []
      ensures old(open) != [] ==>
                open == WithTop(old(open), Top(old(open)).(http := Top(old(open)).http[key := attributes]))
    {
      if open != [] {
        var e := Top(open);
        UpdateCurrent(e.(http := e.http[key := attributes]));
      }
    }

    /** `subSegment.Aws[key] = value` on the current entity. */
    method SetAws(key: string, value: Value)
      modifies this`open
      ensures old(open) == [] ==> open == []
      ensures old(open) != [] ==>
                open == WithTop(old(open), Top(old(open)).(aws := Top(old(open)).aws[key := value]))
    {
      if open != [] {
        var e := Top(open);
        UpdateCurrent(e.(aws := e.aws[key := value]));
      }
    }

    /** `subSegment.AddException(e)` on the current entity. */
    method AddException(ex: Exception)
      modifies this`open
      ensures old(open) == [] ==> open == []
      ensures old(open) != [] ==>
                open == WithTop(old(open), Top(old(open)).(exceptions := Top(old(open)).exceptions + [ex]))
    {
      if open != [] {
        var e := Top(open);
        UpdateCurrent(e.(exceptions := e.exceptions + [ex]));
      }
    }
  }
}
