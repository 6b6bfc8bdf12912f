/** File alteration events and the pseudo monitor, which produces the
    events a real monitor would send for an existing tree once, when the
    tree is first monitored. */
module FileMonitor {

  import opened Wrappers

  /** The FAM event codes, as `Event.code2str()` names them. */
  datatype Code =
    | Changed | Deleted | StartExecuting | StopExecuting | Created
    | Moved | Acknowledge | Exists | EndExist

  datatype Event = Event(requestID: int, filename: string, code: Code)

  /** The events queued for one monitored path. */
  function MonitorEvents(id: int, path: string, isDir: bool, listing: seq<string>): seq<Event>
  {
    [Event(id, path, Exists)]
    + if isDir then ListingEvents(id, listing) + [Event(id, path, EndExist)] else []
  }

  /** The queue for one path holds the path itself first; then, for a
      directory only, each listed entry in listing order and `endExist` for
      the path last. Every event carries the request id. */
  lemma MonitorEventsOrder(id: int, path: string, isDir: bool, listing: seq<string>)
    ensures var r := MonitorEvents(id, path, isDir, listing);
      && |r| == (if isDir then |listing| + 2 else 1)
      && r[0] == Event(id, path, Exists)
      && (forall i :: 0 <= i < |r| ==> r[i].requestID == id)
      && (isDir ==> forall i :: 0 <= i < |listing| ==> r[i + 1] == Event(id, listing[i], Exists))
      && (isDir ==> r[|r| - 1] == Event(id, path, EndExist))
  {
  }

  function ListingEvents(id: int, listing: seq<string>): (r: seq<Event>)
    ensures |r| == |listing|
    ensures forall i :: 0 <= i < |listing| ==> r[i] == Event(id, listing[i], Exists)
  {
    seq(|listing|, i requires 0 <= i < |listing| => Event(id, listing[i], Exists))
  }

  /** `Bcfg2.Server.FileMonitor.Pseudo`: a queue of events and the handler
      objects registered under request ids. */
  class Pseudo {
    var events: seq<Event>
    var handles: map<int, object>

    constructor ()
      ensures events == [] && handles == map[]
    {
      events := [];
      handles := map[];
    }

    /** `AddMonitor(path, obj, handleID)`. `os.path.isdir(path)` and
        `os.listdir(path)` are the inputs `isDir` and `listing`. */
    method AddMonitor(path: string, obj: object?, handleID: Option<int>, isDir: bool, listing: seq<string>)
      returns (id: int)
      modifies this
      ensures id == if handleID.Some? then handleID.value else |old(handles)|
      ensures events == old(events) + MonitorEvents(id, path, isDir, listing)
      ensures handles == if obj != null then old(handles)[id := obj] else old(handles)
    {
      id := if handleID.Some? then handleID.value else |handles|;
      var first := [Event(id, path, Exists)];
      events := events + first;
      if isDir {
        ghost var before := events;
        for i := 0 to |listing|
          invariant events == before + ListingEvents(id, listing[..i])
          invariant handles == old(handles)
        {
          assert ListingEvents(id, listing[..i + 1])
              == ListingEvents(id, listing[..i]) + [Event(id, listing[i], Exists)];
          events := events + [Event(id, listing[i], Exists)];
        }
        assert listing[..|listing|] == listing;
        var last := [Event(id, path, EndExist)];
        events := events + last;
        assert MonitorEvents(id, path, isDir, listing) == first + (ListingEvents(id, listing) + last);
        assert events == old(events) + first + ListingEvents(id, listing) + last;
      } else {
        assert MonitorEvents(id, path, isDir, listing) == first;
      }
      if obj != null {
        handles := handles[id := obj];
      }
    }
  }
}
