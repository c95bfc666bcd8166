/** The global event log: a newest-first feed of notable events across all
    endpoints, holding at most `MaxEvents` of them. */
module Drama {
  import opened Bounded
  import opened Types

  const MaxEvents := 50

  class DramaLog {
    var events: seq<DramaEvent>

    ghost predicate Valid()
      reads this
    {
      |events| <= MaxEvents
    }

    constructor ()
      ensures Valid() && events == []
    {
      events := [];
    }

    /** Records a new event in front of the log, dropping the oldest one when
        the log would exceed its capacity. */
    method AddDrama(kind: DramaKind, path: string, message: string, now: int)
      modifies this
      ensures Valid()
      ensures events == Push(old(events), DramaEvent(now, kind, path, message), MaxEvents)
    {
      events := [DramaEvent(now, kind, path, message)] + events;
      if |events| > MaxEvents {
        events := events[..MaxEvents];
      }
    }

    /** The log itself, newest first. */
    function GetEvents(): (r: seq<DramaEvent>)
      reads this
      ensures r == events
      ensures Valid() ==> |r| <= MaxEvents
    {
      events
    }

    method ClearEvents()
      modifies this
      ensures Valid() && events == []
    {
      events := [];
    }
  }

  /** What `AddDrama` promises, stated on the log's value: the new event is
      the newest, the log grows by one up to its capacity, and the older
      events keep their order with only the oldest dropped on overflow. */
  lemma AddDramaShape(log: seq<DramaEvent>, e: DramaEvent)
    ensures var r := Push(log, e, MaxEvents);
      r[0] == e && |r| == Min(|log| + 1, MaxEvents) && |r| <= MaxEvents
      && r[1..] == log[..Min(|log|, MaxEvents - 1)]
  {
  }
}
