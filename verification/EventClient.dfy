/** The two fields of `EventClient` (`packages/client-core/src/events.ts`) that a frame changes. */
module EventClient {
  import opened Text
  import opened Sse
  import Reconnect

  class EventClient {
    var lastEventId: Option<string>
    /** The frames handed to the app. */
    var received: seq<Frame>

    ghost function Model(): Reconnect.Client
      reads this
    {
      Reconnect.Client(lastEventId, received)
    }

    constructor ()
      ensures Model() == Reconnect.Client(None, [])
    {
      lastEventId, received := None, [];
    }

    /** `#consume`: the id is noted before anything else is looked at. */
    method Consume(frame: Frame)
      modifies this
      ensures Model() == Reconnect.Consume(old(Model()), frame)
    {
      if frame.id.Some? {
        lastEventId := frame.id;
      }
      if frame.event != Some(Reconnect.HEARTBEAT) {
        received := received + [frame];
      }
    }

    /** The frames of one connection, in the order the channel delivers them. */
    method ConsumeAll(frames: seq<Frame>)
      modifies this
      ensures Model() == Reconnect.ConsumeAll(old(Model()), frames)
    {
      var i := 0;
      while i < |frames|
        invariant i <= |frames|
        invariant Reconnect.ConsumeAll(Model(), frames[i..]) == Reconnect.ConsumeAll(old(Model()), frames)
      {
        assert frames[i..][1..] == frames[i + 1..];
        Consume(frames[i]);
        i := i + 1;
      }
    }
  }
}
