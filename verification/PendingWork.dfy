/** Work requested on callback threads and taken on the main loop. */
module PendingWork {
  import opened Outcomes

  /** A piece of requested work and what came with it, so that a request without a
      payload differs from no request. */
  datatype Request = Work(payload: Option<string>)

  /** The event the main loop waits on. */
  class WakeEvent {
    var flag: bool

    constructor ()
      ensures !flag
    {
      flag := false;
    }

    method Set()
      modifies this
      ensures flag
    {
      flag := true;
    }

    method Clear()
      modifies this
      ensures !flag
    {
      flag := false;
    }
  }

  /** One kind of deferred work. Each method body is one stretch under the slot's lock,
      but for `Request`, which sets the wake event after it. */
  class Slot {
    var request: Option<Request>
    const wake: WakeEvent

    constructor (wake: WakeEvent)
      ensures request == None && this.wake == wake
    {
      request := None;
      this.wake := wake;
    }

    method Request(payload: Option<string>)
      modifies this, wake
      ensures request == Some(Work(payload)) && wake.flag
    {
      request := Some(Work(payload));
      wake.Set();
    }

    method Take() returns (taken: Option<Request>)
      modifies this
      ensures taken == old(request) && request == None
    {
      taken, request := request, None;
    }

    method Requested() returns (pending: bool)
      ensures pending == request.Some?
    {
      pending := request.Some?;
    }

    method Clear()
      modifies this
      ensures request == None
    {
      request := None;
    }
  }

  type PieceEvent = (int, int, int)

  /** Piece events kept for the game, oldest first. */
  class PieceEventQueue {
    var events: seq<PieceEvent>

    constructor ()
      ensures events == []
    {
      events := [];
    }

    method Add(event: PieceEvent)
      modifies this
      ensures events == old(events) + [event]
    {
      events := events + [event];
    }

    method Next() returns (event: Option<PieceEvent>)
      modifies this
      ensures old(events) == [] ==> event == None && events == []
      ensures old(events) != [] ==> event == Some(old(events)[0]) && events == old(events)[1..]
    {
      if events == [] {
        return None;
      }
      event, events := Some(events[0]), events[1..];
    }

    method Clear()
      modifies this
      ensures events == []
    {
      events := [];
    }
  }

  datatype SlotName =
    | SettingsReload | PlayerRebuild | LichessNext | LayoutRebuild | BoardCommand
    | DisplayProfile | BleClient | PositionsMenuReturn | SwitchToNormalGame | CancelGameStart

  /** What is pending, by slot. */
  type Pending = map<SlotName, Option<Request>>

  function In(pending: Pending, name: SlotName): Option<Request> {
    if name in pending then pending[name] else None
  }

  /** Every piece of work the board defers, with the wake event its slots share. */
  class DeferredWork {
    const wake: WakeEvent
    const slots: map<SlotName, Slot>
    const pieceEvents: PieceEventQueue

    ghost predicate Valid() {
      && (forall name: SlotName :: name in slots && slots[name].wake == wake)
      && forall a: SlotName, b: SlotName :: a != b ==> slots[a] != slots[b]
    }

    ghost function Slots(): set<object>
    {
      set name | name in slots :: slots[name]
    }

    ghost function View(): Pending
      reads Slots()
    {
      map name | name in slots :: slots[name].request
    }

    constructor ()
      ensures Valid() && fresh(Slots()) && fresh(pieceEvents)
      ensures forall name: SlotName :: In(View(), name) == None
      ensures pieceEvents.events == []
    {
      var w := new WakeEvent();
      var made: map<SlotName, Slot> := map[];
      var names := [SettingsReload, PlayerRebuild, LichessNext, LayoutRebuild, BoardCommand,
                    DisplayProfile, BleClient, PositionsMenuReturn, SwitchToNormalGame, CancelGameStart];
      for i := 0 to |names|
        invariant forall name :: name in made <==> name in names[..i]
        invariant forall name | name in made :: fresh(made[name]) && made[name].wake == w && made[name].request == None
        invariant forall a, b | a in made && b in made && a != b :: made[a] != made[b]
      {
        var slot := new Slot(w);
        made := made[names[i] := slot];
      }
      assert names[..|names|] == names;
      forall name: SlotName ensures name in names {
        match name
        case SettingsReload => assert names[0] == name;
        case PlayerRebuild => assert names[1] == name;
        case LichessNext => assert names[2] == name;
        case LayoutRebuild => assert names[3] == name;
        case BoardCommand => assert names[4] == name;
        case DisplayProfile => assert names[5] == name;
        case BleClient => assert names[6] == name;
        case PositionsMenuReturn => assert names[7] == name;
        case SwitchToNormalGame => assert names[8] == name;
        case CancelGameStart => assert names[9] == name;
      }
      var queue := new PieceEventQueue();
      wake := w;
      slots := made;
      pieceEvents := queue;
    }

    method Take(name: SlotName) returns (taken: Option<Request>)
      requires Valid()
      modifies Slots()
      ensures taken == In(old(View()), name)
      ensures View() == old(View())[name := None]
    {
      assert name in slots;
      taken := slots[name].Take();
    }

    method Requested(name: SlotName) returns (pending: bool)
      requires Valid()
      ensures pending == In(View(), name).Some?
    {
      assert name in slots;
      pending := slots[name].Requested();
    }
  }
}
