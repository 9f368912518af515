/** The objects exchanged between IO routers and agents. */
module IoModel {
  import opened Prelude

  type Uuid = string

  /** An IO source; `updateRate` is its maximum drain rate in milliseconds. */
  datatype IoSource = IoSource(
    objectId: Uuid, valueType: string, useRawIoValues: bool,
    updateRate: Option<real>, externalRoute: Option<string>)

  /** An IO actor; `updateRate` is its desired rate in milliseconds. */
  datatype IoActor = IoActor(
    objectId: Uuid, valueType: string, useRawIoValues: bool, updateRate: Option<real>)

  datatype IoNode = IoNode(objectId: Uuid, ioSources: seq<IoSource>, ioActors: seq<IoActor>)

  /** An IO context; `data` stands for the application-specific properties that rules may inspect. */
  datatype IoContext = IoContext(name: string, data: string)

  /** A source id and an actor id. */
  type Pair = (Uuid, Uuid)

  /**
   * An Associate event as it travels over the wire. A `route` of `None` dissolves the
   * association. The flag telling external routes apart is not serialised by the
   * event data, so receivers never see it.
   */
  datatype AssociateEvent = AssociateEvent(
    sourceId: Uuid, actorId: Uuid, route: Option<string>, updateRate: Option<real>)
  {
    function Pair(): Pair { (sourceId, actorId) }
  }

  /** What one Associate event does to a relation between sources and actors. */
  function Apply(pairs: set<Pair>, e: AssociateEvent): set<Pair> {
    if e.route.Some? then pairs + {e.Pair()} else pairs - {e.Pair()}
  }

  /** What a sequence of Associate events does to a relation between sources and actors. */
  function Replay(pairs: set<Pair>, events: seq<AssociateEvent>): set<Pair> {
    if events == [] then pairs
    else Apply(Replay(pairs, events[..|events| - 1]), events[|events| - 1])
  }
}
