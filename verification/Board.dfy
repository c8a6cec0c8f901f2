/** Values shared by the whole model: cells, actors, items on the board, and log entries. */
module Board {
  datatype Option<+T> = None | Some(value: T)

  type Login = string
  type ActorId = int

  const BOMB_TICKS_LEFT := 3
  const BOMB_EXPLODE_RADIUS := 1
  const BOMB_PLACE_RADIUS := 1
  const GUN_COOLDOWN := 3
  const GUN_SHOTS := 3
  const GUN_PLACE_RADIUS := 1

  datatype Position = Position(x: int, y: int)

  datatype Direction = Up | Right | Down | Left

  /** The neighbouring cell in direction `d`; `y` grows downwards. */
  function Ahead(p: Position, d: Direction): Position {
    match d
    case Up => Position(p.x, p.y - 1)
    case Right => Position(p.x + 1, p.y)
    case Down => Position(p.x, p.y + 1)
    case Left => Position(p.x - 1, p.y)
  }

  /** `--n` on a 32-bit `unsigned`. */
  function Decrement(n: nat): nat {
    if n == 0 then 0xFFFF_FFFF else n - 1
  }

  /** The value of one game object: the list `State::objects` holds these. */
  datatype Item =
    | BombItem(owner: Login, id: ActorId, pos: Position, ticksLeft: nat)
    | GunItem(owner: Login, id: ActorId, pos: Position, dir: Direction, ticksToShot: nat, shotsLeft: nat)
    | BulletItem(owner: Login, id: ActorId, pos: Position, dir: Direction)

  /** `players.front()` and `players.back()`. */
  datatype Side = First | Second

  function Other(s: Side): Side {
    if s == First then Second else First
  }

  datatype PlayerValue = PlayerValue(id: ActorId, login: Login, pos: Position)

  datatype Wall = Wall(id: ActorId, pos: Position)

  /** The part of the state that does not change while objects are ticked. */
  datatype Arena = Arena(first: PlayerValue, second: PlayerValue, walls: seq<Wall>, width: int, height: int)
  {
    function At(s: Side): PlayerValue {
      if s == First then first else second
    }

    predicate InMap(p: Position) {
      0 <= p.x < width && 0 <= p.y < height
    }
  }

  datatype EventName =
    | PlayerWalk | PlayerResign | PlayerPlaceBomb | PlayerPlaceGun | PlayerWon | PlayerDead
    | BombTicking | BombExplode
    | GunWaiting | GunShot | GunDestroy
    | BulletFly | BulletInteraction | BulletDestroy

  datatype Event = Event(moveNumber: int, actor: ActorId, name: EventName, payload: Payload)

  /** What the event classes derived from `Event` add to it. */
  datatype Payload =
    | Nothing
    | Positioned(pos: Position)
    | NewObject(pos: Position, newActor: ActorId)
    | NewDirObject(pos: Position, newActor: ActorId, dir: Direction)
    | Interaction(with: ActorId, happened: seq<Event>)

  /** The number an event carries before the log stamps it. */
  const UNSTAMPED := 0

  function Plain(actor: ActorId, name: EventName): Event {
    Event(UNSTAMPED, actor, name, Nothing)
  }

  function StampAll(es: seq<Event>, move: int): (r: seq<Event>)
    ensures |r| == |es|
    ensures forall i :: 0 <= i < |es| ==> r[i] == es[i].(moveNumber := move)
  {
    seq(|es|, i requires 0 <= i < |es| => es[i].(moveNumber := move))
  }

  /** Stamps an event and, for an interaction, the events that happened inside it. */
  function Stamp(e: Event, move: int): Event {
    var payload := if e.payload.Interaction?
                   then e.payload.(happened := StampAll(e.payload.happened, move)) else e.payload;
    e.(moveNumber := move, payload := payload)
  }

  /** The winner and the loser, in the order in which the scoreboard lists them. */
  function Verdict(loser: Side): seq<Side> {
    [Other(loser), loser]
  }

  lemma Associate<T>(s: seq<T>, t: seq<T>, u: seq<T>)
    ensures s + (t + u) == (s + t) + u
  {
  }
}
