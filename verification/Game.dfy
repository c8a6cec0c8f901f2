/** A session as a value: what one request does to it, and runs of requests from `Init`. */
module Game {
  import opened Board
  import opened Rounds
  import opened EventLog
  import opened Validation

  datatype GameState = GameState(
    arena: Arena, objects: seq<Item>, nextId: ActorId, score: seq<Side>,
    moveNumber: int, nowTurn: Login, log: Log)

  const WALLS: seq<Wall> := [
    Wall(2, Position(0, 2)), Wall(3, Position(3, 2)),
    Wall(4, Position(4, 3)), Wall(5, Position(6, 3)),
    Wall(6, Position(1, 4)), Wall(7, Position(3, 4)),
    Wall(8, Position(4, 5)), Wall(9, Position(7, 5))
  ]
  const FIRST_OBJECT_ID := 10
  const MAP_SIDE := 8

  /** `Session::Init`: players take ids 0 and 1, the walls 2 to 9. */
  function Init(login1: Login, login2: Login): GameState {
    GameState(
      Arena(PlayerValue(0, login1, Position(4, 1)), PlayerValue(1, login2, Position(3, 6)), WALLS, MAP_SIDE, MAP_SIDE),
      [], FIRST_OBJECT_ID, [], 0, login1, EMPTY_LOG)
  }

  // ---------- one move ----------

  /** The state between a player's action and the ticks, and the event of the action. */
  datatype Acted = Acted(arena: Arena, objects: seq<Item>, nextId: ActorId, score: seq<Side>, event: Event)

  function MovePlayer(a: Arena, side: Side, p: Position): Arena {
    if side == First then a.(first := a.first.(pos := p)) else a.(second := a.second.(pos := p))
  }

  /** `ApiWalk`, `ApiResign`, `ApiPlaceBomb` and `ApiPlaceGun`. */
  function Act(s: GameState, side: Side, md: MoveData): Acted {
    var p, q := s.arena.At(side), md.position;
    match md.moveType
    case Walk =>
      Acted(MovePlayer(s.arena, side, q), s.objects, s.nextId, s.score,
            Event(UNSTAMPED, p.id, PlayerWalk, Positioned(q)))
    case Resign =>
      Acted(s.arena, s.objects, s.nextId, s.score + Verdict(side), Plain(p.id, PlayerResign))
    case PlaceBomb =>
      Acted(s.arena, s.objects + [BombItem(p.login, s.nextId, q, BOMB_TICKS_LEFT)], s.nextId + 1, s.score,
            Event(UNSTAMPED, p.id, PlayerPlaceBomb, NewObject(q, s.nextId)))
    case PlaceGun =>
      Acted(s.arena, s.objects + [GunItem(p.login, s.nextId, q, md.direction, GUN_COOLDOWN, GUN_SHOTS)],
            s.nextId + 1, s.score,
            Event(UNSTAMPED, p.id, PlayerPlaceGun, NewDirObject(q, s.nextId, md.direction)))
  }

  function Pending(c: Acted): Field {
    Start(c.objects, c.nextId, c.score)
  }

  /** The round of ticks that follows the action. */
  function AfterAct(c: Acted): Field {
    Traverse(c.arena, Pending(c))
  }

  function Victory(a: Arena, score: seq<Side>): seq<Event> {
    if score != [] then [Plain(a.At(score[0]).id, PlayerWon)] else []
  }

  /** Everything a move logs, in order. */
  function MoveEvents(c: Acted, r: Field): seq<Event> {
    ([c.event] + r.events) + Victory(c.arena, r.score)
  }

  /** How a request ends: normally, with the walk reading an erased list node,
      or with the log refusing an event. */
  datatype Outcome = Playing(state: GameState) | PrevErased | LogThrew

  function OtherTurn(a: Arena, nowTurn: Login): Login {
    if nowTurn == a.first.login then a.second.login else a.first.login
  }

  /** The state after an accepted move whose log is `log`. */
  function Moved(s: GameState, c: Acted, r: Field, log: Log): GameState {
    GameState(c.arena, r.All(), r.nextId, r.score, s.moveNumber + 1,
              if r.score != [] then s.nowTurn else OtherTurn(c.arena, s.nowTurn), log)
  }

  /** An accepted move. */
  function Accept(s: GameState, side: Side, md: MoveData): Outcome {
    var c := Act(s, side, md);
    var r := AfterAct(c);
    if !TraverseSafe(c.arena, Pending(c)) then PrevErased
    else
      match AddAll(s.log.(moveNumber := s.moveNumber + 1), MoveEvents(c, r))
      case None => LogThrew
      case Some(log) => Playing(Moved(s, c, r, log))
  }

  function SideOf(s: GameState, login: Login): Side {
    if login == s.arena.first.login then First else Second
  }

  function StatusOf(s: GameState, login: Login, md: MoveData): GameApiStatus {
    Validate(s.arena, s.objects, s.nowTurn, s.arena.At(SideOf(s, login)), md)
  }

  /** `Session::ApiMove`. */
  function ApiMove(s: GameState, login: Login, md: MoveData): (GameApiStatus, Outcome) {
    var status := StatusOf(s, login, md);
    (status, if status == Ok then Accept(s, SideOf(s, login), md) else Playing(s))
  }

  datatype Results = Results(winner: Login, loser: Login)

  /** `Session::GetResults`. */
  function GetResults(s: GameState): Option<Results>
    requires |s.score| != 1
  {
    if s.score == [] then None
    else Some(Results(s.arena.At(s.score[0]).login, s.arena.At(s.score[1]).login))
  }

  // ---------- runs ----------

  datatype Request = Request(login: Login, move: MoveData)

  /** A decided session is erased by the game manager and takes no more moves. */
  function Serve(s: GameState, r: Request): Outcome {
    if s.score != [] then Playing(s) else ApiMove(s, r.login, r.move).1
  }

  function Play(s: GameState, rs: seq<Request>): Outcome {
    if rs == [] then Playing(s)
    else
      match Play(s, rs[..|rs| - 1])
      case Playing(t) => Serve(t, rs[|rs| - 1])
      case other => other
  }
}
