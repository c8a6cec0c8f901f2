/** `SessionApiValidator`: which moves are accepted. */
module Validation {
  import opened Board

  datatype GameApiStatus = Ok | WrongMove | NotYourMove

  datatype MoveType = Walk | Resign | PlaceBomb | PlaceGun

  datatype MoveData = MoveData(moveType: MoveType, position: Position, direction: Direction)

  datatype SpreadType = Axial | AxialDiagonal | Square

  /** Which occupied cells are allowed. */
  datatype Restrictions = Restrictions(onPlayer: bool, onObject: bool, onWall: bool)

  const NO_OCCUPIED := Restrictions(false, false, false)

  datatype Validator = Validator(
    dependsMove: bool, spread: Option<SpreadType>, restrictions: Option<Restrictions>, distance: Option<int>)

  const WALK := Validator(true, Some(Axial), Some(NO_OCCUPIED), Some(1))
  const RESIGN := Validator(false, None, None, None)
  const PLACE_BOMB := Validator(true, Some(Square), Some(NO_OCCUPIED), Some(BOMB_PLACE_RADIUS))
  const PLACE_GUN := Validator(true, Some(Square), Some(NO_OCCUPIED), Some(GUN_PLACE_RADIUS))

  function ValidatorOf(t: MoveType): Validator {
    match t
    case Walk => WALK
    case Resign => RESIGN
    case PlaceBomb => PLACE_BOMB
    case PlaceGun => PLACE_GUN
  }

  predicate MoveDependent(v: Validator, nowTurn: Login, actor: Login) {
    !v.dependsMove || nowTurn == actor
  }

  /** The diagonal case falls through to the axial one. */
  predicate CellSpread(t: SpreadType, player: Position, cell: Position) {
    match t
    case AxialDiagonal =>
      || cell.y - cell.x == player.y - player.x
      || cell.y + cell.x == player.y + player.x
      || cell.x == player.x || cell.y == player.y
    case Axial => cell.x == player.x || cell.y == player.y
    case Square => true
  }

  function Abs(n: int): nat {
    if n < 0 then -n else n
  }

  /** The spreads by distances: along a row or a column; that or along a diagonal; anywhere. */
  lemma SpreadMeans(t: SpreadType, player: Position, cell: Position)
    ensures var dx, dy := Abs(cell.x - player.x), Abs(cell.y - player.y);
      CellSpread(t, player, cell) <==>
        t == Square || dx == 0 || dy == 0 || (t == AxialDiagonal && dx == dy)
  {
  }

  predicate CellRestrictor(r: Restrictions, a: Arena, objects: seq<Item>, cell: Position) {
    && (r.onObject || forall x :: x in objects ==> x.pos != cell)
    && (r.onPlayer || (a.first.pos != cell && a.second.pos != cell))
    && (r.onWall || forall w :: w in a.walls ==> w.pos != cell)
  }

  predicate DistanceValidator(distance: int, player: Position, cell: Position) {
    Abs(player.x - cell.x) <= distance && Abs(player.y - cell.y) <= distance
  }

  /** The call operator of the validator. */
  function Check(v: Validator, a: Arena, objects: seq<Item>, nowTurn: Login, player: PlayerValue, md: MoveData)
    : GameApiStatus
    requires v.spread.Some? ==> v.restrictions.Some? && v.distance.Some?
  {
    if !MoveDependent(v, nowTurn, player.login) then NotYourMove
    else if v.spread.None? then Ok
    else if !CellSpread(v.spread.value, player.pos, md.position) then WrongMove
    else if !CellRestrictor(v.restrictions.value, a, objects, md.position) then WrongMove
    else if !DistanceValidator(v.distance.value, player.pos, md.position) then WrongMove
    else Ok
  }

  function Validate(a: Arena, objects: seq<Item>, nowTurn: Login, player: PlayerValue, md: MoveData): GameApiStatus {
    Check(ValidatorOf(md.moveType), a, objects, nowTurn, player, md)
  }

  /** No wall, player or object is on the cell. */
  ghost predicate Free(a: Arena, objects: seq<Item>, cell: Position) {
    && (forall w :: w in a.walls ==> w.pos != cell)
    && a.first.pos != cell && a.second.pos != cell
    && (forall x :: x in objects ==> x.pos != cell)
  }

  /** The eight cells around `p`. */
  predicate Around(p: Position, q: Position) {
    q != p && -1 <= q.x - p.x <= 1 && -1 <= q.y - p.y <= 1
  }

  /** Exactly the accepted moves: a walk goes to a free cell next to the player in one of the four directions,
      a placement to a free cell around the player, both only in the player's turn; a resignation always. */
  lemma AcceptedExactly(a: Arena, objects: seq<Item>, nowTurn: Login, side: Side, md: MoveData)
    ensures var p := a.At(side);
      Validate(a, objects, nowTurn, p, md) == Ok <==>
        match md.moveType
        case Resign => true
        case Walk =>
          nowTurn == p.login && Free(a, objects, md.position) && exists d :: md.position == Ahead(p.pos, d)
        case _ =>
          nowTurn == p.login && Free(a, objects, md.position) && Around(p.pos, md.position)
    ensures var p := a.At(side);
      Validate(a, objects, nowTurn, p, md) == NotYourMove <==> md.moveType != Resign && nowTurn != p.login
  {
    var p, q := a.At(side).pos, md.position;
    if q == Position(p.x, p.y - 1) {
      assert q == Ahead(p, Up);
    } else if q == Position(p.x + 1, p.y) {
      assert q == Ahead(p, Right);
    } else if q == Position(p.x, p.y + 1) {
      assert q == Ahead(p, Down);
    } else if q == Position(p.x - 1, p.y) {
      assert q == Ahead(p, Left);
    }
  }

  /** Only a resignation is accepted out of turn. */
  lemma AcceptedInTurn(a: Arena, objects: seq<Item>, nowTurn: Login, player: PlayerValue, md: MoveData)
    requires Validate(a, objects, nowTurn, player, md) == Ok
    ensures md.moveType == Resign || nowTurn == player.login
  {
  }
}
