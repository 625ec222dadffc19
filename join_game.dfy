/**
 * Joining a game before it starts: a new player takes the next seat number, the
 * colour of that seat and a start cell in the centre of the board; the join that
 * fills the last seat starts the game with seat 1 to move.
 */
module JoinGame {
  import opened Base
  import opened Text
  import opened Schema

  /** The answer: an existing seat handed back, or the new seat and the game's state after the join. */
  datatype JoinBody =
    | AlreadyIn(playerId: PlayerId, seat: int, color: Color, y: int, x: int,
                seatcount: int, currentSeat: int, started: bool)
    | Joined(playerId: PlayerId, seat: int, color: Color, y: int, x: int,
             playersNow: int, seatcount: int, currentSeat: int, started: bool)

  /** The colour of a seat: red, yellow, blue, green for seats 1 to 4, red for any other seat. */
  function SeatColor(seat: int): (r: Color)
    ensures seat == 2 <==> r == Yellow
    ensures seat == 3 <==> r == Blue
    ensures seat == 4 <==> r == Green
    ensures r == Red <==> seat !in {2, 3, 4}
  {
    if seat == 2 then Yellow else if seat == 3 then Blue else if seat == 4 then Green else Red
  }

  /**
   * The start cell of `seat` in a game of `seatcount` seats, from the centre 2x2 of the
   * board: two seats sit on the diagonal, three leave out (10, 9), any other count
   * uses all four cells. A seat the table has no entry for has no start cell.
   */
  function StartCell(seatcount: int, seat: int): (r: Option<(int, int)>)
    ensures r.Some? ==> r.value.0 in {9, 10} && r.value.1 in {9, 10}
    ensures r.Some? <==> 1 <= seat <= (if seatcount == 2 then 2 else if seatcount == 3 then 3 else 4)
    ensures r == Some((9, 9)) <==> seat == 1
  {
    if seatcount == 2 then
      if seat == 1 then Some((9, 9)) else if seat == 2 then Some((10, 10)) else None
    else if seatcount == 3 then
      if seat == 1 then Some((9, 9)) else if seat == 2 then Some((9, 10)) else if seat == 3 then Some((10, 10)) else None
    else
      if seat == 1 then Some((9, 9)) else if seat == 2 then Some((9, 10))
      else if seat == 3 then Some((10, 9)) else if seat == 4 then Some((10, 10)) else None
  }

  /** Different seats of one game get different start cells. */
  lemma StartCellsDistinct(seatcount: int, a: int, b: int)
    requires StartCell(seatcount, a).Some? && StartCell(seatcount, b).Some? && a != b
    ensures StartCell(seatcount, a) != StartCell(seatcount, b)
  {
  }

  /** A player of game `g` whose trimmed login equals `login` up to ASCII case (`strcasecmp`). */
  predicate LoginTaken(t: Tables, g: GameId, login: string)
  {
    exists p :: p in PlayersIn(t, g) && StrCaseEq(PhpTrim(t.players[p].login), login)
  }

  /** The new player row, when the join would add one. */
  function NewPlayer(t: Tables, g: GameId, login: string): (r: Option<Player>)
    requires g in t.games
    ensures r.Some? ==>
      && r.value.login == login
      && r.value.seat == PlayerCount(t, g) + 1
      && r.value.color == SeatColor(PlayerCount(t, g) + 1)
      && r.value.cell in t.cells && r.value.cell.game == g
      && StartCell(t.games[g].seatcount, PlayerCount(t, g) + 1) == Some((r.value.cell.y, r.value.cell.x))
  {
    var seat := PlayerCount(t, g) + 1;
    match StartCell(t.games[g].seatcount, seat)
    case None => None
    case Some(yx) =>
      if Cell(g, yx.0, yx.1) in t.cells then Some(Player(login, seat, SeatColor(seat), Cell(g, yx.0, yx.1)))
      else None
  }

  /**
   * The join of the account `login` to game `g`: a login already seated gets its seat
   * back; a case-insensitive namesake, a full game or a started game is a conflict;
   * otherwise the player takes seat `players_now + 1` on its start cell (500 when the
   * seat has no start cell on the grid), and the game starts when that was the last seat.
   */
  function Join(t: Tables, g: GameId, login: string, now: int): (r: Step<JoinBody>)
    ensures g !in t.games ==> r == Step(t, Err(404))
    ensures g in t.games && FindPlayer(t, g, login).Some? ==>
      var p := FindPlayer(t, g, login).value;
      var gm := t.games[g];
      && r.tables == t
      && r.reply == Ok(AlreadyIn(p, t.players[p].seat, t.players[p].color, t.players[p].cell.y, t.players[p].cell.x,
                                 gm.seatcount, gm.currentSeat, gm.currentSeat > 0))
    ensures g in t.games && FindPlayer(t, g, login).None? &&
            (LoginTaken(t, g, login) || PlayerCount(t, g) >= t.games[g].seatcount || t.games[g].currentSeat > 0)
            ==> r == Step(t, Err(409))
    ensures g in t.games && FindPlayer(t, g, login).None? && !LoginTaken(t, g, login)
            && PlayerCount(t, g) < t.games[g].seatcount && t.games[g].currentSeat <= 0 ==>
      && (NewPlayer(t, g, login).None? ==> r == Step(t, Err(500)))
      && (NewPlayer(t, g, login).Some? ==> r.reply.Ok? && r.reply.body.Joined?)
    ensures r.reply.Err? ==> r.tables == t
    ensures r.reply.Ok? && r.reply.body.Joined? ==>
      && g in t.games
      && FindPlayer(t, g, login).None? && !LoginTaken(t, g, login)
      && PlayerCount(t, g) < t.games[g].seatcount && t.games[g].currentSeat <= 0
      && NewPlayer(t, g, login).Some?
      && var np := NewPlayer(t, g, login).value;
      && var filled := PlayerCount(t, g) + 1 >= t.games[g].seatcount;
      && r.reply.body == Joined(t.nextPlayerId, np.seat, np.color, np.cell.y, np.cell.x,
                                PlayerCount(t, g) + 1, t.games[g].seatcount,
                                if filled then 1 else 0, filled)
      && r.tables.players == t.players[t.nextPlayerId := np]
      && r.tables.nextPlayerId == t.nextPlayerId + 1
      && r.tables.games == t.games[g := t.games[g].(currentSeat := if filled then 1 else 0,
                                                    turnStartedAt := if filled then Some(now) else None)]
      && r.tables == t.(players := r.tables.players, nextPlayerId := r.tables.nextPlayerId, games := r.tables.games)
  {
    if g !in t.games then Step(t, Err(404))
    else
      var gm := t.games[g];
      match FindPlayer(t, g, login)
      case Some(p) =>
        var pl := t.players[p];
        Step(t, Ok(AlreadyIn(p, pl.seat, pl.color, pl.cell.y, pl.cell.x, gm.seatcount, gm.currentSeat, gm.currentSeat > 0)))
      case None =>
        if LoginTaken(t, g, login) then Step(t, Err(409))
        else if PlayerCount(t, g) >= gm.seatcount then Step(t, Err(409))
        else if gm.currentSeat > 0 then Step(t, Err(409))
        else match NewPlayer(t, g, login)
          case None => Step(t, Err(500))
          case Some(np) =>
            var filled := PlayerCount(t, g) + 1 >= gm.seatcount;
            var gm2 := gm.(currentSeat := if filled then 1 else 0, turnStartedAt := if filled then Some(now) else None);
            var t1 := t.(players := t.players[t.nextPlayerId := np], nextPlayerId := t.nextPlayerId + 1,
                         games := t.games[g := gm2]);
            Step(t1, Ok(Joined(t.nextPlayerId, np.seat, np.color, np.cell.y, np.cell.x,
                               PlayerCount(t, g) + 1, gm.seatcount, gm2.currentSeat, filled)))
  }

  /** `join_game.php` as one call over the store. */
  function JoinEffect(t: Tables, gameId: int, loginRaw: string, now: int): (r: Step<JoinBody>)
    ensures AccountChecks(t, gameId, loginRaw).Fail? ==> r == Step(t, Err(AccountChecks(t, gameId, loginRaw).code))
    ensures r.reply.Err? ==> r.tables == t
  {
    match AccountChecks(t, gameId, loginRaw)
    case Fail(code) => Step(t, Err(code))
    case Pass(login) => Join(t, gameId, login, now)
  }

  /** The sequence issues ids above every existing player id. */
  predicate FreshPlayerId(t: Tables)
  {
    forall p :: p in t.players ==> p < t.nextPlayerId
  }

  /** A join that seats a new player adds exactly that player to the game and keeps the ids fresh. */
  lemma JoinAddsOnePlayer(t: Tables, g: GameId, login: string, now: int)
    requires FreshPlayerId(t)
    requires Join(t, g, login, now).reply.Ok? && Join(t, g, login, now).reply.body.Joined?
    ensures var r := Join(t, g, login, now).tables;
            && PlayersIn(r, g) == PlayersIn(t, g) + {t.nextPlayerId}
            && PlayerCount(r, g) == PlayerCount(t, g) + 1
            && FreshPlayerId(r)
            && forall h :: h != g ==> PlayersIn(r, h) == PlayersIn(t, h)
  {
    var r := Join(t, g, login, now).tables;
    var np := NewPlayer(t, g, login).value;
    assert t.nextPlayerId !in PlayersIn(t, g);
    assert PlayersIn(r, g) == PlayersIn(t, g) + {t.nextPlayerId};
    forall h | h != g ensures PlayersIn(r, h) == PlayersIn(t, h) {
      assert t.nextPlayerId !in PlayersIn(r, h);
    }
  }

  /** Joining again with the same account hands back the seat the first join gave, changing nothing. */
  lemma JoinTwice(t: Tables, g: GameId, login: string, now: int, later: int)
    requires Join(t, g, login, now).reply.Ok? && Join(t, g, login, now).reply.body.Joined?
    ensures var first := Join(t, g, login, now);
            var second := Join(first.tables, g, login, later);
            && second.tables == first.tables
            && second.reply.Ok? && second.reply.body.AlreadyIn?
            && second.reply.body.playerId == first.reply.body.playerId
            && second.reply.body.seat == first.reply.body.seat
            && second.reply.body.color == first.reply.body.color
  {
    var r := Join(t, g, login, now).tables;
    var id := t.nextPlayerId;
    assert id in PlayersIn(r, g) && r.players[id].login == login;
    forall q | q in PlayersIn(r, g) && q != id ensures r.players[q].login != login {
      assert q in PlayersIn(t, g);
    }
    assert FindPlayer(r, g, login) == Some(id);
  }

  /**
   * The seat number counts players rather than looking for a free seat: when a player
   * of the game already holds seat `players_now + 1`, the new player is given the same seat.
   */
  lemma JoinMayRepeatSeat(t: Tables, g: GameId, login: string, now: int, q: PlayerId)
    requires q in PlayersIn(t, g) && t.players[q].seat == PlayerCount(t, g) + 1
    requires Join(t, g, login, now).reply.Ok? && Join(t, g, login, now).reply.body.Joined?
    requires q != t.nextPlayerId
    ensures var r := Join(t, g, login, now).tables;
            q in PlayersIn(r, g) && r.players[q].seat == r.players[t.nextPlayerId].seat
  {
  }

  /** Seats the new player and starts or resets the game's clock. */
  method SeatPlayer(s: Store, g: GameId, np: Player, filled: bool, now: int)
    requires g in s.games
    modifies s
    ensures s.Snapshot() == old(s.Snapshot()).(
      players := old(s.players)[old(s.nextPlayerId) := np],
      nextPlayerId := old(s.nextPlayerId) + 1,
      games := old(s.games)[g := old(s.games)[g].(currentSeat := if filled then 1 else 0,
                                                  turnStartedAt := if filled then Some(now) else None)])
  {
    s.players := s.players[s.nextPlayerId := np];
    s.nextPlayerId := s.nextPlayerId + 1;
    var gm := s.games[g];
    s.games := s.games[g := gm.(currentSeat := if filled then 1 else 0, turnStartedAt := if filled then Some(now) else None)];
  }

  /** The join, updating the store in the order of `join_game.php`. */
  method JoinCall(s: Store, g: GameId, login: string, now: int) returns (reply: Reply<JoinBody>)
    modifies s
    ensures s.Snapshot() == Join(old(s.Snapshot()), g, login, now).tables
    ensures reply == Join(old(s.Snapshot()), g, login, now).reply
  {
    if g !in s.games {
      return Err(404);
    }
    var t := s.Snapshot();
    var gm := s.games[g];
    var existing := FindPlayer(t, g, login);
    if existing.Some? {
      var pl := s.players[existing.value];
      return Ok(AlreadyIn(existing.value, pl.seat, pl.color, pl.cell.y, pl.cell.x, gm.seatcount, gm.currentSeat, gm.currentSeat > 0));
    }
    var count := PlayerCount(t, g);
    if LoginTaken(t, g, login) || count >= gm.seatcount || gm.currentSeat > 0 {
      return Err(409);
    }
    var np := NewPlayer(t, g, login);
    if np.None? {
      return Err(500);
    }
    var id := s.nextPlayerId;
    var filled := count + 1 >= gm.seatcount;
    SeatPlayer(s, g, np.value, filled, now);
    reply := Ok(Joined(id, np.value.seat, np.value.color, np.value.cell.y, np.value.cell.x,
                       count + 1, gm.seatcount, if filled then 1 else 0, filled));
  }

  /** `join_game.php`: resolves the account, then joins. */
  method JoinGameCall(s: Store, gameId: int, loginRaw: string, now: int) returns (reply: Reply<JoinBody>)
    modifies s
    ensures s.Snapshot() == JoinEffect(old(s.Snapshot()), gameId, loginRaw, now).tables
    ensures reply == JoinEffect(old(s.Snapshot()), gameId, loginRaw, now).reply
  {
    var checks := AccountChecks(s.Snapshot(), gameId, loginRaw);
    if checks.Fail? {
      return Err(checks.code);
    }
    reply := JoinCall(s, gameId, checks.value, now);
  }
}
