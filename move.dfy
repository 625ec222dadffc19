/**
 * Resolving a clue move: the player whose turn it is and whose pending action is a
 * successful clue search walks to a cell within the Manhattan step budget, opens
 * the clue lying there, and ends the turn.
 */
module MoveAction {
  import opened Base
  import opened Text
  import opened Schema
  import opened Helpers

  function Abs(x: int): (r: nat)
    ensures r == x || r == -x
  {
    if x < 0 then -x else x
  }

  /** Manhattan distance between a cell and the target coordinates. */
  function Distance(from: Cell, toY: int, toX: int): (r: nat)
    ensures r == 0 <==> from.y == toY && from.x == toX
  {
    Abs(toY - from.y) + Abs(toX - from.x)
  }

  /** `isset($m['max_steps']) ? (int)$m['max_steps'] : 0`. */
  function Budget(m: Move): (r: int)
    ensures r > 0 <==> m.maxSteps.Some? && m.maxSteps.value > 0
    ensures r != 0 ==> m.maxSteps == Some(r)
  {
    if m.maxSteps.Some? then m.maxSteps.value else 0
  }

  /** The answer of a committed move. */
  datatype MoveBody = MoveBody(
    fromY: int, fromX: int, toY: int, toX: int,
    distance: int, maxSteps: int, openedClue: Option<string>, nextSeat: int)

  /**
   * The checks of `move.php` up to the step budget, in order; on success the caller's
   * player id. A missing or non-positive budget is a server error even when the
   * pending search had failed.
   */
  function MoveChecks(t: Tables, gameId: int, loginRaw: string, toY: int, toX: int): (r: Checked<PlayerId>)
    // 400: a field is missing or a target coordinate is not positive.
    ensures gameId <= 0 || PhpTrim(loginRaw) == [] || toY <= 0 || toX <= 0 ==> r == Fail(400)
    // The game-over and started guards, with their own codes.
    ensures gameId > 0 && PhpTrim(loginRaw) != [] && toY > 0 && toX > 0 && GameGuards(t, gameId).Some?
            ==> r == Fail(GameGuards(t, gameId).value)
    // 404 for a caller not in the game, 400 for a caller out of turn.
    ensures gameId > 0 && PhpTrim(loginRaw) != [] && toY > 0 && toX > 0 && GameGuards(t, gameId).None?
            && TurnError(t, gameId, PhpTrim(loginRaw)).Some?
            ==> r == Fail(TurnError(t, gameId, PhpTrim(loginRaw)).value)
    // 400: no pending move, or a pending move that is not a clue search.
    ensures gameId > 0 && PhpTrim(loginRaw) != [] && toY > 0 && toX > 0 && GameGuards(t, gameId).None?
            && TurnError(t, gameId, PhpTrim(loginRaw)).None?
            && (FindPlayer(t, gameId, PhpTrim(loginRaw)).value !in t.moves
                || t.moves[FindPlayer(t, gameId, PhpTrim(loginRaw)).value].direction != Clue)
            ==> r == Fail(400)
    // 500: the pending clue search has no positive step budget.
    ensures gameId > 0 && PhpTrim(loginRaw) != [] && toY > 0 && toX > 0 && GameGuards(t, gameId).None?
            && TurnError(t, gameId, PhpTrim(loginRaw)).None?
            && FindPlayer(t, gameId, PhpTrim(loginRaw)).value in t.moves
            && t.moves[FindPlayer(t, gameId, PhpTrim(loginRaw)).value].direction == Clue
            && Budget(t.moves[FindPlayer(t, gameId, PhpTrim(loginRaw)).value]) <= 0
            ==> r == Fail(500)
    // Every check passes exactly when none of the exits above is taken.
    ensures r.Pass? <==>
      && gameId > 0 && PhpTrim(loginRaw) != [] && toY > 0 && toX > 0
      && GameGuards(t, gameId).None?
      && TurnError(t, gameId, PhpTrim(loginRaw)).None?
      && FindPlayer(t, gameId, PhpTrim(loginRaw)).value in t.moves
      && t.moves[FindPlayer(t, gameId, PhpTrim(loginRaw)).value].direction == Clue
      && Budget(t.moves[FindPlayer(t, gameId, PhpTrim(loginRaw)).value]) > 0
    ensures r.Pass? ==> FindPlayer(t, gameId, PhpTrim(loginRaw)) == Some(r.value)
  {
    var login := PhpTrim(loginRaw);
    if gameId <= 0 || login == [] || toY <= 0 || toX <= 0 then Fail(400)
    else if GameGuards(t, gameId).Some? then Fail(GameGuards(t, gameId).value)
    else if TurnError(t, gameId, login).Some? then Fail(TurnError(t, gameId, login).value)
    else
      var p := FindPlayer(t, gameId, login).value;
      if p !in t.moves then Fail(400)
      else if t.moves[p].direction != Clue then Fail(400)
      else if Budget(t.moves[p]) <= 0 then Fail(500)
      else Pass(p)
  }

  /** The clue lying on `cell`, opened if it was hidden, and its name (`clues_in_game JOIN clues`). */
  function RevealClue(t: Tables, cell: Cell): (r: (Tables, Option<string>))
    ensures r.1.Some? <==> cell in t.placements && NameOf(t.catalog.clues, t.placements[cell].clue).Some?
    ensures r.1.Some? ==>
      && r.1 == NameOf(t.catalog.clues, t.placements[cell].clue)
      && r.0 == t.(placements := t.placements[cell := t.placements[cell].(status := Opened)])
    ensures r.1.None? ==> r.0 == t
  {
    if cell in t.placements && NameOf(t.catalog.clues, t.placements[cell].clue).Some? then
      var pl := t.placements[cell];
      var t1 := if pl.status != Opened then t.(placements := t.placements[cell := pl.(status := Opened)]) else t;
      (t1, NameOf(t.catalog.clues, pl.clue))
    else (t, None)
  }

  /** Revealing a clue twice is revealing it once. */
  lemma RevealClueIdempotent(t: Tables, cell: Cell)
    ensures RevealClue(RevealClue(t, cell).0, cell) == (RevealClue(t, cell).0, RevealClue(t, cell).1)
  {
    var r := RevealClue(t, cell);
    if r.1.Some? {
      assert r.0.placements[cell] == t.placements[cell].(status := Opened);
      assert r.0.placements[cell := r.0.placements[cell].(status := Opened)] == r.0.placements;
    }
  }

  /**
   * Resolution of the pending clue move of player `p`, who holds the turn: a failed
   * search ends the turn and is reported as an error after committing; a target too
   * far or off the grid changes nothing; otherwise the player moves, the clue there
   * is opened, the pending move is closed and the turn passes on.
   */
  function ResolveMove(t: Tables, g: GameId, p: PlayerId, toY: int, toX: int, now: int): (r: Step<MoveBody>)
    requires g in t.games && p in t.players && p in t.moves && Budget(t.moves[p]) > 0
    // A failed search: the move is closed and the turn passes on, then 400 is answered.
    ensures !t.moves[p].result ==>
      && r.reply == CommittedErr(400)
      && r.tables == t.(moves := t.moves - {p},
                        games := t.games[g := t.games[g].(currentSeat := NextSeat(t.games[g].currentSeat, t.games[g].seatcount),
                                                          turnStartedAt := Some(now))])
    // 400 and no change: the target is beyond the budget, or not a cell of the board.
    ensures t.moves[p].result && Distance(t.players[p].cell, toY, toX) > Budget(t.moves[p]) ==>
      r == Step(t, Err(400))
    ensures t.moves[p].result && Cell(g, toY, toX) !in t.cells ==> r == Step(t, Err(400))
    // A successful search to a cell of the board within the budget is carried out.
    ensures r.reply.Ok? <==>
      t.moves[p].result && Distance(t.players[p].cell, toY, toX) <= Budget(t.moves[p]) && Cell(g, toY, toX) in t.cells
    ensures r.reply.Ok? ==>
      var target := Cell(g, toY, toX);
      && r.reply.body.distance == Distance(t.players[p].cell, toY, toX)
      && r.reply.body.maxSteps == Budget(t.moves[p])
      && r.reply.body.fromY == t.players[p].cell.y && r.reply.body.fromX == t.players[p].cell.x
      && r.reply.body.nextSeat == NextSeat(t.games[g].currentSeat, t.games[g].seatcount)
      && r.reply.body.openedClue == RevealClue(t, target).1
      && r.tables == t.(players := t.players[p := t.players[p].(cell := target)],
                        placements := RevealClue(t, target).0.placements,
                        moves := t.moves - {p},
                        games := t.games[g := t.games[g].(currentSeat := NextSeat(t.games[g].currentSeat, t.games[g].seatcount),
                                                          turnStartedAt := Some(now))])
  {
    var mv := t.moves[p];
    if !mv.result then
      Step(HandOff(DeleteMove(t, p), g, now), CommittedErr(400))
    else
      var from := t.players[p].cell;
      var dist := Distance(from, toY, toX);
      if dist > Budget(mv) then Step(t, Err(400))
      else
        var target := Cell(g, toY, toX);
        if target !in t.cells then Step(t, Err(400))
        else
          var t1 := t.(players := t.players[p := t.players[p].(cell := target)]);
          var (t2, shown) := RevealClue(t1, target);
          var t3 := HandOff(DeleteMove(t2, p), g, now);
          Step(t3, Ok(MoveBody(from.y, from.x, toY, toX, dist, Budget(mv), shown, t3.games[g].currentSeat)))
  }

  /** `move.php` as one transaction over the store. */
  function MoveEffect(t: Tables, gameId: int, loginRaw: string, toY: int, toX: int, now: int): (r: Step<MoveBody>)
    ensures MoveChecks(t, gameId, loginRaw, toY, toX).Fail? ==>
      r == Step(t, Err(MoveChecks(t, gameId, loginRaw, toY, toX).code))
    ensures r.reply.Err? ==> r.tables == t
  {
    match MoveChecks(t, gameId, loginRaw, toY, toX)
    case Fail(code) => Step(t, Err(code))
    case Pass(p) => ResolveMove(t, gameId, p, toY, toX, now)
  }

  /** Opens the clue lying on `cell`, if any, and answers its name. */
  method OpenClueAt(s: Store, cell: Cell) returns (shown: Option<string>)
    modifies s
    ensures s.Snapshot() == RevealClue(old(s.Snapshot()), cell).0
    ensures shown == RevealClue(old(s.Snapshot()), cell).1
  {
    shown := None;
    if cell in s.placements && NameOf(s.catalog.clues, s.placements[cell].clue).Some? {
      var pl := s.placements[cell];
      if pl.status != Opened {
        s.placements := s.placements[cell := pl.(status := Opened)];
      }
      shown := NameOf(s.catalog.clues, pl.clue);
    }
  }

  /** The resolution, updating the store in the order of `move.php`. */
  method ResolveMoveCall(s: Store, g: GameId, p: PlayerId, toY: int, toX: int, now: int) returns (reply: Reply<MoveBody>)
    requires g in s.games && p in s.players && p in s.moves && Budget(s.moves[p]) > 0
    modifies s
    ensures s.Snapshot() == ResolveMove(old(s.Snapshot()), g, p, toY, toX, now).tables
    ensures reply == ResolveMove(old(s.Snapshot()), g, p, toY, toX, now).reply
  {
    var mv := s.moves[p];
    if !mv.result {
      CloseTurn(s, g, p, now);
      return CommittedErr(400);
    }
    var from := s.players[p].cell;
    var dist := Distance(from, toY, toX);
    if dist > Budget(mv) {
      return Err(400);
    }
    var target := Cell(g, toY, toX);
    if target !in s.cells {
      return Err(400);
    }
    s.players := s.players[p := s.players[p].(cell := target)];
    var shown := OpenClueAt(s, target);
    CloseTurn(s, g, p, now);
    reply := Ok(MoveBody(from.y, from.x, toY, toX, dist, Budget(mv), shown, s.games[g].currentSeat));
  }

  /** `move.php`: runs the checks, then resolves the pending clue move. */
  method MoveCall(s: Store, gameId: int, loginRaw: string, toY: int, toX: int, now: int) returns (reply: Reply<MoveBody>)
    modifies s
    ensures s.Snapshot() == MoveEffect(old(s.Snapshot()), gameId, loginRaw, toY, toX, now).tables
    ensures reply == MoveEffect(old(s.Snapshot()), gameId, loginRaw, toY, toX, now).reply
  {
    var checks := MoveChecks(s.Snapshot(), gameId, loginRaw, toY, toX);
    if checks.Fail? {
      return Err(checks.code);
    }
    reply := ResolveMoveCall(s, gameId, checks.value, toY, toX, now);
  }
}
