/**
 * Skipping a turn: the player whose turn it is gives it up; the pending action is
 * dropped, the fox runs 3 fields and the turn passes on.
 */
module SkipTurn {
  import opened Base
  import opened Text
  import opened Schema
  import opened Helpers

  /** The answer of a skip: the next seat and the fox position after the run (0 without a fox row). */
  datatype SkipBody = SkipBody(nextSeat: int, foxMoved: bool, foxpos: int)

  /**
   * The checks of `skip_turn.php`, in order; on success the caller's player id.
   * The started check is the shared one of helpers.php (see `Helpers.StartedError`).
   */
  function SkipChecks(t: Tables, gameId: int, loginRaw: string): (r: Checked<PlayerId>)
    // 400: a field is missing.
    ensures gameId <= 0 || PhpTrim(loginRaw) == [] ==> r == Fail(400)
    // The game-over and started guards, with their own codes.
    ensures gameId > 0 && PhpTrim(loginRaw) != [] && GameGuards(t, gameId).Some?
            ==> r == Fail(GameGuards(t, gameId).value)
    // 404 for a caller not in the game, 400 for a caller out of turn.
    ensures gameId > 0 && PhpTrim(loginRaw) != [] && GameGuards(t, gameId).None?
            && TurnError(t, gameId, PhpTrim(loginRaw)).Some?
            ==> r == Fail(TurnError(t, gameId, PhpTrim(loginRaw)).value)
    // Every check passes exactly when none of the exits above is taken.
    ensures r.Pass? <==>
      && gameId > 0 && PhpTrim(loginRaw) != []
      && GameGuards(t, gameId).None?
      && TurnError(t, gameId, PhpTrim(loginRaw)).None?
    ensures r.Pass? ==>
      && FindPlayer(t, gameId, PhpTrim(loginRaw)) == Some(r.value)
      && t.players[r.value].seat == t.games[gameId].currentSeat
  {
    var login := PhpTrim(loginRaw);
    if gameId <= 0 || login == [] then Fail(400)
    else if GameGuards(t, gameId).Some? then Fail(GameGuards(t, gameId).value)
    else if TurnError(t, gameId, login).Some? then Fail(TurnError(t, gameId, login).value)
    else Pass(FindPlayer(t, gameId, login).value)
  }

  /**
   * The skip of player `p` in game `g`: the pending move goes, a fox in play runs 3
   * fields and the turn passes on; the answer reports the fox as moved.
   */
  function Skip(t: Tables, g: GameId, p: PlayerId, now: int): (r: Step<SkipBody>)
    requires g in t.games
    ensures r.reply.Ok?
    ensures r.tables.moves == t.moves - {p}
    ensures 0 <= FoxPos(t, g) < Den && g in t.foxes ==>
      r.tables.foxes == t.foxes[g := t.foxes[g].(pos := t.foxes[g].pos + 3)]
    ensures Terminal(FoxPos(t, g)) || g !in t.foxes ==> r.tables.foxes == t.foxes
    ensures r.reply.body.foxpos == FoxPos(r.tables, g) && r.reply.body.foxMoved
    ensures r.tables.games == t.games[g := t.games[g].(currentSeat := NextSeat(t.games[g].currentSeat, t.games[g].seatcount),
                                                      turnStartedAt := Some(now))]
    ensures r.reply.body.nextSeat == NextSeat(t.games[g].currentSeat, t.games[g].seatcount)
    ensures r.tables == t.(moves := r.tables.moves, foxes := r.tables.foxes, games := r.tables.games)
  {
    var t1 := DeleteMove(t, p);
    var t2 := if 0 <= FoxPos(t1, g) < Den then BumpFox(t1, g) else t1;
    var t3 := HandOff(t2, g, now);
    Step(t3, Ok(SkipBody(t3.games[g].currentSeat, true, FoxPos(t2, g))))
  }

  /**
   * When the turn has run out and `p` is the player the timeout sweep finds in the
   * current seat, skipping and the sweep leave the same store.
   */
  lemma SkipIsTimeout(t: Tables, g: GameId, p: PlayerId, now: int)
    requires Expired(t, g, now)
    requires SeatHolder(t, g, t.games[g].currentSeat) == Some(p) && p > 0
    ensures Skip(t, g, p, now).tables == Timeout(t, g, now)
  {
    var r := Skip(t, g, p, now).tables;
    var u := Timeout(t, g, now);
    assert r.moves == u.moves by {
      forall q ensures q in r.moves <==> q in u.moves {
        assert ClearedBy(t, g, q) <==> q == p;
      }
    }
  }

  /** `skip_turn.php` as one transaction over the store. */
  function SkipEffect(t: Tables, gameId: int, loginRaw: string, now: int): (r: Step<SkipBody>)
    ensures SkipChecks(t, gameId, loginRaw).Fail? ==>
      r == Step(t, Err(SkipChecks(t, gameId, loginRaw).code))
    ensures r.reply.Ok? <==> SkipChecks(t, gameId, loginRaw).Pass?
  {
    match SkipChecks(t, gameId, loginRaw)
    case Fail(code) => Step(t, Err(code))
    case Pass(p) => Skip(t, gameId, p, now)
  }

  /** The skip, updating the store in the order of `skip_turn.php`. */
  method SkipCall(s: Store, g: GameId, p: PlayerId, now: int) returns (reply: Reply<SkipBody>)
    requires g in s.games
    modifies s
    ensures s.Snapshot() == Skip(old(s.Snapshot()), g, p, now).tables
    ensures reply == Skip(old(s.Snapshot()), g, p, now).reply
  {
    s.moves := s.moves - {p};
    var foxpos := FoxPos(s.Snapshot(), g);
    if 0 <= foxpos < Den {
      if g in s.foxes {
        s.foxes := s.foxes[g := s.foxes[g].(pos := foxpos + 3)];
      }
      foxpos := FoxPos(s.Snapshot(), g);
    }
    var gm := s.games[g];
    var next := NextSeat(gm.currentSeat, gm.seatcount);
    s.games := s.games[g := gm.(currentSeat := next, turnStartedAt := Some(now))];
    reply := Ok(SkipBody(next, true, foxpos));
  }

  /** `skip_turn.php`: runs the checks, then skips. */
  method SkipTurnCall(s: Store, gameId: int, loginRaw: string, now: int) returns (reply: Reply<SkipBody>)
    modifies s
    ensures s.Snapshot() == SkipEffect(old(s.Snapshot()), gameId, loginRaw, now).tables
    ensures reply == SkipEffect(old(s.Snapshot()), gameId, loginRaw, now).reply
  {
    var checks := SkipChecks(s.Snapshot(), gameId, loginRaw);
    if checks.Fail? {
      return Err(checks.code);
    }
    reply := SkipCall(s, gameId, checks.value, now);
  }
}
