/**
 * Leaving a game: the player's pending move and player row go; a game that never
 * started and has nobody left is deleted with everything that belongs to it.
 */
module LeaveGame {
  import opened Base
  import opened Schema
  import opened Helpers

  /** The answer: the login was not in the game, or it left and the game was or was not deleted. */
  datatype LeaveBody = NotInGame | Left(gameDeleted: bool)

  /** The store without player `p` and its pending move. */
  function Unseat(t: Tables, p: PlayerId): (r: Tables)
    ensures p !in r.players && p !in r.moves
    ensures forall h :: PlayersIn(r, h) == PlayersIn(t, h) - {p}
  {
    var r := t.(moves := t.moves - {p}, players := t.players - {p});
    assert forall h :: PlayersIn(r, h) == PlayersIn(t, h) - {p} by {
      forall h ensures PlayersIn(r, h) == PlayersIn(t, h) - {p} {
        forall q | q in PlayersIn(t, h) - {p} ensures q in PlayersIn(r, h) {
        }
      }
    }
    r
  }

  /** The game is deleted after the leave: it exists, never started its clock, and nobody is left. */
  predicate Abandoned(t: Tables, g: GameId)
  {
    g in t.games && t.games[g].turnStartedAt.None? && PlayerCount(t, g) == 0
  }

  /**
   * The leave of the account `login` from game `g`: a login not seated there changes
   * nothing; otherwise its pending move and player row are deleted, and when the game
   * is then abandoned, the whole game is deleted.
   */
  function Leave(t: Tables, g: GameId, login: string): (r: Step<LeaveBody>)
    ensures FindPlayer(t, g, login).None? ==> r == Step(t, Ok(NotInGame))
    ensures FindPlayer(t, g, login).Some? ==>
      var p := FindPlayer(t, g, login).value;
      var deleted := g in t.games && t.games[g].turnStartedAt.None? && PlayersIn(t, g) == {p};
      && r.reply == Ok(Left(deleted))
      && (deleted ==> r.tables == Cascade(Unseat(t, p), g))
      && (!deleted ==> r.tables == t.(moves := t.moves - {p}, players := t.players - {p}))
  {
    match FindPlayer(t, g, login)
    case None => Step(t, Ok(NotInGame))
    case Some(p) =>
      var t1 := Unseat(t, p);
      assert PlayerCount(t1, g) == 0 <==> PlayersIn(t, g) == {p} by {
        assert PlayersIn(t1, g) == PlayersIn(t, g) - {p};
        assert p in PlayersIn(t, g);
      }
      if Abandoned(t1, g) then Step(Cascade(t1, g), Ok(Left(true)))
      else Step(t1, Ok(Left(false)))
  }

  /**
   * A leave that deletes the game leaves no row of it behind and keeps every other
   * game, with its players, as it was.
   */
  lemma LeaveDeletesOnlyThatGame(t: Tables, g: GameId, login: string)
    requires Leave(t, g, login).reply == Ok(Left(true))
    ensures var r := Leave(t, g, login).tables;
      && g !in r.games && g !in r.foxes && PlayersIn(r, g) == {}
      && (forall c :: c in r.cells ==> c.game != g)
      && (forall k :: k in r.suspectsInGame ==> k.game != g)
      && (forall l :: l in r.links ==> l.game != g)
      && (forall h :: h != g ==> PlayersIn(r, h) == PlayersIn(t, h))
      && (forall h :: h in t.games && h != g ==> h in r.games && r.games[h] == t.games[h])
  {
    var p := FindPlayer(t, g, login).value;
    var t1 := Unseat(t, p);
    CascadeLeavesNothing(t1, {g});
    CascadeKeepsOthers(t1, {g});
    forall h | h != g ensures PlayersIn(t1, h) == PlayersIn(t, h) {
      assert p !in PlayersIn(t, h);
    }
  }

  /** `leave_game.php` as one call over the store. */
  function LeaveEffect(t: Tables, gameId: int, loginRaw: string): (r: Step<LeaveBody>)
    ensures AccountChecks(t, gameId, loginRaw).Fail? ==> r == Step(t, Err(AccountChecks(t, gameId, loginRaw).code))
    ensures r.reply.Err? ==> r.tables == t
  {
    match AccountChecks(t, gameId, loginRaw)
    case Fail(code) => Step(t, Err(code))
    case Pass(login) => Leave(t, gameId, login)
  }

  /** The leave, updating the store in the order of `leave_game.php`. */
  method LeaveCall(s: Store, g: GameId, login: string) returns (reply: Reply<LeaveBody>)
    modifies s
    ensures s.Snapshot() == Leave(old(s.Snapshot()), g, login).tables
    ensures reply == Leave(old(s.Snapshot()), g, login).reply
  {
    var found := FindPlayer(s.Snapshot(), g, login);
    if found.None? {
      return Ok(NotInGame);
    }
    var p := found.value;
    s.moves := s.moves - {p};
    s.players := s.players - {p};
    var deleted := Abandoned(s.Snapshot(), g);
    if deleted {
      DeleteGameCascade(s, g);
    }
    reply := Ok(Left(deleted));
  }

  /** `leave_game.php`: resolves the account, then leaves. */
  method LeaveGameCall(s: Store, gameId: int, loginRaw: string) returns (reply: Reply<LeaveBody>)
    modifies s
    ensures s.Snapshot() == LeaveEffect(old(s.Snapshot()), gameId, loginRaw).tables
    ensures reply == LeaveEffect(old(s.Snapshot()), gameId, loginRaw).reply
  {
    var checks := AccountChecks(s.Snapshot(), gameId, loginRaw);
    if checks.Fail? {
      return Err(checks.code);
    }
    reply := LeaveCall(s, gameId, checks.value);
  }
}
