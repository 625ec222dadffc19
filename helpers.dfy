/**
 * Rules shared by the endpoints: the not-over and started guards, the turn
 * handoff, the timeout sweep run on every state read, and the cascade delete
 * of a game and everything hanging off it.
 */
module Helpers {
  import opened Base
  import opened Schema
  import opened Sorting

  /** `(int)` of `SELECT seatcount FROM games WHERE gameid = g`: a missing game reads as 0. */
  function SeatCount(t: Tables, g: GameId): int
  {
    if g in t.games then t.games[g].seatcount else 0
  }

  /** `ensure_game_not_over`: the error status it answers, if any. */
  function NotOverError(t: Tables, g: GameId): (r: Option<int>)
    ensures r.None? <==> 0 <= FoxPos(t, g) < Den
    ensures r.Some? ==> r.value == 400
  {
    if FoxPos(t, g) >= Den then Some(400)
    else if FoxPos(t, g) < 0 then Some(400)
    else None
  }

  /** `ensure_game_started`: every seat must be taken. */
  function StartedError(t: Tables, g: GameId): (r: Option<int>)
    ensures r == Some(404) <==> SeatCount(t, g) <= 0
    ensures r == Some(400) <==> 0 < SeatCount(t, g) && PlayerCount(t, g) < SeatCount(t, g)
    ensures r.None? ==> g in t.games && 1 <= t.games[g].seatcount <= PlayerCount(t, g)
  {
    if SeatCount(t, g) <= 0 then Some(404)
    else if PlayerCount(t, g) < SeatCount(t, g) then Some(400)
    else None
  }

  /** The two guards every turn action runs first: the game is not over, then every seat is taken. */
  function GameGuards(t: Tables, g: GameId): (r: Option<int>)
    ensures r.None? <==> 0 <= FoxPos(t, g) < Den && StartedError(t, g).None?
    ensures r.None? ==> g in t.games && 1 <= t.games[g].seatcount <= PlayerCount(t, g)
    ensures r.Some? && 0 <= FoxPos(t, g) < Den ==> r == StartedError(t, g)
    ensures r.Some? ==> r.value == 400 || r.value == 404
  {
    if NotOverError(t, g).Some? then NotOverError(t, g) else StartedError(t, g)
  }

  /**
   * The caller's row (`players JOIN cells JOIN games WHERE login = ... AND gameid = ...`)
   * must exist (else 404) and hold the current seat (else 400).
   */
  function TurnError(t: Tables, g: GameId, login: string): (r: Option<int>)
    ensures r.None? <==> g in t.games && FindPlayer(t, g, login).Some?
                          && t.players[FindPlayer(t, g, login).value].seat == t.games[g].currentSeat
    ensures r == Some(404) <==> g !in t.games || FindPlayer(t, g, login).None?
  {
    var p := FindPlayer(t, g, login);
    if p.None? || g !in t.games then Some(404)
    else if t.players[p.value].seat != t.games[g].currentSeat then Some(400)
    else None
  }

  /** The seat after `cur` in a game of `n` seats: past the last seat it wraps to 1. */
  function NextSeat(cur: int, n: int): (r: int)
    ensures 0 <= cur && 1 <= n ==> 1 <= r <= n
    ensures r == 1 || r == cur + 1
    ensures r == 1 <==> cur >= n || cur == 0
  {
    if cur >= n then 1 else cur + 1
  }

  /** Passes the turn to the next seat and restarts the clock at `now`. */
  function HandOff(t: Tables, g: GameId, now: int): (r: Tables)
    requires g in t.games
    ensures g in r.games && r.games[g].currentSeat == NextSeat(t.games[g].currentSeat, t.games[g].seatcount)
    ensures r.games[g].turnStartedAt == Some(now)
    ensures r.games[g].turntime == t.games[g].turntime && r.games[g].seatcount == t.games[g].seatcount
    ensures r.games.Keys == t.games.Keys && forall h :: h in t.games && h != g ==> r.games[h] == t.games[h]
    ensures r == t.(games := r.games)
  {
    SetTurn(t, g, NextSeat(t.games[g].currentSeat, t.games[g].seatcount), Some(now))
  }

  /** Closes player `p`'s action: deletes the pending move and passes the turn on. */
  method CloseTurn(s: Store, g: GameId, p: PlayerId, now: int)
    requires g in s.games
    modifies s
    ensures s.Snapshot() == HandOff(DeleteMove(old(s.Snapshot()), p), g, now)
  {
    s.moves := s.moves - {p};
    var gm := s.games[g];
    s.games := s.games[g := gm.(currentSeat := NextSeat(gm.currentSeat, gm.seatcount), turnStartedAt := Some(now))];
  }

  /** `strtotime` of the turn clock is truthy: the clock is set and is not the epoch itself. */
  predicate ClockRunning(gm: Game)
  {
    gm.turnStartedAt.Some? && gm.turnStartedAt.value != 0
  }

  /** The turn of game `g` has run out at instant `now`. */
  predicate Expired(t: Tables, g: GameId, now: int)
  {
    && g in t.games
    && t.games[g].currentSeat > 0
    && t.games[g].turntime > 0
    && ClockRunning(t.games[g])
    && now - t.games[g].turnStartedAt.value >= t.games[g].turntime
  }

  /** The player of game `g` sitting in `seat` (`LIMIT 1`: the smallest player id). */
  function SeatHolder(t: Tables, g: GameId, seat: int): (r: Option<PlayerId>)
    ensures r.Some? ==> r.value in PlayersIn(t, g) && t.players[r.value].seat == seat
    ensures r.None? <==> forall p :: p in PlayersIn(t, g) ==> t.players[p].seat != seat
  {
    var ids := set p | p in PlayersIn(t, g) && t.players[p].seat == seat;
    if ids == {} then
      assert forall p :: p in PlayersIn(t, g) ==> p !in ids;
      None
    else
      var m := Sorting.SetMin(ids);
      assert m in PlayersIn(t, g) && t.players[m].seat == seat;
      Some(m)
  }

  /** The player whose pending move the timeout clears, if it clears one (`$playerId > 0`). */
  predicate ClearedBy(t: Tables, g: GameId, p: PlayerId)
    requires g in t.games
  {
    var h := SeatHolder(t, g, t.games[g].currentSeat);
    h.Some? && h.value > 0 && h.value == p
  }

  /**
   * `auto_advance_turn_if_timeout`: when the turn has run out, the seat holder's
   * pending move is dropped, a fox still in play runs 3 fields, and the turn passes on.
   */
  function Timeout(t: Tables, g: GameId, now: int): (r: Tables)
    ensures !Expired(t, g, now) ==> r == t
    ensures Expired(t, g, now) ==>
      && r.games.Keys == t.games.Keys
      && r.games[g] == t.games[g].(currentSeat := NextSeat(t.games[g].currentSeat, t.games[g].seatcount),
                                   turnStartedAt := Some(now))
      && (forall h :: h in t.games && h != g ==> r.games[h] == t.games[h])
      && (forall p :: p in t.moves && !ClearedBy(t, g, p) ==> p in r.moves && r.moves[p] == t.moves[p])
      && (forall p :: p in r.moves ==> p in t.moves && !ClearedBy(t, g, p))
      && (0 <= FoxPos(t, g) < Den && g in t.foxes ==> r.foxes == t.foxes[g := t.foxes[g].(pos := t.foxes[g].pos + 3)])
      && (Terminal(FoxPos(t, g)) || g !in t.foxes ==> r.foxes == t.foxes)
      && r == t.(games := r.games, moves := r.moves, foxes := r.foxes)
  {
    if !Expired(t, g, now) then t
    else
      var gm := t.games[g];
      var holder := SeatHolder(t, g, gm.currentSeat);
      var t1 := if holder.Some? && holder.value > 0 then DeleteMove(t, holder.value) else t;
      var t2 := if 0 <= FoxPos(t1, g) < Den then BumpFox(t1, g) else t1;
      HandOff(t2, g, now)
  }

  /** The timeout sweep, updating the store in place. */
  method AutoAdvanceTurnIfTimeout(s: Store, g: GameId, now: int)
    modifies s
    ensures s.Snapshot() == Timeout(old(s.Snapshot()), g, now)
  {
    if g !in s.games {
      return;
    }
    var gm := s.games[g];
    if gm.currentSeat <= 0 || gm.turntime <= 0 || !ClockRunning(gm) {
      return;
    }
    if now - gm.turnStartedAt.value < gm.turntime {
      return;
    }
    var holder := SeatHolder(s.Snapshot(), g, gm.currentSeat);
    if holder.Some? && holder.value > 0 {
      s.moves := s.moves - {holder.value};
    }
    var pos := if g in s.foxes then s.foxes[g].pos else 0;
    if 0 <= pos < Den && g in s.foxes {
      s.foxes := s.foxes[g := s.foxes[g].(pos := pos + 3)];
    }
    s.games := s.games[g := gm.(currentSeat := NextSeat(gm.currentSeat, gm.seatcount), turnStartedAt := Some(now))];
  }

  /** A timed-out turn restarts its clock at `now`, so a second sweep at the same instant changes nothing. */
  lemma TimeoutOncePerInstant(t: Tables, g: GameId, now: int)
    ensures Timeout(Timeout(t, g, now), g, now) == Timeout(t, g, now)
  {
    if Expired(t, g, now) {
      var r := Timeout(t, g, now);
      assert r.games[g].turnStartedAt == Some(now);
      assert !Expired(r, g, now);
    }
  }

  /** A player of one of the games in `D`, through a cell of that game. */
  predicate InGames(t: Tables, p: PlayerId, D: set<GameId>)
    requires p in t.players
  {
    t.players[p].cell in t.cells && t.players[p].cell.game in D
  }

  /** Players of the games in `D`. */
  function Doomed(t: Tables, D: set<GameId>): set<PlayerId>
  {
    set p | p in t.players && InGames(t, p, D)
  }

  /** `DELETE FROM moves WHERE playerid IN (players of D)`. */
  function DropMoves(t: Tables, D: set<GameId>): map<PlayerId, Move>
  {
    map p | p in t.moves && p !in Doomed(t, D) :: t.moves[p]
  }

  /** `DELETE FROM players WHERE cellid IN (cells of D)`. */
  function DropPlayers(t: Tables, D: set<GameId>): map<PlayerId, Player>
  {
    map p | p in t.players && p !in Doomed(t, D) :: t.players[p]
  }

  /** `DELETE FROM clues_in_game WHERE cellid IN (cells of D)`. */
  function DropPlacements(t: Tables, D: set<GameId>): map<Cell, Placement>
  {
    map c | c in t.placements && !(c in t.cells && c.game in D) :: t.placements[c]
  }

  /** `DELETE FROM suspect_clues_in_game WHERE gameid IN D`. */
  function DropLinks(t: Tables, D: set<GameId>): set<Link>
  {
    set l | l in t.links && l.game !in D
  }

  /** `DELETE FROM suspects_in_game WHERE gameid IN D`. */
  function DropSuspects(t: Tables, D: set<GameId>): map<SusKey, Status>
  {
    map k | k in t.suspectsInGame && k.game !in D :: t.suspectsInGame[k]
  }

  /** `DELETE FROM cells WHERE gameid IN D`. */
  function DropCells(t: Tables, D: set<GameId>): set<Cell>
  {
    set c | c in t.cells && c.game !in D
  }

  /** `DELETE FROM foxes WHERE id IN D`. */
  function DropFoxes(t: Tables, D: set<GameId>): map<GameId, Fox>
  {
    map h | h in t.foxes && h !in D :: t.foxes[h]
  }

  /** `DELETE FROM games WHERE gameid IN D`. */
  function DropGames(t: Tables, D: set<GameId>): map<GameId, Game>
  {
    map h | h in t.games && h !in D :: t.games[h]
  }

  /** `delete_game_cascade` applied to every game of `D`. */
  function CascadeAll(t: Tables, D: set<GameId>): Tables
  {
    t.(moves := DropMoves(t, D), players := DropPlayers(t, D), placements := DropPlacements(t, D),
       links := DropLinks(t, D), suspectsInGame := DropSuspects(t, D), cells := DropCells(t, D),
       foxes := DropFoxes(t, D), games := DropGames(t, D))
  }

  /** `delete_game_cascade(g)`. */
  function Cascade(t: Tables, g: GameId): Tables
  {
    CascadeAll(t, {g})
  }

  /** After the cascade no row of a deleted game is left in any table. */
  lemma CascadeLeavesNothing(t: Tables, D: set<GameId>)
    ensures var r := CascadeAll(t, D);
      && (forall g :: g in D ==> g !in r.games && g !in r.foxes && PlayersIn(r, g) == {})
      && (forall c :: c in r.cells ==> c.game !in D)
      && (forall k :: k in r.suspectsInGame ==> k.game !in D)
      && (forall l :: l in r.links ==> l.game !in D)
      && (forall p :: p in r.moves ==> !(p in t.players && InGames(t, p, D)))
      && (forall c :: c in r.placements ==> !(c in t.cells && c.game in D))
  {
  }

  /** The cascade deletes nothing that belongs to another game, and touches no other table. */
  lemma CascadeKeepsOthers(t: Tables, D: set<GameId>)
    ensures var r := CascadeAll(t, D);
      && (forall h :: h !in D ==> PlayersIn(r, h) == PlayersIn(t, h))
      && (forall p :: p in t.players && !InGames(t, p, D) ==> p in r.players && r.players[p] == t.players[p])
      && (forall h :: h in t.games && h !in D ==> h in r.games && r.games[h] == t.games[h])
      && (forall h :: h in t.foxes && h !in D ==> h in r.foxes && r.foxes[h] == t.foxes[h])
      && (forall c :: c in t.cells && c.game !in D ==> c in r.cells)
      && (forall l :: l in t.links && l.game !in D ==> l in r.links)
      && (forall k :: k in t.suspectsInGame && k.game !in D ==> k in r.suspectsInGame && r.suspectsInGame[k] == t.suspectsInGame[k])
      && (forall p :: p in t.moves && !(p in t.players && InGames(t, p, D)) ==> p in r.moves && r.moves[p] == t.moves[p])
      && (forall c :: c in t.placements && !(c in t.cells && c.game in D) ==> c in r.placements && r.placements[c] == t.placements[c])
      && r.users == t.users && r.catalog == t.catalog
      && r.nextGameId == t.nextGameId && r.nextPlayerId == t.nextPlayerId
  {
    var r := CascadeAll(t, D);
    forall h | h !in D ensures PlayersIn(r, h) == PlayersIn(t, h) {
      forall p | p in PlayersIn(t, h) ensures p in PlayersIn(r, h) {
        assert !InGames(t, p, D);
      }
    }
  }

  lemma DoomedStep(t: Tables, D: set<GameId>, g: GameId)
    ensures Doomed(CascadeAll(t, D), {g}) + Doomed(t, D) == Doomed(t, D + {g})
  {
    var m := CascadeAll(t, D);
    forall p | p in Doomed(t, D + {g}) && p !in Doomed(t, D) ensures p in Doomed(m, {g}) {
      assert p in m.players;
    }
  }

  lemma CascadeStepRows(t: Tables, D: set<GameId>, g: GameId)
    ensures DropMoves(CascadeAll(t, D), {g}) == DropMoves(t, D + {g})
    ensures DropPlayers(CascadeAll(t, D), {g}) == DropPlayers(t, D + {g})
  {
    DoomedStep(t, D, g);
  }

  lemma CascadeStepPlacements(t: Tables, D: set<GameId>, g: GameId)
    ensures DropPlacements(CascadeAll(t, D), {g}) == DropPlacements(t, D + {g})
  {
    var m := CascadeAll(t, D);
    assert forall c :: c in DropPlacements(m, {g}) <==> c in DropPlacements(t, D + {g});
  }

  /** Cascading no game deletes nothing. */
  lemma CascadeNothing(t: Tables)
    ensures CascadeAll(t, {}) == t
  {
    var r := CascadeAll(t, {});
    assert forall p :: p in t.players ==> !InGames(t, p, {});
    assert Doomed(t, {}) == {};
    assert r.moves == t.moves;
    assert r.players == t.players;
    assert r.placements == t.placements;
    assert r.links == t.links;
    assert r.suspectsInGame == t.suspectsInGame;
    assert r.cells == t.cells;
    assert r.foxes == t.foxes;
    assert r.games == t.games;
  }

  /** Cascading one more game after a set of games is the cascade of the union. */
  lemma CascadeStep(t: Tables, D: set<GameId>, g: GameId)
    ensures Cascade(CascadeAll(t, D), g) == CascadeAll(t, D + {g})
  {
    var m := CascadeAll(t, D);
    var a := Cascade(m, g);
    var b := CascadeAll(t, D + {g});
    CascadeStepRows(t, D, g);
    CascadeStepPlacements(t, D, g);
    assert a.cells == b.cells;
    assert a.links == b.links;
    assert a.games == b.games;
    assert a.foxes == b.foxes;
    assert a.suspectsInGame == b.suspectsInGame;
  }

  /** `delete_game_cascade`, deleting from the tables in foreign-key order. */
  method DeleteGameCascade(s: Store, g: GameId)
    modifies s
    ensures s.Snapshot() == Cascade(old(s.Snapshot()), g)
  {
    var t := s.Snapshot();
    var D := {g};
    s.moves := DropMoves(t, D);
    s.players := DropPlayers(t, D);
    s.placements := DropPlacements(t, D);
    s.links := DropLinks(t, D);
    s.suspectsInGame := DropSuspects(t, D);
    s.cells := DropCells(t, D);
    s.foxes := DropFoxes(t, D);
    s.games := DropGames(t, D);
  }

  /** The cascade applied to each game of `D` in turn (smallest id first), counting the games deleted. */
  method DeleteGames(s: Store, D: set<GameId>) returns (count: nat)
    modifies s
    ensures s.Snapshot() == CascadeAll(old(s.Snapshot()), D)
    ensures count == |D|
  {
    var t := s.Snapshot();
    var left := D;
    ghost var done: set<GameId> := {};
    CascadeNothing(t);
    count := 0;
    while left != {}
      invariant done + left == D && done !! left
      invariant s.Snapshot() == CascadeAll(t, done)
      invariant count == |done|
      decreases |left|
    {
      var g := SetMin(left);
      CascadeStep(t, done, g);
      DeleteGameCascade(s, g);
      done := done + {g};
      left := left - {g};
      count := count + 1;
    }
  }

}
