/**
 * The lobby: first every inactive game is deleted (nobody left, or a single player
 * left in a game whose clock is more than 30 minutes old, while the fox is still in
 * play); then the games still open to a join are listed, newest first.
 */
module ListGames {
  import opened Base
  import opened Sorting
  import opened Schema
  import opened Helpers

  /** A lone player's game is inactive once its clock is this many seconds old. */
  const IdleAfter := 30 * 60

  /** A game of the lobby, with the logins of its players in seat order. */
  datatype GameRow = GameRow(gameId: GameId, turntime: int, seatcount: int, playersNow: nat, freeSeats: int,
                             foxpos: int, gameOver: bool, logins: seq<string>)

  /** The deletion filter of `list_games.php`; a missing fox row counts as position 0. */
  predicate Inactive(t: Tables, g: GameId, now: int)
    requires g in t.games
  {
    var n := PlayerCount(t, g);
    && n <= 1
    && 0 <= FoxPos(t, g) < Den
    && (n == 0 || (t.games[g].turnStartedAt.Some? && t.games[g].turnStartedAt.value < now - IdleAfter && n == 1))
  }

  /** The games the sweep deletes: never a finished game, never one with two players or more. */
  function InactiveGames(t: Tables, now: int): (r: set<GameId>)
    ensures forall g :: g in r <==> g in t.games && Inactive(t, g, now)
    ensures forall g :: g in r ==> !Terminal(FoxPos(t, g)) && PlayerCount(t, g) <= 1
  {
    set g | g in t.games && Inactive(t, g, now)
  }

  /** The listing filter: the fox is still in play and a seat is free. */
  predicate Listed(t: Tables, g: GameId)
  {
    g in t.games && 0 <= FoxPos(t, g) < Den && PlayerCount(t, g) < t.games[g].seatcount
  }

  /** `(seat, login)` of the players `ids`, in their order. */
  function SeatRows(t: Tables, ids: seq<PlayerId>): (r: seq<SeatRow>)
    requires forall i :: 0 <= i < |ids| ==> ids[i] in t.players
    ensures |r| == |ids|
    ensures forall i :: 0 <= i < |ids| ==> r[i] == SeatRow(t.players[ids[i]].seat, t.players[ids[i]].login)
  {
    if ids == [] then [] else [SeatRow(t.players[ids[0]].seat, t.players[ids[0]].login)] + SeatRows(t, ids[1..])
  }

  function LoginsOf(rows: seq<SeatRow>): (r: seq<string>)
    ensures |r| == |rows|
    ensures forall i :: 0 <= i < |rows| ==> r[i] == rows[i].login
  {
    if rows == [] then [] else [rows[0].login] + LoginsOf(rows[1..])
  }

  /** The players of game `g`, by ascending id. */
  function PlayerIds(t: Tables, g: GameId): (r: seq<PlayerId>)
    ensures |r| == PlayerCount(t, g)
    ensures forall i :: 0 <= i < |r| ==> r[i] in PlayersIn(t, g) && r[i] in t.players
    ensures forall p :: p in PlayersIn(t, g) ==> p in r
  {
    Ascending(PlayersIn(t, g))
  }

  /** The seat rows of game `g` sorted by seat (`json_agg(p.login ORDER BY p.seatnumber)`). */
  function SeatOrder(t: Tables, g: GameId): (r: seq<SeatRow>)
    ensures SortedBySeat(r)
    ensures multiset(r) == multiset(SeatRows(t, PlayerIds(t, g)))
    ensures |r| == PlayerCount(t, g)
  {
    var rows := SeatRows(t, PlayerIds(t, g));
    var r := SortBySeat(rows);
    assert |r| == |multiset(r)| == |multiset(rows)| == |rows|;
    r
  }

  /** The lobby row of game `g`. */
  function RowOf(t: Tables, g: GameId): (r: GameRow)
    requires g in t.games
    ensures r.gameId == g && r.playersNow == PlayerCount(t, g)
    ensures r.turntime == t.games[g].turntime && r.seatcount == t.games[g].seatcount
    ensures r.logins == LoginsOf(SeatOrder(t, g))
    ensures r.freeSeats + r.playersNow == t.games[g].seatcount
    ensures |r.logins| == r.playersNow
    ensures r.foxpos == FoxPos(t, g) && (r.gameOver <==> Terminal(r.foxpos))
  {
    var n := PlayerCount(t, g);
    var gm := t.games[g];
    GameRow(g, gm.turntime, gm.seatcount, n, gm.seatcount - n, FoxPos(t, g), Terminal(FoxPos(t, g)),
            LoginsOf(SeatOrder(t, g)))
  }

  /**
   * The logins of a lobby row are the logins of the game's players, listed by seat:
   * the `i`-th is the login of a player of the game sitting at the `i`-th seat of a
   * sequence of seats that never decreases.
   */
  lemma RowOfLogins(t: Tables, g: GameId)
    requires g in t.games
    ensures var rows := SeatOrder(t, g);
      && SortedBySeat(rows)
      && |RowOf(t, g).logins| == PlayerCount(t, g)
      && forall i :: 0 <= i < |RowOf(t, g).logins| ==>
           exists p :: p in PlayersIn(t, g) && t.players[p].login == RowOf(t, g).logins[i]
                       && t.players[p].seat == rows[i].seat
  {
    var rows := SeatOrder(t, g);
    var logins := RowOf(t, g).logins;
    assert logins == LoginsOf(rows);
    forall i | 0 <= i < |logins|
      ensures exists p :: p in PlayersIn(t, g) && t.players[p].login == logins[i] && t.players[p].seat == rows[i].seat
    {
      var p := SeatRowSource(t, g, i);
      assert logins[i] == rows[i].login;
    }
  }

  /** The `i`-th seat-ordered row of game `g` is the row of one of its players. */
  lemma SeatRowSource(t: Tables, g: GameId, i: int) returns (p: PlayerId)
    requires 0 <= i < |SeatOrder(t, g)|
    ensures p in PlayersIn(t, g) && p in t.players
    ensures SeatOrder(t, g)[i] == SeatRow(t.players[p].seat, t.players[p].login)
  {
    var rows := SeatOrder(t, g);
    var ids := PlayerIds(t, g);
    var src := SeatRows(t, ids);
    assert rows[i] in multiset(src);
    var j :| 0 <= j < |src| && src[j] == rows[i];
    p := ids[j];
  }

  function RowsOf(t: Tables, ids: seq<GameId>): (r: seq<GameRow>)
    requires forall i :: 0 <= i < |ids| ==> ids[i] in t.games
    ensures |r| == |ids|
    ensures forall i :: 0 <= i < |ids| ==> r[i] == RowOf(t, ids[i])
  {
    if ids == [] then [] else [RowOf(t, ids[0])] + RowsOf(t, ids[1..])
  }

  /** The ids of the listed games, highest first (`ORDER BY g.gameid DESC`). */
  function ListedIds(t: Tables): (r: seq<GameId>)
    ensures forall i :: 0 <= i < |r| ==> Listed(t, r[i])
    ensures forall g :: Listed(t, g) ==> g in r
    ensures forall i, j :: 0 <= i < j < |r| ==> r[i] > r[j]
  {
    var listed := set g | g in t.games && Listed(t, g);
    var r := Descending(listed);
    assert forall i :: 0 <= i < |r| ==> r[i] in listed;
    r
  }

  /** The lobby: the row of every listed game, newest (highest id) first. */
  function Listing(t: Tables): (r: seq<GameRow>)
    ensures |r| == |ListedIds(t)|
  {
    RowsOf(t, ListedIds(t))
  }

  /**
   * The lobby lists exactly the games with a free seat and the fox in play, each
   * once, newest first, and no finished game.
   */
  lemma ListingShape(t: Tables)
    ensures var r := Listing(t);
      && (forall g :: (exists i :: 0 <= i < |r| && r[i].gameId == g) <==> Listed(t, g))
      && (forall i, j :: 0 <= i < j < |r| ==> r[i].gameId > r[j].gameId)
      && (forall i :: 0 <= i < |r| ==> r[i].freeSeats > 0 && !r[i].gameOver && 0 <= r[i].foxpos < Den)
  {
    var ids := ListedIds(t);
    var r := Listing(t);
    forall i | 0 <= i < |r|
      ensures r[i].gameId == ids[i] && r[i].freeSeats > 0 && !r[i].gameOver && 0 <= r[i].foxpos < Den
    {
      var g := ids[i];
      assert Listed(t, g);
      var row := RowOf(t, g);
      assert r[i] == row;
      assert row.freeSeats + row.playersNow == t.games[g].seatcount;
    }
    forall g | Listed(t, g) ensures exists i :: 0 <= i < |r| && r[i].gameId == g {
      var i :| 0 <= i < |ids| && ids[i] == g;
      assert r[i].gameId == g;
    }
  }

  /** `list_games.php` as one call: the sweep commits, then the lobby is read. */
  function ListGamesEffect(t: Tables, now: int): (r: Step<seq<GameRow>>)
    ensures r.tables == CascadeAll(t, InactiveGames(t, now))
    ensures r.reply == Ok(Listing(r.tables))
  {
    var t1 := CascadeAll(t, InactiveGames(t, now));
    Step(t1, Ok(Listing(t1)))
  }

  /** A listed row is the row of a listed game. */
  lemma ListedRow(t: Tables, i: nat)
    requires i < |Listing(t)|
    ensures Listed(t, Listing(t)[i].gameId) && Listing(t)[i].playersNow == PlayerCount(t, Listing(t)[i].gameId)
  {
    ListingShape(t);
  }

  /** A game the sweep keeps has the fox and the players it had. */
  lemma SweepSurvivor(t: Tables, D: set<GameId>, g: GameId)
    requires g in CascadeAll(t, D).games
    ensures g in t.games && g !in D
    ensures FoxPos(CascadeAll(t, D), g) == FoxPos(t, g) && PlayerCount(CascadeAll(t, D), g) == PlayerCount(t, g)
  {
    CascadeKeepsOthers(t, D);
    CascadeLeavesNothing(t, D);
  }

  /**
   * After the sweep, no listed game is empty: a game nobody is in with its fox in play
   * is deleted before the lobby is read.
   */
  lemma ListedGamesHavePlayers(t: Tables, now: int, i: nat)
    requires i < |ListGamesEffect(t, now).reply.body|
    ensures ListGamesEffect(t, now).reply.body[i].playersNow >= 1
  {
    var D := InactiveGames(t, now);
    var t1 := CascadeAll(t, D);
    ListedRow(t1, i);
    SweepSurvivor(t, D, Listing(t1)[i].gameId);
  }

  /** The sweep deletes every game the filter picks, and only those. */
  lemma SweepDeletesExactlyInactive(t: Tables, now: int)
    ensures var r := ListGamesEffect(t, now).tables;
      forall g :: g in t.games ==> (g !in r.games <==> Inactive(t, g, now))
  {
    CascadeKeepsOthers(t, InactiveGames(t, now));
    CascadeLeavesNothing(t, InactiveGames(t, now));
  }

  /** `list_games.php`: the sweep, then the lobby. */
  method ListGamesCall(s: Store, now: int) returns (reply: Reply<seq<GameRow>>)
    modifies s
    ensures s.Snapshot() == ListGamesEffect(old(s.Snapshot()), now).tables
    ensures reply == ListGamesEffect(old(s.Snapshot()), now).reply
  {
    var _ := DeleteGames(s, InactiveGames(s.Snapshot(), now));
    reply := Ok(Listing(s.Snapshot()));
  }
}
