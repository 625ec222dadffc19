/**
 * The relational store the endpoints share: games, foxes, cells, players, pending
 * moves, clue placements, suspects in game, suspect-clue links, users and the
 * static suspect and clue catalogue.
 *
 * A cell is identified by its game and coordinates: the grid of a game is created
 * once, so `cellid` and `(gameid, y, x)` name the same row.
 */
module Schema {
  import opened Base
  import opened Text
  import opened Sorting

  type GameId = int
  type PlayerId = int
  type SusId = int
  type ClueId = int

  /** `status_enum`: a clue placement or a suspect is hidden or opened. */
  datatype Status = Hidden | Opened

  /** `direction_enum`: search for a clue or interrogate a suspect. */
  datatype Direction = Clue | Suspect

  /** Seat colours: red, yellow, blue, green. */
  datatype Color = Red | Yellow | Blue | Green

  /** `games` row. `currentSeat` 0 means not started; `turnStartedAt` is a timestamp in seconds or NULL. */
  datatype Game = Game(turntime: int, seatcount: int, currentSeat: int, turnStartedAt: Option<int>)

  /** `foxes` row (its id is the game id): the fox position and the suspect who is secretly the fox (NULL read as 0). */
  datatype Fox = Fox(pos: int, susId: int)

  datatype Cell = Cell(game: GameId, y: int, x: int)

  /** `players` row: the game a player is in is the game of the cell the player stands on. */
  datatype Player = Player(login: string, seat: int, color: Color, cell: Cell)

  /** `moves` row: a pending action with its dice outcome and, for a successful clue search, the step budget. */
  datatype Move = Move(direction: Direction, result: bool, maxSteps: Option<int>)

  /** `clues_in_game` row, keyed by its cell. */
  datatype Placement = Placement(clue: ClueId, status: Status)

  /** Key of a `suspects_in_game` row. */
  datatype SusKey = SusKey(game: GameId, sus: SusId)

  /** `suspect_clues_in_game` row. */
  datatype Link = Link(game: GameId, sus: SusId, clue: ClueId)

  /** A catalogue row: `suspects(susid, susname)` or `clues(clueid, item_name)`. */
  datatype Entry = Entry(id: int, name: string)

  /** The static catalogue, rows in table order. */
  datatype Catalog = Catalog(suspects: seq<Entry>, clues: seq<Entry>)

  /** The whole store as a value. `nextGameId` and `nextPlayerId` are the id sequences. */
  datatype Tables = Tables(
    games: map<GameId, Game>,
    foxes: map<GameId, Fox>,
    cells: set<Cell>,
    players: map<PlayerId, Player>,
    moves: map<PlayerId, Move>,
    placements: map<Cell, Placement>,
    suspectsInGame: map<SusKey, Status>,
    links: set<Link>,
    users: seq<string>,
    catalog: Catalog,
    nextGameId: int,
    nextPlayerId: int)

  /** An endpoint's effect: the store after it and what it answers. */
  datatype Step<+T> = Step(tables: Tables, reply: Reply<T>)

  /** The fox reaches the den at this position: everybody loses. */
  const Den := 37

  /** Accusation verdicts stored in the fox position. */
  const WinPos := -2
  const LosePos := -1

  /** A game is over once its fox is outside 0..36. */
  predicate Terminal(pos: int)
  {
    pos >= Den || pos < 0
  }

  /** `(int)` of `SELECT foxpos FROM foxes WHERE id = g`: a missing row reads as 0. */
  function FoxPos(t: Tables, g: GameId): int
  {
    if g in t.foxes then t.foxes[g].pos else 0
  }

  /** Players joined to game `g` through their cell (`players JOIN cells ... WHERE c.gameid = g`). */
  function PlayersIn(t: Tables, g: GameId): set<PlayerId>
  {
    set p | p in t.players && t.players[p].cell in t.cells && t.players[p].cell.game == g
  }

  function PlayerCount(t: Tables, g: GameId): nat
  {
    |PlayersIn(t, g)|
  }

  /** The player of game `g` whose login is exactly `login` (`LIMIT 1`: the smallest player id). */
  function FindPlayer(t: Tables, g: GameId, login: string): (r: Option<PlayerId>)
    ensures r.Some? ==> r.value in PlayersIn(t, g) && t.players[r.value].login == login
    ensures r.None? <==> forall p :: p in PlayersIn(t, g) ==> t.players[p].login != login
  {
    var ids := set p | p in PlayersIn(t, g) && t.players[p].login == login;
    if ids == {} then
      assert forall p :: p in PlayersIn(t, g) ==> p !in ids;
      None
    else
      var m := SetMin(ids);
      assert m in PlayersIn(t, g) && t.players[m].login == login;
      Some(m)
  }

  /** The name of catalogue row `id`: the first row with that id (ids are the table's key). */
  function NameOf(rows: seq<Entry>, id: int): (r: Option<string>)
    ensures r.Some? ==> exists i :: 0 <= i < |rows| && rows[i] == Entry(id, r.value)
    ensures r.None? <==> forall i :: 0 <= i < |rows| ==> rows[i].id != id
  {
    if rows == [] then None
    else if rows[0].id == id then Some(rows[0].name)
    else
      var r := NameOf(rows[1..], id);
      assert r.Some? ==> exists i :: 0 <= i < |rows| && rows[i] == Entry(id, r.value) by {
        if r.Some? {
          var i :| 0 <= i < |rows[1..]| && rows[1..][i] == Entry(id, r.value);
          assert rows[i + 1] == Entry(id, r.value);
        }
      }
      assert r.None? ==> forall i :: 0 <= i < |rows| ==> rows[i].id != id by {
        if r.None? {
          forall i | 0 <= i < |rows| ensures rows[i].id != id {
            if i > 0 { assert rows[i] == rows[1..][i - 1]; }
          }
        }
      }
      r
  }

  /** The first catalogue row `keep` accepts (`... WHERE ... LIMIT 1` read in table order). */
  function FirstWhere(rows: seq<Entry>, keep: Entry -> bool): (r: Option<Entry>)
    ensures r.Some? ==> r.value in rows && keep(r.value)
    ensures r.None? <==> forall i :: 0 <= i < |rows| ==> !keep(rows[i])
  {
    if rows == [] then None
    else if keep(rows[0]) then Some(rows[0])
    else
      var r := FirstWhere(rows[1..], keep);
      assert r.None? ==> forall i :: 0 <= i < |rows| ==> !keep(rows[i]) by {
        if r.None? {
          forall i | 0 <= i < |rows| ensures !keep(rows[i]) {
            if i > 0 { assert rows[i] == rows[1..][i - 1]; }
          }
        }
      }
      r
  }

  /** PHP's `!$v` on a fetched string column: the empty string and "0" are falsy. */
  predicate PhpFalsy(v: string)
  {
    v == [] || v == "0"
  }

  /** SQL `LOWER(TRIM(login)) = LOWER(:login)`. */
  predicate LoginMatches(stored: string, login: string)
  {
    LowerStr(SqlTrim(stored)) == LowerStr(login)
  }

  /** The index of the first element of `xs` satisfying `p`, or `|xs|` when none does. */
  function FirstMatch(xs: seq<string>, p: string -> bool): (r: nat)
    ensures r <= |xs|
    ensures r < |xs| ==> p(xs[r])
    ensures forall i :: 0 <= i < r ==> !p(xs[i])
  {
    if xs == [] then 0
    else if p(xs[0]) then 0
    else
      var r := FirstMatch(xs[1..], p);
      assert forall i :: 1 <= i < r + 1 ==> xs[i] == xs[1..][i - 1];
      r + 1
  }

  /** The index of the first user row matching `login`, or `|users|` when none does. */
  function FirstLoginRow(users: seq<string>, login: string): (r: nat)
    ensures r <= |users|
    ensures r < |users| ==> LoginMatches(users[r], login)
    ensures forall i :: 0 <= i < r ==> !LoginMatches(users[i], login)
  {
    FirstMatch(users, u => LoginMatches(u, login))
  }

  /**
   * The account a join or leave acts for: the first user whose login matches; a
   * falsy value is no account. The login is used trimmed from then on.
   */
  function StoredLogin(users: seq<string>, login: string): (r: Option<string>)
    ensures r.Some? <==> FirstLoginRow(users, login) < |users| && !PhpFalsy(users[FirstLoginRow(users, login)])
    ensures r.Some? ==> r.value == PhpTrim(users[FirstLoginRow(users, login)])
    ensures r.Some? ==> exists i :: 0 <= i < |users| && LoginMatches(users[i], login)
                                    && !PhpFalsy(users[i]) && r.value == PhpTrim(users[i])
    ensures (forall i :: 0 <= i < |users| ==> !LoginMatches(users[i], login)) ==> r.None?
  {
    var i := FirstLoginRow(users, login);
    if i == |users| || PhpFalsy(users[i]) then None else Some(PhpTrim(users[i]))
  }

  /**
   * The checks of a join or a leave before the game is read: a positive game id, a
   * non-blank login and a user account for it. On success the account's stored
   * login, trimmed.
   */
  function AccountChecks(t: Tables, gameId: int, loginRaw: string): (r: Checked<string>)
    ensures gameId <= 0 || PhpTrim(loginRaw) == [] ==> r == Fail(400)
    ensures r.Pass? <==> gameId > 0 && PhpTrim(loginRaw) != [] && StoredLogin(t.users, PhpTrim(loginRaw)).Some?
    ensures r.Pass? ==> r.value == StoredLogin(t.users, PhpTrim(loginRaw)).value
    ensures r.Fail? ==> r.code == 400 || r.code == 404
  {
    var login := PhpTrim(loginRaw);
    if gameId <= 0 || login == [] then Fail(400)
    else match StoredLogin(t.users, login)
      case None => Fail(404)
      case Some(v) => Pass(v)
  }

  /** The store with player `p`'s pending move deleted (`DELETE FROM moves WHERE playerid = p`). */
  function DeleteMove(t: Tables, p: PlayerId): (r: Tables)
    ensures p !in r.moves
    ensures forall q :: q != p ==> (q in r.moves <==> q in t.moves) && (q in t.moves ==> r.moves[q] == t.moves[q])
    ensures r == t.(moves := r.moves)
  {
    t.(moves := t.moves - {p})
  }

  /** `UPDATE foxes SET foxpos = foxpos + 3 WHERE id = g` (no row, no change). */
  function BumpFox(t: Tables, g: GameId): (r: Tables)
    ensures g in t.foxes ==> g in r.foxes && r.foxes[g] == t.foxes[g].(pos := t.foxes[g].pos + 3)
    ensures g !in t.foxes ==> r == t
    ensures r.foxes.Keys == t.foxes.Keys
    ensures forall h :: h in t.foxes && h != g ==> r.foxes[h] == t.foxes[h]
    ensures r == t.(foxes := r.foxes)
  {
    if g in t.foxes then t.(foxes := t.foxes[g := t.foxes[g].(pos := t.foxes[g].pos + 3)]) else t
  }

  /** `UPDATE games SET current_seat = seat, turn_started_at = start WHERE gameid = g`. */
  function SetTurn(t: Tables, g: GameId, seat: int, start: Option<int>): (r: Tables)
    requires g in t.games
    ensures g in r.games && r.games[g] == t.games[g].(currentSeat := seat, turnStartedAt := start)
    ensures r.games.Keys == t.games.Keys
    ensures forall h :: h in t.games && h != g ==> r.games[h] == t.games[h]
    ensures r == t.(games := r.games)
  {
    t.(games := t.games[g := t.games[g].(currentSeat := seat, turnStartedAt := start)])
  }

  /** Puts every table of `s` back to `t` (a transaction rollback). */
  method Restore(s: Store, t: Tables)
    modifies s
    ensures s.Snapshot() == t
  {
    s.games, s.foxes, s.cells, s.players, s.moves, s.placements := t.games, t.foxes, t.cells, t.players, t.moves, t.placements;
    s.suspectsInGame, s.links, s.users, s.catalog := t.suspectsInGame, t.links, t.users, t.catalog;
    s.nextGameId, s.nextPlayerId := t.nextGameId, t.nextPlayerId;
  }

  /** The empty store over a catalogue. */
  function EmptyTables(catalog: Catalog): Tables
  {
    Tables(map[], map[], {}, map[], map[], map[], map[], {}, [], catalog, 1, 1)
  }

  /** The database: one field per table, updated in place by the endpoints. */
  class Store {
    var games: map<GameId, Game>
    var foxes: map<GameId, Fox>
    var cells: set<Cell>
    var players: map<PlayerId, Player>
    var moves: map<PlayerId, Move>
    var placements: map<Cell, Placement>
    var suspectsInGame: map<SusKey, Status>
    var links: set<Link>
    var users: seq<string>
    var catalog: Catalog
    var nextGameId: int
    var nextPlayerId: int

    /** The contents of every table. */
    function Snapshot(): Tables
      reads this
    {
      Tables(games, foxes, cells, players, moves, placements, suspectsInGame, links,
             users, catalog, nextGameId, nextPlayerId)
    }

    constructor (catalog: Catalog)
      ensures Snapshot() == EmptyTables(catalog)
    {
      games, foxes, cells, players, moves := map[], map[], {}, map[], map[];
      placements, suspectsInGame, links, users := map[], map[], {}, [];
      this.catalog := catalog;
      nextGameId, nextPlayerId := 1, 1;
    }
  }
}
