/**
 * Reading a game: a game whose clock is more than two hours old is deleted; otherwise
 * an expired turn is first passed on, then the whole state is derived for the client:
 * whether the game is over and how, the seconds left in the turn, the clues on the
 * board (whether the fox holds an opened one) and the suspects (with the hints of the
 * opened ones).
 */
module GameState {
  import opened Base
  import opened Sorting
  import opened Schema
  import opened Helpers
  import opened SuspectHints

  /** A clock older than this many seconds marks a game as abandoned. */
  const StaleAfter := 2 * 60 * 60

  /** How a finished game ended for the players. */
  datatype Outcome = Win | Lose

  /** A clue on the board: its cell, its catalogue name, its status and, once opened, whether the fox holds it. */
  datatype ClueView = ClueView(y: int, x: int, itemName: string, status: Status, foxHasItem: Option<bool>)

  /** A suspect of the game: its name, its status and the hints shown for it. */
  datatype SuspectView = SuspectView(name: string, status: Status, hints: Option<seq<string>>)

  /** The answer of `game_state.php`. */
  datatype StateView = StateView(
    gameId: GameId, turntime: int, seatcount: int, playersNow: nat, started: bool, currentSeat: int,
    gameOver: bool, result: Option<Outcome>, timeRemaining: Option<int>, foxpos: int,
    players: map<PlayerId, Player>, clues: map<Cell, ClueView>, suspects: seq<SuspectView>,
    pending: map<PlayerId, Option<Move>>)

  /** The game's clock started more than two hours before `now`. */
  predicate Stale(t: Tables, g: GameId, now: int)
  {
    g in t.games && t.games[g].turnStartedAt.Some? && t.games[g].turnStartedAt.value < now - StaleAfter
  }

  /**
   * The result shown for a fox position: a win only for the winning accusation, a loss
   * for the losing one and for an escaped fox, nothing while the game runs. A
   * position below -2 is over but has no result.
   */
  function ResultOf(pos: int): (r: Option<Outcome>)
    ensures r == Some(Win) <==> pos == WinPos
    ensures r == Some(Lose) <==> pos == LosePos || pos >= Den
    ensures r.Some? ==> Terminal(pos)
    ensures r.None? && Terminal(pos) <==> pos < WinPos
  {
    if pos >= Den then Some(Lose)
    else if pos == WinPos then Some(Win)
    else if pos == LosePos then Some(Lose)
    else None
  }

  /**
   * The seconds left in the turn: none without a running clock or a positive turn
   * time; otherwise what remains of the turn time, and 0 once it has run out.
   */
  function TimeRemaining(gm: Game, now: int): (r: Option<int>)
    ensures r.Some? <==> ClockRunning(gm) && gm.turntime > 0
    ensures r.Some? ==> r.value >= 0
    ensures r.Some? ==> (r.value == 0 <==> now - gm.turnStartedAt.value >= gm.turntime)
    ensures r.Some? && r.value > 0 ==> r.value + (now - gm.turnStartedAt.value) == gm.turntime
  {
    if ClockRunning(gm) && gm.turntime > 0 then
      var left := gm.turntime - (now - gm.turnStartedAt.value);
      Some(if left > 0 then left else 0)
    else None
  }

  /** The clues the fox's suspect holds in game `g`; none without a fox suspect. */
  function FoxClues(t: Tables, g: GameId, foxSus: int): (r: set<ClueId>)
    ensures forall c :: c in r <==> foxSus > 0 && Link(g, foxSus, c) in t.links
  {
    if foxSus > 0 then LinkedClues(t, g, foxSus) else {}
  }

  /** The clue view of the placement on cell `c` of game `g`. */
  function ClueAt(t: Tables, g: GameId, foxSus: int, c: Cell): (r: ClueView)
    requires c in t.placements && NameOf(t.catalog.clues, t.placements[c].clue).Some?
    ensures r.y == c.y && r.x == c.x && r.status == t.placements[c].status
    ensures r.itemName == NameOf(t.catalog.clues, t.placements[c].clue).value
    ensures r.status == Hidden ==> r.foxHasItem.None?
    ensures r.status == Opened ==> r.foxHasItem == Some(foxSus > 0 && Link(g, foxSus, t.placements[c].clue) in t.links)
  {
    var p := t.placements[c];
    var has := if p.status == Opened then Some(p.clue in FoxClues(t, g, foxSus)) else None;
    ClueView(c.y, c.x, NameOf(t.catalog.clues, p.clue).value, p.status, has)
  }

  /** The placements of game `g` whose clue is in the catalogue (`clues_in_game JOIN cells JOIN clues`). */
  predicate ShownClue(t: Tables, g: GameId, c: Cell)
  {
    c in t.placements && c in t.cells && c.game == g && NameOf(t.catalog.clues, t.placements[c].clue).Some?
  }

  /** Every clue of game `g` on the board, keyed by its cell. */
  function ClueViews(t: Tables, g: GameId, foxSus: int): (r: map<Cell, ClueView>)
    ensures forall c :: ShownClue(t, g, c) ==> c in r
    ensures forall c :: c in r ==> ShownClue(t, g, c) && r[c] == ClueAt(t, g, foxSus, c)
  {
    map c | c in t.placements && ShownClue(t, g, c) :: ClueAt(t, g, foxSus, c)
  }

  /** The suspect ids of game `g` that have a catalogue row, ascending (`ORDER BY s.susid`). */
  function ShownSuspects(t: Tables, g: GameId): (r: seq<SusId>)
    ensures forall i :: 0 <= i < |r| ==> SusKey(g, r[i]) in t.suspectsInGame && NameOf(t.catalog.suspects, r[i]).Some?
    ensures forall s :: s in r <==> SusKey(g, s) in t.suspectsInGame && NameOf(t.catalog.suspects, s).Some?
    ensures forall i, j :: 0 <= i < j < |r| ==> r[i] < r[j]
  {
    var ids := set k | k in t.suspectsInGame && k.game == g && NameOf(t.catalog.suspects, k.sus).Some? :: k.sus;
    var r := Ascending(ids);
    assert forall s :: s in r <==> SusKey(g, s) in t.suspectsInGame && NameOf(t.catalog.suspects, s).Some? by {
      forall s ensures s in r <==> SusKey(g, s) in t.suspectsInGame && NameOf(t.catalog.suspects, s).Some? {
        if SusKey(g, s) in t.suspectsInGame && NameOf(t.catalog.suspects, s).Some? {
          assert s in ids;
        }
      }
    }
    r
  }

  /** The view of suspect `s`: hints only when it is opened and some clue names exist. */
  function SuspectAt(t: Tables, g: GameId, s: SusId): (r: SuspectView)
    requires SusKey(g, s) in t.suspectsInGame && NameOf(t.catalog.suspects, s).Some?
    ensures r.name == NameOf(t.catalog.suspects, s).value && r.status == t.suspectsInGame[SusKey(g, s)]
    ensures r.hints.Some? <==> r.status == Opened && Hints(t, g, s) != []
    ensures r.hints.Some? ==> r.hints.value == Hints(t, g, s)
  {
    var status := t.suspectsInGame[SusKey(g, s)];
    var hints := if status == Opened then Hints(t, g, s) else [];
    SuspectView(NameOf(t.catalog.suspects, s).value, status, if hints != [] then Some(hints) else None)
  }

  /** The views of the suspects `ids`, in their order. */
  function SuspectViews(t: Tables, g: GameId, ids: seq<SusId>): (r: seq<SuspectView>)
    requires forall i :: 0 <= i < |ids| ==> SusKey(g, ids[i]) in t.suspectsInGame && NameOf(t.catalog.suspects, ids[i]).Some?
    ensures |r| == |ids|
    ensures forall i :: 0 <= i < |ids| ==> r[i] == SuspectAt(t, g, ids[i])
  {
    if ids == [] then [] else [SuspectAt(t, g, ids[0])] + SuspectViews(t, g, ids[1..])
  }

  /** The state of game `g` as `game_state.php` reports it, read from `t` at instant `now`. */
  function View(t: Tables, g: GameId, now: int): (r: StateView)
    requires g in t.games && g in t.foxes
    ensures r.gameOver <==> Terminal(t.foxes[g].pos)
    ensures r.result == ResultOf(t.foxes[g].pos)
    ensures r.started <==> PlayerCount(t, g) >= t.games[g].seatcount
    ensures r.timeRemaining == TimeRemaining(t.games[g], now)
    ensures r.gameId == g && r.turntime == t.games[g].turntime && r.seatcount == t.games[g].seatcount
    ensures r.playersNow == PlayerCount(t, g) && r.currentSeat == t.games[g].currentSeat
    ensures r.foxpos == t.foxes[g].pos
    ensures r.players.Keys == PlayersIn(t, g) && r.pending.Keys == PlayersIn(t, g)
    ensures forall p :: p in r.players ==> r.players[p] == t.players[p]
    ensures forall p :: p in r.pending ==> (r.pending[p].Some? <==> p in t.moves)
    ensures forall p :: p in r.pending && p in t.moves ==> r.pending[p] == Some(t.moves[p])
    ensures r.clues == ClueViews(t, g, t.foxes[g].susId)
    ensures r.suspects == SuspectViews(t, g, ShownSuspects(t, g))
  {
    var gm := t.games[g];
    var pos := t.foxes[g].pos;
    var ids := PlayersIn(t, g);
    StateView(g, gm.turntime, gm.seatcount, |ids|, |ids| >= gm.seatcount, gm.currentSeat,
              Terminal(pos), ResultOf(pos), TimeRemaining(gm, now), pos,
              map p | p in ids :: t.players[p],
              ClueViews(t, g, t.foxes[g].susId),
              SuspectViews(t, g, ShownSuspects(t, g)),
              map p | p in ids :: if p in t.moves then Some(t.moves[p]) else None)
  }

  /**
   * `game_state.php` as one call: 400 for a bad id; a stale game is deleted and
   * reported missing; otherwise the timeout sweep runs (and commits) before the read,
   * which answers 404 without the game and 500 without its fox row.
   */
  function GameStateEffect(t: Tables, gameId: int, now: int): (r: Step<StateView>)
    ensures gameId <= 0 ==> r == Step(t, Err(400))
    ensures gameId > 0 && Stale(t, gameId, now) ==> r == Step(Cascade(t, gameId), CommittedErr(404))
    ensures gameId > 0 && !Stale(t, gameId, now) ==> r.tables == Timeout(t, gameId, now)
    ensures gameId > 0 && gameId !in t.games ==> r == Step(t, Err(404))
    // 500: the game has no fox row; the sweep's own changes are committed before it.
    ensures gameId > 0 && !Stale(t, gameId, now) && gameId in t.games && gameId !in t.foxes ==>
      r.reply == if Expired(t, gameId, now) then CommittedErr(500) else Err(500)
    ensures r.reply.Ok? <==> gameId > 0 && !Stale(t, gameId, now) && gameId in t.games && gameId in t.foxes
    ensures r.reply.Ok? ==> r.reply.body == View(Timeout(t, gameId, now), gameId, now)
  {
    if gameId <= 0 then Step(t, Err(400))
    else if Stale(t, gameId, now) then Step(Cascade(t, gameId), CommittedErr(404))
    else
      var t1 := Timeout(t, gameId, now);
      if gameId !in t1.games then Step(t1, Err(404))
      else if gameId !in t1.foxes then Step(t1, if Expired(t, gameId, now) then CommittedErr(500) else Err(500))
      else Step(t1, Ok(View(t1, gameId, now)))
  }

  /** A stale game is gone after the read, every row of it, and other games keep theirs. */
  lemma StaleReadDeletes(t: Tables, g: GameId, now: int)
    requires g > 0 && Stale(t, g, now)
    ensures var r := GameStateEffect(t, g, now).tables;
      && g !in r.games && g !in r.foxes && PlayersIn(r, g) == {}
      && (forall c :: c in r.cells ==> c.game != g)
      && (forall h :: h in t.games && h != g ==> h in r.games && r.games[h] == t.games[h])
  {
    CascadeLeavesNothing(t, {g});
    CascadeKeepsOthers(t, {g});
  }

  /**
   * A read never shows a started turn as run out: the sweep before it has passed an
   * expired turn on and restarted its clock, so any time shown for a started game is positive.
   */
  lemma ReadShowsLiveTurn(t: Tables, g: GameId, now: int)
    requires GameStateEffect(t, g, now).reply.Ok?
    ensures var v := GameStateEffect(t, g, now).reply.body;
      v.currentSeat > 0 && v.timeRemaining.Some? ==> v.timeRemaining.value > 0
  {
    var t1 := Timeout(t, g, now);
    if Expired(t, g, now) {
      assert t1.games[g].turnStartedAt == Some(now);
    }
    assert !Expired(t1, g, now);
  }

  /** `game_state.php`: the stale deletion, the sweep, then the read. */
  method GameStateCall(s: Store, gameId: int, now: int) returns (reply: Reply<StateView>)
    modifies s
    ensures s.Snapshot() == GameStateEffect(old(s.Snapshot()), gameId, now).tables
    ensures reply == GameStateEffect(old(s.Snapshot()), gameId, now).reply
  {
    if gameId <= 0 {
      return Err(400);
    }
    if Stale(s.Snapshot(), gameId, now) {
      DeleteGameCascade(s, gameId);
      return CommittedErr(404);
    }
    var expired := Expired(s.Snapshot(), gameId, now);
    AutoAdvanceTurnIfTimeout(s, gameId, now);
    if gameId !in s.games {
      return Err(404);
    }
    if gameId !in s.foxes {
      return if expired then CommittedErr(500) else Err(500);
    }
    reply := Ok(View(s.Snapshot(), gameId, now));
  }
}
