/**
 * The accusation, the final action of a game: any player of the game names a
 * suspect; naming the fox wins the game for everybody (fox position -2), naming
 * anyone else loses it for everybody (-1), and every pending action of the game
 * is dropped. A game already decided by an accusation keeps its verdict.
 */
module Accuse {
  import opened Base
  import opened Text
  import opened Schema

  /** The answer: the accused name, the verdict and the fox position after the call. */
  datatype AccuseBody = AccuseBody(accused: string, win: bool, lose: bool, alreadyEnded: bool, foxpos: int)

  /** The first catalogue suspect whose name is exactly `name` (`WHERE susname = :name LIMIT 1`). */
  function SuspectExactly(rows: seq<Entry>, name: string): (r: Option<Entry>)
    ensures r.Some? ==> r.value in rows && r.value.name == name
    ensures r.None? <==> forall i :: 0 <= i < |rows| ==> rows[i].name != name
  {
    FirstWhere(rows, (e: Entry) => e.name == name)
  }

  /**
   * The checks of `accuse.php`, in order; on success the accused catalogue row. No
   * turn, start or game-over check is made: a caller only has to be a player of the
   * game, and the ids read through `(int)` must be positive.
   */
  function AccuseChecks(t: Tables, gameId: int, loginRaw: string, nameRaw: string): (r: Checked<Entry>)
    // 400: a field is missing.
    ensures gameId <= 0 || PhpTrim(loginRaw) == [] || PhpTrim(nameRaw) == [] ==> r == Fail(400)
    // 404: the caller is not a player of the game.
    ensures gameId > 0 && PhpTrim(loginRaw) != [] && PhpTrim(nameRaw) != [] &&
            (FindPlayer(t, gameId, PhpTrim(loginRaw)).None? || FindPlayer(t, gameId, PhpTrim(loginRaw)).value <= 0)
            ==> r == Fail(404)
    // 404: no catalogue suspect has that exact name, or its id is not positive.
    ensures gameId > 0 && PhpTrim(loginRaw) != [] && PhpTrim(nameRaw) != [] &&
            FindPlayer(t, gameId, PhpTrim(loginRaw)).Some? && FindPlayer(t, gameId, PhpTrim(loginRaw)).value > 0 &&
            (SuspectExactly(t.catalog.suspects, PhpTrim(nameRaw)).None? ||
             SuspectExactly(t.catalog.suspects, PhpTrim(nameRaw)).value.id <= 0)
            ==> r == Fail(404)
    // 400: the game has no fox row, or its fox suspect is not set.
    ensures gameId > 0 && PhpTrim(loginRaw) != [] && PhpTrim(nameRaw) != [] &&
            FindPlayer(t, gameId, PhpTrim(loginRaw)).Some? && FindPlayer(t, gameId, PhpTrim(loginRaw)).value > 0 &&
            SuspectExactly(t.catalog.suspects, PhpTrim(nameRaw)).Some? &&
            SuspectExactly(t.catalog.suspects, PhpTrim(nameRaw)).value.id > 0 &&
            (gameId !in t.foxes || t.foxes[gameId].susId <= 0)
            ==> r == Fail(400)
    // Every check passes exactly when none of the exits above is taken.
    ensures r.Pass? <==>
      && gameId > 0 && PhpTrim(loginRaw) != [] && PhpTrim(nameRaw) != []
      && FindPlayer(t, gameId, PhpTrim(loginRaw)).Some? && FindPlayer(t, gameId, PhpTrim(loginRaw)).value > 0
      && SuspectExactly(t.catalog.suspects, PhpTrim(nameRaw)).Some?
      && SuspectExactly(t.catalog.suspects, PhpTrim(nameRaw)).value.id > 0
      && gameId in t.foxes && t.foxes[gameId].susId > 0
    ensures r.Pass? ==> Some(r.value) == SuspectExactly(t.catalog.suspects, PhpTrim(nameRaw))
  {
    var login := PhpTrim(loginRaw);
    var name := PhpTrim(nameRaw);
    if gameId <= 0 || login == [] || name == [] then Fail(400)
    else
      var p := FindPlayer(t, gameId, login);
      if p.None? || p.value <= 0 then Fail(404)
      else
        var e := SuspectExactly(t.catalog.suspects, name);
        if e.None? || e.value.id <= 0 then Fail(404)
        else if gameId !in t.foxes then Fail(400)
        else if t.foxes[gameId].susId <= 0 then Fail(400)
        else Pass(e.value)
  }

  /** The pending moves of every player of game `g` deleted. */
  function DropGameMoves(t: Tables, g: GameId): (r: map<PlayerId, Move>)
    ensures forall p :: p in r <==> p in t.moves && p !in PlayersIn(t, g)
    ensures forall p :: p in r ==> r[p] == t.moves[p]
  {
    map p | p in t.moves && p !in PlayersIn(t, g) :: t.moves[p]
  }

  /**
   * The verdict on accusing `accused` in game `g` under the name `name`: a fox
   * position below 0 is a game already decided and nothing changes; otherwise the
   * fox position becomes -2 when the accused is the fox and -1 when not, and the
   * game's pending moves are dropped.
   */
  function Verdict(t: Tables, g: GameId, accused: Entry, name: string): (r: Step<AccuseBody>)
    requires g in t.foxes
    ensures r.reply.Ok? && r.reply.body.accused == name
    ensures t.foxes[g].pos < 0 ==>
      && r.tables == t
      && r.reply.body.alreadyEnded
      && r.reply.body.foxpos == t.foxes[g].pos
      && (r.reply.body.win <==> t.foxes[g].pos == WinPos)
      && (r.reply.body.lose <==> t.foxes[g].pos == LosePos)
    ensures t.foxes[g].pos >= 0 ==>
      && !r.reply.body.alreadyEnded
      && (r.reply.body.win <==> accused.id == t.foxes[g].susId)
      && r.reply.body.lose == !r.reply.body.win
      && r.reply.body.foxpos == (if r.reply.body.win then WinPos else LosePos)
      && r.tables.foxes == t.foxes[g := t.foxes[g].(pos := r.reply.body.foxpos)]
      && r.tables.moves == DropGameMoves(t, g)
      && r.tables == t.(foxes := r.tables.foxes, moves := r.tables.moves)
  {
    var fox := t.foxes[g];
    if fox.pos < 0 then
      Step(t, Ok(AccuseBody(name, fox.pos == WinPos, fox.pos == LosePos, true, fox.pos)))
    else
      var win := accused.id == fox.susId;
      var pos := if win then WinPos else LosePos;
      var t1 := t.(foxes := t.foxes[g := fox.(pos := pos)]);
      Step(t1.(moves := DropGameMoves(t1, g)), Ok(AccuseBody(name, win, !win, false, pos)))
  }

  /** `accuse.php` as one transaction over the store. */
  function AccuseEffect(t: Tables, gameId: int, loginRaw: string, nameRaw: string): (r: Step<AccuseBody>)
    ensures AccuseChecks(t, gameId, loginRaw, nameRaw).Fail? ==>
      r == Step(t, Err(AccuseChecks(t, gameId, loginRaw, nameRaw).code))
    ensures r.reply.Ok? <==> AccuseChecks(t, gameId, loginRaw, nameRaw).Pass?
  {
    match AccuseChecks(t, gameId, loginRaw, nameRaw)
    case Fail(code) => Step(t, Err(code))
    case Pass(e) => Verdict(t, gameId, e, PhpTrim(nameRaw))
  }

  /**
   * The verdict is final: a second accusation in the same game, by any player and
   * of any suspect, changes nothing and reports the first verdict.
   */
  lemma VerdictIsFinal(t: Tables, g: GameId, a: Entry, name: string, b: Entry, name2: string)
    requires g in t.foxes
    ensures var t2 := Verdict(t, g, a, name).tables;
            var first := Verdict(t, g, a, name).reply.body;
            var second := Verdict(t2, g, b, name2);
            && second.tables == t2
            && second.reply.body.alreadyEnded
            && second.reply.body.win == first.win
            && second.reply.body.lose == first.lose
            && second.reply.body.foxpos == first.foxpos
  {
    var r := Verdict(t, g, a, name);
    assert r.tables.foxes[g].pos == r.reply.body.foxpos;
  }

  /**
   * Only a negative fox position counts as decided: a game the fox has already lost
   * by reaching the den is still open to an accusation, which overwrites its position.
   */
  lemma AccusationAfterEscape(t: Tables, g: GameId, a: Entry, name: string)
    requires g in t.foxes && t.foxes[g].pos >= Den
    requires a.id == t.foxes[g].susId
    ensures Verdict(t, g, a, name).reply.body.win
    ensures Verdict(t, g, a, name).tables.foxes[g].pos == WinPos
  {
  }

  /** The verdict, updating the store in the order of `accuse.php`. */
  method VerdictCall(s: Store, g: GameId, accused: Entry, name: string) returns (reply: Reply<AccuseBody>)
    requires g in s.foxes
    modifies s
    ensures s.Snapshot() == Verdict(old(s.Snapshot()), g, accused, name).tables
    ensures reply == Verdict(old(s.Snapshot()), g, accused, name).reply
  {
    var fox := s.foxes[g];
    if fox.pos < 0 {
      return Ok(AccuseBody(name, fox.pos == WinPos, fox.pos == LosePos, true, fox.pos));
    }
    var win := accused.id == fox.susId;
    var pos := if win then WinPos else LosePos;
    s.foxes := s.foxes[g := fox.(pos := pos)];
    s.moves := DropGameMoves(s.Snapshot(), g);
    reply := Ok(AccuseBody(name, win, !win, false, pos));
  }

  /** `accuse.php`: runs the checks, then settles the verdict. */
  method AccuseCall(s: Store, gameId: int, loginRaw: string, nameRaw: string) returns (reply: Reply<AccuseBody>)
    modifies s
    ensures s.Snapshot() == AccuseEffect(old(s.Snapshot()), gameId, loginRaw, nameRaw).tables
    ensures reply == AccuseEffect(old(s.Snapshot()), gameId, loginRaw, nameRaw).reply
  {
    var checks := AccuseChecks(s.Snapshot(), gameId, loginRaw, nameRaw);
    if checks.Fail? {
      return Err(checks.code);
    }
    reply := VerdictCall(s, gameId, checks.value, PhpTrim(nameRaw));
  }
}
