/**
 * Opening a suspect after a successful suspect interrogation: the player whose turn
 * it is names a suspect (in any letter case); a hidden suspect of the game becomes
 * opened, the turn passes on, and the answer carries the suspect's hints.
 */
module OpenSuspect {
  import opened Base
  import opened Text
  import opened Sorting
  import opened Schema
  import opened Helpers
  import opened SuspectHints

  /** The answer of a committed opening; `hints` is absent when the suspect has none. */
  datatype OpenBody = OpenBody(openedSuspect: string, status: Status, nextSeat: int, hints: Option<seq<string>>)

  /** The first catalogue suspect whose lower-cased name is the lower-cased `name`. */
  function SuspectNamed(rows: seq<Entry>, name: string): (r: Option<Entry>)
    ensures r.Some? ==> r.value in rows && LowerStr(r.value.name) == LowerStr(name)
    ensures r.None? <==> forall i :: 0 <= i < |rows| ==> LowerStr(rows[i].name) != LowerStr(name)
  {
    FirstWhere(rows, (e: Entry) => LowerStr(e.name) == LowerStr(name))
  }

  /** Two names equal up to letter case pick the same catalogue suspect. */
  lemma SuspectNamedIgnoresCase(rows: seq<Entry>, a: string, b: string)
    requires LowerStr(a) == LowerStr(b)
    ensures SuspectNamed(rows, a) == SuspectNamed(rows, b)
  {
    var ka := (e: Entry) => LowerStr(e.name) == LowerStr(a);
    var kb := (e: Entry) => LowerStr(e.name) == LowerStr(b);
    assert ka == kb;
  }

  /**
   * The checks of `open_suspect.php` before the dice result is read, in order; on
   * success the caller's player id.
   */
  function OpenChecks(t: Tables, gameId: int, loginRaw: string, nameRaw: string): (r: Checked<PlayerId>)
    // 400: a field is missing.
    ensures gameId <= 0 || PhpTrim(loginRaw) == [] || PhpTrim(nameRaw) == [] ==> r == Fail(400)
    // The game-over and started guards, with their own codes.
    ensures gameId > 0 && PhpTrim(loginRaw) != [] && PhpTrim(nameRaw) != [] && GameGuards(t, gameId).Some?
            ==> r == Fail(GameGuards(t, gameId).value)
    // 404 for a caller not in the game, 400 for a caller out of turn.
    ensures gameId > 0 && PhpTrim(loginRaw) != [] && PhpTrim(nameRaw) != [] && GameGuards(t, gameId).None?
            && TurnError(t, gameId, PhpTrim(loginRaw)).Some?
            ==> r == Fail(TurnError(t, gameId, PhpTrim(loginRaw)).value)
    // 400: no pending move, or a pending move that is not an interrogation.
    ensures gameId > 0 && PhpTrim(loginRaw) != [] && PhpTrim(nameRaw) != [] && GameGuards(t, gameId).None?
            && TurnError(t, gameId, PhpTrim(loginRaw)).None?
            && (FindPlayer(t, gameId, PhpTrim(loginRaw)).value !in t.moves
                || t.moves[FindPlayer(t, gameId, PhpTrim(loginRaw)).value].direction != Suspect)
            ==> r == Fail(400)
    // Every check passes exactly when none of the exits above is taken.
    ensures r.Pass? <==>
      && gameId > 0 && PhpTrim(loginRaw) != [] && PhpTrim(nameRaw) != []
      && GameGuards(t, gameId).None?
      && TurnError(t, gameId, PhpTrim(loginRaw)).None?
      && FindPlayer(t, gameId, PhpTrim(loginRaw)).value in t.moves
      && t.moves[FindPlayer(t, gameId, PhpTrim(loginRaw)).value].direction == Suspect
    ensures r.Pass? ==> FindPlayer(t, gameId, PhpTrim(loginRaw)) == Some(r.value)
  {
    var login := PhpTrim(loginRaw);
    if gameId <= 0 || login == [] || PhpTrim(nameRaw) == [] then Fail(400)
    else if GameGuards(t, gameId).Some? then Fail(GameGuards(t, gameId).value)
    else if TurnError(t, gameId, login).Some? then Fail(TurnError(t, gameId, login).value)
    else
      var p := FindPlayer(t, gameId, login).value;
      if p !in t.moves then Fail(400)
      else if t.moves[p].direction != Suspect then Fail(400)
      else Pass(p)
  }

  /** The hints as answered: absent when there are none. */
  function HintsReply(h: seq<string>): (r: Option<seq<string>>)
    ensures r.None? <==> h == []
    ensures r.Some? ==> r.value == h
  {
    if h == [] then None else Some(h)
  }

  /**
   * Resolution of the pending suspect action of player `p`, who holds the turn: a
   * failed interrogation ends the turn and is reported as an error after committing;
   * an unknown suspect (404), one not in the game (400) or one already opened (409)
   * changes nothing; otherwise the suspect is opened and the turn passes on.
   */
  function ResolveSuspect(t: Tables, g: GameId, p: PlayerId, name: string, now: int): (r: Step<OpenBody>)
    requires g in t.games && p in t.moves
    // A failed interrogation: the move is closed and the turn passes on, then 400 is answered.
    ensures !t.moves[p].result ==>
      && r.reply == CommittedErr(400)
      && r.tables == t.(moves := t.moves - {p},
                        games := t.games[g := t.games[g].(currentSeat := NextSeat(t.games[g].currentSeat, t.games[g].seatcount),
                                                          turnStartedAt := Some(now))])
    // 404 and no change: no catalogue suspect has that name.
    ensures t.moves[p].result && SuspectNamed(t.catalog.suspects, name).None? ==> r == Step(t, Err(404))
    // 400 and no change: the suspect has no row in this game.
    ensures t.moves[p].result && SuspectNamed(t.catalog.suspects, name).Some?
            && SusKey(g, SuspectNamed(t.catalog.suspects, name).value.id) !in t.suspectsInGame
            ==> r == Step(t, Err(400))
    // 409 and no change: the suspect is already opened.
    ensures t.moves[p].result && SuspectNamed(t.catalog.suspects, name).Some?
            && SusKey(g, SuspectNamed(t.catalog.suspects, name).value.id) in t.suspectsInGame
            && t.suspectsInGame[SusKey(g, SuspectNamed(t.catalog.suspects, name).value.id)] == Opened
            ==> r == Step(t, Err(409))
    // A successful interrogation of a hidden suspect of the game opens it.
    ensures r.reply.Ok? <==>
      && t.moves[p].result
      && SuspectNamed(t.catalog.suspects, name).Some?
      && SusKey(g, SuspectNamed(t.catalog.suspects, name).value.id) in t.suspectsInGame
      && t.suspectsInGame[SusKey(g, SuspectNamed(t.catalog.suspects, name).value.id)] == Hidden
    ensures r.reply.Ok? ==>
      && var e := SuspectNamed(t.catalog.suspects, name).value;
      && r.reply.body.openedSuspect == e.name
      && r.reply.body.status == Opened
      && r.reply.body.nextSeat == NextSeat(t.games[g].currentSeat, t.games[g].seatcount)
      && r.reply.body.hints == HintsReply(Hints(t, g, e.id))
      && r.tables == t.(suspectsInGame := t.suspectsInGame[SusKey(g, e.id) := Opened],
                        moves := t.moves - {p},
                        games := t.games[g := t.games[g].(currentSeat := NextSeat(t.games[g].currentSeat, t.games[g].seatcount),
                                                          turnStartedAt := Some(now))])
  {
    if !t.moves[p].result then
      Step(HandOff(DeleteMove(t, p), g, now), CommittedErr(400))
    else
      match SuspectNamed(t.catalog.suspects, name)
      case None => Step(t, Err(404))
      case Some(e) =>
        var key := SusKey(g, e.id);
        if key !in t.suspectsInGame then Step(t, Err(400))
        else if t.suspectsInGame[key] == Opened then Step(t, Err(409))
        else
          assert t.suspectsInGame[key].Hidden?;
          var t1 := t.(suspectsInGame := t.suspectsInGame[key := Opened]);
          var t2 := HandOff(DeleteMove(t1, p), g, now);
          Step(t2, Ok(OpenBody(e.name, Opened, t2.games[g].currentSeat, HintsReply(Hints(t, g, e.id)))))
  }

  /** `open_suspect.php` as one transaction over the store. */
  function OpenEffect(t: Tables, gameId: int, loginRaw: string, nameRaw: string, now: int): (r: Step<OpenBody>)
    ensures OpenChecks(t, gameId, loginRaw, nameRaw).Fail? ==>
      r == Step(t, Err(OpenChecks(t, gameId, loginRaw, nameRaw).code))
    ensures r.reply.Err? ==> r.tables == t
  {
    match OpenChecks(t, gameId, loginRaw, nameRaw)
    case Fail(code) => Step(t, Err(code))
    case Pass(p) => ResolveSuspect(t, gameId, p, PhpTrim(nameRaw), now)
  }

  /**
   * Once a suspect is opened, every later attempt to open it in that game, under any
   * letter case, that gets past the dice is refused with 409.
   */
  lemma OpenedStaysOpened(t: Tables, g: GameId, p: PlayerId, name: string, now: int,
                          q: PlayerId, name2: string, later: int)
    requires g in t.games && p in t.moves
    requires ResolveSuspect(t, g, p, name, now).reply.Ok?
    requires LowerStr(name2) == LowerStr(name)
    requires var t2 := ResolveSuspect(t, g, p, name, now).tables; q in t2.moves && t2.moves[q].result
    ensures var t2 := ResolveSuspect(t, g, p, name, now).tables;
            ResolveSuspect(t2, g, q, name2, later) == Step(t2, Err(409))
  {
    var t2 := ResolveSuspect(t, g, p, name, now).tables;
    SuspectNamedIgnoresCase(t.catalog.suspects, name, name2);
    assert t2.catalog == t.catalog;
  }

  /** Opens the suspect with key `key` and passes the turn on. */
  method OpenAndClose(s: Store, g: GameId, p: PlayerId, key: SusKey, now: int)
    requires g in s.games
    modifies s
    ensures s.Snapshot() == HandOff(DeleteMove(old(s.Snapshot()).(suspectsInGame := old(s.suspectsInGame)[key := Opened]), p), g, now)
  {
    s.suspectsInGame := s.suspectsInGame[key := Opened];
    CloseTurn(s, g, p, now);
  }

  /** The resolution, updating the store in the order of `open_suspect.php`. */
  method ResolveSuspectCall(s: Store, g: GameId, p: PlayerId, name: string, now: int) returns (reply: Reply<OpenBody>)
    requires g in s.games && p in s.moves
    modifies s
    ensures s.Snapshot() == ResolveSuspect(old(s.Snapshot()), g, p, name, now).tables
    ensures reply == ResolveSuspect(old(s.Snapshot()), g, p, name, now).reply
  {
    if !s.moves[p].result {
      CloseTurn(s, g, p, now);
      return CommittedErr(400);
    }
    var found := SuspectNamed(s.catalog.suspects, name);
    if found.None? {
      return Err(404);
    }
    var e := found.value;
    var key := SusKey(g, e.id);
    if key !in s.suspectsInGame {
      return Err(400);
    }
    if s.suspectsInGame[key] == Opened {
      return Err(409);
    }
    var hints := Hints(s.Snapshot(), g, e.id);
    OpenAndClose(s, g, p, key, now);
    reply := Ok(OpenBody(e.name, Opened, s.games[g].currentSeat, HintsReply(hints)));
  }

  /** `open_suspect.php`: runs the checks, then resolves the pending suspect action. */
  method OpenSuspectCall(s: Store, gameId: int, loginRaw: string, nameRaw: string, now: int) returns (reply: Reply<OpenBody>)
    modifies s
    ensures s.Snapshot() == OpenEffect(old(s.Snapshot()), gameId, loginRaw, nameRaw, now).tables
    ensures reply == OpenEffect(old(s.Snapshot()), gameId, loginRaw, nameRaw, now).reply
  {
    var checks := OpenChecks(s.Snapshot(), gameId, loginRaw, nameRaw);
    if checks.Fail? {
      return Err(checks.code);
    }
    reply := ResolveSuspectCall(s, gameId, checks.value, PhpTrim(nameRaw), now);
  }
}
