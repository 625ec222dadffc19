/**
 * Choosing an action: the player whose turn it is picks "clue" or "suspect" and
 * rolls three dice, re-rolling only the dice that have not come up 1, for at most
 * three rounds. Success needs all three dice at 1; a failed roll ends the turn
 * at once and lets the fox run 3 fields.
 *
 * The coin `coin(round, i)` is the value `random_int(0, 1)` gives die `i` in
 * `round` (true for 1); `steps` is the `random_int(3, 6)` step budget.
 */
module ChooseAction {
  import opened Base
  import opened Text
  import opened Schema
  import opened Helpers

  /** The words accepted for each direction, in lower case. */
  const ClueWords: set<string> := {"clue", "подсказка"}
  const SuspectWords: set<string> := {"suspect", "подозреваемый"}

  /** The direction a lower-cased, trimmed word names. */
  function DirectionOfWord(v: string): (r: Option<Direction>)
    ensures r == Some(Clue) <==> v in ClueWords
    ensures r == Some(Suspect) <==> v in SuspectWords
  {
    assert v in ClueWords ==> |v| == 4 || |v| == 9;
    assert v in SuspectWords ==> |v| == 7 || |v| == 13;
    if v in ClueWords then Some(Clue)
    else if v in SuspectWords then Some(Suspect)
    else None
  }

  /** `normalize_direction`: the direction named in English or Russian, in any case and with surrounding blanks. */
  function NormalizeDirection(raw: string): (r: Option<Direction>)
    ensures r == Some(Clue) <==> PhpTrim(LowerStr(raw)) in {"clue", "подсказка"}
    ensures r == Some(Suspect) <==> PhpTrim(LowerStr(raw)) in {"suspect", "подозреваемый"}
    ensures r.None? <==> PhpTrim(LowerStr(raw)) !in ClueWords + SuspectWords
  {
    DirectionOfWord(PhpTrim(LowerStr(raw)))
  }

  /** Upper-casing a direction does not change how it is read. */
  lemma NormalizeDirectionIgnoresCase(raw: string)
    ensures NormalizeDirection(LowerStr(raw)) == NormalizeDirection(raw)
  {
    assert LowerStr(LowerStr(raw)) == LowerStr(raw) by {
      forall i | 0 <= i < |raw| ensures LowerStr(LowerStr(raw))[i] == LowerStr(raw)[i] {
        LowerIdempotent(raw[i]);
      }
    }
  }

  /** Die `i` shows 1 after `rounds` rounds: some roll up to then came up 1 (a 1 is never re-rolled). */
  predicate Hit(coin: (int, int) -> bool, rounds: nat, i: int)
  {
    rounds > 0 && (Hit(coin, rounds - 1, i) || coin(rounds, i))
  }

  lemma {:induction false} HitStays(coin: (int, int) -> bool, r: nat, r2: nat, i: int)
    requires r <= r2 && Hit(coin, r, i)
    ensures Hit(coin, r2, i)
    decreases r2 - r
  {
    if r < r2 {
      HitStays(coin, r, r2 - 1, i);
    }
  }

  predicate AllHit(coin: (int, int) -> bool, rounds: nat)
  {
    Hit(coin, rounds, 0) && Hit(coin, rounds, 1) && Hit(coin, rounds, 2)
  }

  /** The rounds played: the loop stops after the first round that leaves all three dice at 1. */
  function Rounds(coin: (int, int) -> bool): int
  {
    if AllHit(coin, 1) then 1 else if AllHit(coin, 2) then 2 else 3
  }

  /** The three dice after the rolling, as 0/1 values. */
  function DiceOutcome(coin: (int, int) -> bool): (r: seq<int>)
    ensures |r| == 3 && forall i :: 0 <= i < 3 ==> (r[i] == 1 <==> Hit(coin, 3, i)) && (r[i] == 0 || r[i] == 1)
  {
    seq(3, i requires 0 <= i < 3 => if Hit(coin, 3, i) then 1 else 0)
  }

  predicate Success(dice: seq<int>)
  {
    dice == [1, 1, 1]
  }

  /** The rolling stops early only on success, and succeeds iff every die has hit by the last round played. */
  lemma DiceStopOnlyOnSuccess(coin: (int, int) -> bool)
    ensures 1 <= Rounds(coin) <= 3
    ensures Rounds(coin) < 3 ==> Success(DiceOutcome(coin))
    ensures Success(DiceOutcome(coin)) <==> AllHit(coin, Rounds(coin))
  {
    var d := DiceOutcome(coin);
    if AllHit(coin, Rounds(coin)) {
      forall i | 0 <= i < 3 ensures d[i] == 1 {
        HitStays(coin, Rounds(coin), 3, i);
      }
    }
  }

  /** The dice loop: an array of three dice, each re-rolled only while it shows 0. */
  method RollDice(coin: (int, int) -> bool) returns (dice: seq<int>, rounds: int)
    ensures dice == DiceOutcome(coin)
    ensures rounds == Rounds(coin)
  {
    var a := new int[3];
    a[0], a[1], a[2] := 0, 0, 0;
    var round := 1;
    rounds := 0;
    while round <= 3
      invariant 1 <= round <= 4 && rounds == round - 1
      invariant forall k :: 0 <= k < 3 ==> a[k] == (if Hit(coin, round - 1, k) then 1 else 0)
      invariant forall r :: 1 <= r < round ==> !AllHit(coin, r)
    {
      var i := 0;
      while i < 3
        invariant 0 <= i <= 3
        invariant forall k :: 0 <= k < i ==> a[k] == (if Hit(coin, round, k) then 1 else 0)
        invariant forall k :: i <= k < 3 ==> a[k] == (if Hit(coin, round - 1, k) then 1 else 0)
      {
        if a[i] == 0 {
          a[i] := if coin(round, i) then 1 else 0;
        }
        i := i + 1;
      }
      rounds := round;
      if a[0] == 1 && a[1] == 1 && a[2] == 1 {
        assert AllHit(coin, round);
        forall k | 0 <= k < 3 ensures Hit(coin, 3, k) {
          HitStays(coin, round, 3, k);
        }
        dice := a[..];
        return;
      }
      round := round + 1;
    }
    dice := a[..];
  }

  /** The answer of a committed choice. */
  datatype ChooseBody = ChooseBody(
    direction: Direction,
    success: bool,
    dice: seq<int>,
    foxMoved: bool,
    foxpos: int,
    maxSteps: Option<int>,
    nextSeat: Option<int>)

  /** The checks of `choose_action.php`, in order; on success the caller's player id and the direction. */
  function ChooseChecks(t: Tables, gameId: int, loginRaw: string, directionRaw: string): (r: Checked<(PlayerId, Direction)>)
    // 400: a field is missing.
    ensures gameId <= 0 || PhpTrim(loginRaw) == [] || PhpTrim(directionRaw) == [] ==> r == Fail(400)
    // The game-over and started guards, with their own codes.
    ensures gameId > 0 && PhpTrim(loginRaw) != [] && PhpTrim(directionRaw) != [] && GameGuards(t, gameId).Some?
            ==> r == Fail(GameGuards(t, gameId).value)
    // 400: the direction is none of the accepted words.
    ensures gameId > 0 && PhpTrim(loginRaw) != [] && PhpTrim(directionRaw) != [] && GameGuards(t, gameId).None?
            && NormalizeDirection(directionRaw).None?
            ==> r == Fail(400)
    // 404 for a caller not in the game, 400 for a caller out of turn.
    ensures gameId > 0 && PhpTrim(loginRaw) != [] && PhpTrim(directionRaw) != [] && GameGuards(t, gameId).None?
            && NormalizeDirection(directionRaw).Some? && TurnError(t, gameId, PhpTrim(loginRaw)).Some?
            ==> r == Fail(TurnError(t, gameId, PhpTrim(loginRaw)).value)
    // 400: the caller already has a pending move.
    ensures gameId > 0 && PhpTrim(loginRaw) != [] && PhpTrim(directionRaw) != [] && GameGuards(t, gameId).None?
            && NormalizeDirection(directionRaw).Some? && TurnError(t, gameId, PhpTrim(loginRaw)).None?
            && FindPlayer(t, gameId, PhpTrim(loginRaw)).value in t.moves
            ==> r == Fail(400)
    // Every check passes exactly when none of the exits above is taken.
    ensures r.Pass? <==>
      && gameId > 0 && PhpTrim(loginRaw) != [] && PhpTrim(directionRaw) != []
      && GameGuards(t, gameId).None?
      && NormalizeDirection(directionRaw).Some?
      && TurnError(t, gameId, PhpTrim(loginRaw)).None?
      && FindPlayer(t, gameId, PhpTrim(loginRaw)).value !in t.moves
    ensures r.Pass? ==>
      && NormalizeDirection(directionRaw) == Some(r.value.1)
      && FindPlayer(t, gameId, PhpTrim(loginRaw)) == Some(r.value.0)
  {
    var login := PhpTrim(loginRaw);
    if gameId <= 0 || login == [] || PhpTrim(directionRaw) == [] then Fail(400)
    else if GameGuards(t, gameId).Some? then Fail(GameGuards(t, gameId).value)
    else if NormalizeDirection(directionRaw).None? then Fail(400)
    else if TurnError(t, gameId, login).Some? then Fail(TurnError(t, gameId, login).value)
    else
      var p := FindPlayer(t, gameId, login).value;
      if p in t.moves then Fail(400)
      else Pass((p, NormalizeDirection(directionRaw).value))
  }

  /**
   * The committed part of a choice, once every check has passed: player `p`, who has
   * no pending move, rolled `dice`. The move row is written in both cases; a failed
   * roll deletes it again, lets the fox run 3 fields and ends the turn.
   */
  function ChooseCommit(t: Tables, g: GameId, p: PlayerId, dir: Direction, dice: seq<int>,
                        steps: int, now: int): (r: Step<ChooseBody>)
    requires g in t.games && p !in t.moves && 3 <= steps <= 6
    ensures r.reply.Ok? && r.reply.body.direction == dir && r.reply.body.dice == dice
    ensures r.reply.body.success <==> Success(dice)
    ensures r.reply.body.maxSteps.Some? <==> Success(dice) && dir == Clue
    ensures r.reply.body.maxSteps.Some? ==> 3 <= r.reply.body.maxSteps.value <= 6
    ensures Success(dice) ==>
      && r.tables == t.(moves := t.moves[p := Move(dir, true, r.reply.body.maxSteps)])
      && !r.reply.body.foxMoved && r.reply.body.nextSeat.None? && r.reply.body.foxpos == FoxPos(t, g)
    ensures !Success(dice) ==>
      && r.tables.moves == t.moves
      && r.tables.foxes == (if g in t.foxes then t.foxes[g := t.foxes[g].(pos := t.foxes[g].pos + 3)] else t.foxes)
      && r.tables.games == t.games[g := t.games[g].(currentSeat := NextSeat(t.games[g].currentSeat, t.games[g].seatcount),
                                                    turnStartedAt := Some(now))]
      && r.reply.body.nextSeat == Some(NextSeat(t.games[g].currentSeat, t.games[g].seatcount))
      && r.reply.body.foxpos == FoxPos(r.tables, g)
      && r.tables == t.(foxes := r.tables.foxes, games := r.tables.games)
      && r.reply.body.foxMoved
  {
    var success := Success(dice);
    var maxSteps := if success && dir == Clue then Some(steps) else None;
    if success then
      Step(t.(moves := t.moves[p := Move(dir, true, maxSteps)]),
           Ok(ChooseBody(dir, true, dice, false, FoxPos(t, g), maxSteps, None)))
    else
      var t1 := BumpFox(t, g);
      var t2 := HandOff(t1, g, now);
      Step(t2, Ok(ChooseBody(dir, false, dice, true, FoxPos(t1, g), None, Some(t2.games[g].currentSeat))))
  }

  /** `choose_action.php` as one transaction over the store: a failed check changes nothing. */
  function Choose(t: Tables, gameId: int, loginRaw: string, directionRaw: string,
                  coin: (int, int) -> bool, steps: int, now: int): (r: Step<ChooseBody>)
    requires 3 <= steps <= 6
    ensures r.reply.Err? <==> ChooseChecks(t, gameId, loginRaw, directionRaw).Fail?
    ensures r.reply.Err? ==> r.tables == t && r.reply.code == ChooseChecks(t, gameId, loginRaw, directionRaw).code
    ensures r.reply.Ok? ==> r.reply.body.dice == DiceOutcome(coin)
  {
    match ChooseChecks(t, gameId, loginRaw, directionRaw)
    case Fail(code) => Step(t, Err(code))
    case Pass((p, dir)) => ChooseCommit(t, gameId, p, dir, DiceOutcome(coin), steps, now)
  }

  /** A row inserted and deleted again inside one transaction leaves no trace. */
  lemma InsertThenDelete(m: map<PlayerId, Move>, p: PlayerId, v: Move)
    requires p !in m
    ensures m[p := v] - {p} == m
  {
  }

  /** The committed part, updating the store step by step: insert the move, then on failure fox, delete, handoff. */
  method CommitChoice(s: Store, g: GameId, p: PlayerId, dir: Direction, coin: (int, int) -> bool,
                      steps: int, now: int) returns (reply: Reply<ChooseBody>)
    requires g in s.games && p !in s.moves && 3 <= steps <= 6
    modifies s
    ensures s.Snapshot() == ChooseCommit(old(s.Snapshot()), g, p, dir, DiceOutcome(coin), steps, now).tables
    ensures reply == ChooseCommit(old(s.Snapshot()), g, p, dir, DiceOutcome(coin), steps, now).reply
  {
    ghost var t := s.Snapshot();
    var dice, rounds := RollDice(coin);
    var success := Success(dice);
    var maxSteps := if success && dir == Clue then Some(steps) else None;
    var before := s.moves;
    s.moves := s.moves[p := Move(dir, success, maxSteps)];
    var foxpos;
    if !success {
      if g in s.foxes {
        s.foxes := s.foxes[g := s.foxes[g].(pos := s.foxes[g].pos + 3)];
      }
      foxpos := if g in s.foxes then s.foxes[g].pos else 0;
      assert s.Snapshot() == BumpFox(t, g).(moves := before[p := Move(dir, success, maxSteps)]);
      assert foxpos == FoxPos(BumpFox(t, g), g);
    } else {
      foxpos := if g in s.foxes then s.foxes[g].pos else 0;
    }
    var nextSeat := None;
    if !success {
      CloseTurn(s, g, p, now);
      InsertThenDelete(before, p, Move(dir, success, maxSteps));
      assert s.Snapshot() == HandOff(BumpFox(t, g), g, now);
      nextSeat := Some(s.games[g].currentSeat);
    }
    reply := Ok(ChooseBody(dir, success, dice, !success, foxpos, maxSteps, nextSeat));
  }

  /** `choose_action.php`: runs the checks, then rolls the dice and commits. */
  method ChooseActionCall(s: Store, gameId: int, loginRaw: string, directionRaw: string,
                          coin: (int, int) -> bool, steps: int, now: int) returns (reply: Reply<ChooseBody>)
    requires 3 <= steps <= 6
    modifies s
    ensures s.Snapshot() == Choose(old(s.Snapshot()), gameId, loginRaw, directionRaw, coin, steps, now).tables
    ensures reply == Choose(old(s.Snapshot()), gameId, loginRaw, directionRaw, coin, steps, now).reply
  {
    var checks := ChooseChecks(s.Snapshot(), gameId, loginRaw, directionRaw);
    if checks.Fail? {
      return Err(checks.code);
    }
    var (p, dir) := checks.value;
    reply := CommitChoice(s, gameId, p, dir, coin, steps, now);
  }
}
