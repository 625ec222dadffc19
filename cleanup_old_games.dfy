/**
 * The one-off cleanup: every game whose clock was started before today and whose fox
 * is still in play is ended (the fox reaches the den), then every game whose clock was
 * never started is deleted with all its rows; both in one transaction.
 *
 * `today` is the first second of the current date: a timestamp's date is before the
 * current date exactly when the timestamp is before `today`.
 */
module CleanupOldGames {
  import opened Base
  import opened Schema
  import opened Helpers
  import opened Sorting

  /** What the cleanup answers: how many games it ended and how many it deleted. */
  datatype Tally = Tally(ended: nat, deleted: nat)

  /** The first query: a fox row, a clock started before today, the fox still in play. */
  predicate StartedBeforeToday(t: Tables, g: GameId, today: int)
    requires g in t.games
  {
    && g in t.foxes
    && t.games[g].turnStartedAt.Some?
    && t.games[g].turnStartedAt.value < today
    && 0 <= t.foxes[g].pos < Den
  }

  function StaleGames(t: Tables, today: int): (r: set<GameId>)
    ensures forall g :: g in r <==> g in t.games && StartedBeforeToday(t, g, today)
  {
    set g | g in t.games && StartedBeforeToday(t, g, today)
  }

  /** `UPDATE foxes SET foxpos = 37` for every game of `E`. */
  function EndAll(t: Tables, E: set<GameId>): (r: Tables)
    ensures r.foxes.Keys == t.foxes.Keys
    ensures forall g :: g in t.foxes ==> r.foxes[g] == if g in E then t.foxes[g].(pos := Den) else t.foxes[g]
    ensures r == t.(foxes := r.foxes)
  {
    t.(foxes := map g | g in t.foxes :: if g in E then t.foxes[g].(pos := Den) else t.foxes[g])
  }

  /** The second query: games whose clock was never started. */
  function NeverStarted(t: Tables): (r: set<GameId>)
    ensures forall g :: g in r <==> g in t.games && t.games[g].turnStartedAt.None?
  {
    set g | g in t.games && t.games[g].turnStartedAt.None?
  }

  /**
   * `cleanup_old_games.php` as one transaction: it reports how many games it ended
   * and how many it deleted; exactly the games whose clock never started are gone,
   * and every other fox keeps its position unless its game was ended.
   */
  function CleanupEffect(t: Tables, today: int): (r: Step<Tally>)
    ensures r.tables == CascadeAll(EndAll(t, StaleGames(t, today)), NeverStarted(t))
    ensures r.reply == Ok(Tally(|StaleGames(t, today)|, |NeverStarted(t)|))
    ensures forall g :: g in r.tables.games <==> g in t.games && t.games[g].turnStartedAt.Some?
    ensures forall g :: g in r.tables.games ==> r.tables.games[g] == t.games[g]
    ensures forall g :: g in r.tables.foxes <==> g in t.foxes && g !in NeverStarted(t)
    ensures forall g :: g in r.tables.foxes ==>
      r.tables.foxes[g] == if g in StaleGames(t, today) then t.foxes[g].(pos := Den) else t.foxes[g]
  {
    var E := StaleGames(t, today);
    var t1 := EndAll(t, E);
    var N := NeverStarted(t1);
    assert N == NeverStarted(t);
    var r := CascadeAll(t1, N);
    assert forall g :: g in r.games <==> g in t.games && t.games[g].turnStartedAt.Some?;
    Step(r, Ok(Tally(|E|, |N|)))
  }

  /**
   * After the cleanup no game is left unstarted, no game started before today is
   * still in play, and every game started today is untouched.
   */
  lemma CleanupLeavesOnlyLiveOrOver(t: Tables, today: int)
    ensures var r := CleanupEffect(t, today).tables;
      && (forall g :: g in r.games ==> r.games[g].turnStartedAt.Some?)
      && (forall g :: g in r.games && g in r.foxes && r.games[g].turnStartedAt.value < today ==> Terminal(r.foxes[g].pos))
      && (forall g :: g in t.games && g in t.foxes && t.games[g].turnStartedAt.Some? && t.games[g].turnStartedAt.value >= today
            ==> g in r.games && r.games[g] == t.games[g] && g in r.foxes && r.foxes[g] == t.foxes[g])
  {
    var E := StaleGames(t, today);
    var t1 := EndAll(t, E);
    var N := NeverStarted(t1);
    CascadeKeepsOthers(t1, N);
    CascadeLeavesNothing(t1, N);
    var r := CascadeAll(t1, N);
    forall g | g in r.games && g in r.foxes && r.games[g].turnStartedAt.value < today
      ensures Terminal(r.foxes[g].pos)
    {
      assert g in t.games && g !in N && r.games[g] == t.games[g];
      assert r.foxes[g] == t1.foxes[g];
    }
  }

  /**
   * The games ended and the games deleted are disjoint: an ended game has a clock,
   * so the second query never picks it; each ended game stays, with its fox in the den.
   */
  lemma EndedGamesAreKept(t: Tables, today: int)
    ensures var r := CleanupEffect(t, today).tables;
      forall g :: g in StaleGames(t, today) ==> g in r.games && g in r.foxes && r.foxes[g].pos == Den
    ensures StaleGames(t, today) !! NeverStarted(t)
  {
    var E := StaleGames(t, today);
    var t1 := EndAll(t, E);
    CascadeKeepsOthers(t1, NeverStarted(t1));
  }

  /**
   * What the cascade of the cleanup does to the other tables: a player, pending move,
   * cell, link or suspect row goes exactly when it belongs to a game that never started;
   * what stays is unchanged, and the accounts, the catalogue and the id counters are kept.
   */
  lemma CleanupRows(t: Tables, today: int)
    ensures var r := CleanupEffect(t, today).tables;
      var N := NeverStarted(t);
      && (forall p :: p in t.players ==>
            (p in r.players <==> !InGames(t, p, N)) && (p in r.players ==> r.players[p] == t.players[p]))
      && (forall p :: p in r.players ==> p in t.players)
      && (forall p :: p in r.moves <==> p in t.moves && !(p in t.players && InGames(t, p, N)))
      && (forall c :: c in r.cells <==> c in t.cells && c.game !in N)
      && (forall l :: l in r.links <==> l in t.links && l.game !in N)
      && (forall k :: k in r.suspectsInGame <==> k in t.suspectsInGame && k.game !in N)
      && r.users == t.users && r.catalog == t.catalog
      && r.nextGameId == t.nextGameId && r.nextPlayerId == t.nextPlayerId
  {
    var t1 := EndAll(t, StaleGames(t, today));
    var N := NeverStarted(t);
    assert NeverStarted(t1) == N;
    CascadeKeepsOthers(t1, N);
    CascadeLeavesNothing(t1, N);
  }

  /** Ending one more game is one update of its fox row, when it has one. */
  lemma EndAllStep(t: Tables, done: set<GameId>, g: GameId)
    requires g !in done
    ensures var e := EndAll(t, done);
      EndAll(t, done + {g}) == if g in e.foxes then e.(foxes := e.foxes[g := e.foxes[g].(pos := Den)]) else e
  {
    var e := EndAll(t, done);
    var f := EndAll(t, done + {g});
    if g in e.foxes {
      assert f.foxes == e.foxes[g := e.foxes[g].(pos := Den)];
    } else {
      assert f.foxes == e.foxes;
    }
  }

  /** The first loop: one `UPDATE foxes` per stale game, counting them. */
  method EndStale(s: Store, E: set<GameId>) returns (ended: nat)
    modifies s
    ensures s.Snapshot() == EndAll(old(s.Snapshot()), E)
    ensures ended == |E|
  {
    var t := s.Snapshot();
    var left := E;
    ghost var done: set<GameId> := {};
    ended := 0;
    assert EndAll(t, {}) == t;
    while left != {}
      invariant done + left == E && done !! left
      invariant s.Snapshot() == EndAll(t, done)
      invariant ended == |done|
      decreases |left|
    {
      var g := SetMin(left);
      EndAllStep(t, done, g);
      if g in s.foxes {
        s.foxes := s.foxes[g := s.foxes[g].(pos := Den)];
      }
      done := done + {g};
      left := left - {g};
      ended := ended + 1;
    }
  }

  /** `cleanup_old_games.php`. */
  method CleanupCall(s: Store, today: int) returns (reply: Reply<Tally>)
    modifies s
    ensures s.Snapshot() == CleanupEffect(old(s.Snapshot()), today).tables
    ensures reply == CleanupEffect(old(s.Snapshot()), today).reply
  {
    var ended := EndStale(s, StaleGames(s.Snapshot(), today));
    var deleted := DeleteGames(s, NeverStarted(s.Snapshot()));
    reply := Ok(Tally(ended, deleted));
  }
}
