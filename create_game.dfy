/**
 * Creating a game: a validated game row, its fox (position 0, a random suspect),
 * the 18x18 grid, every catalogue suspect hidden, twelve random clues shared out
 * among the suspects in two passes, and those clues laid hidden on random cells
 * outside the centre 2x2 of the board.
 *
 * The random choices are parameters: `foxRow` is the catalogue row `ORDER BY random()`
 * picks, `selected` the twelve clue ids after the first shuffle, `reshuffles[k]` the
 * clue order after the shuffle made for the `k`-th suspect of the second pass,
 * `spots` the cells picked for the clues and `laid` the clue order they are laid in.
 */
module CreateGame {
  import opened Base
  import opened Sorting
  import opened Schema

  const BoardSize := 18
  const CluesPerGame := 12
  const CluesPerSuspect := 3

  /** The turn times a game may be created with, in seconds. */
  predicate ValidTurntime(tt: int)
  {
    20 <= tt <= 60 && tt % 10 == 0
  }

  lemma ValidTurntimes(tt: int)
    ensures ValidTurntime(tt) <==> tt in {20, 30, 40, 50, 60}
  {
  }

  predicate ValidSeatcount(n: int)
  {
    n in {2, 3, 4}
  }

  /** The centre 2x2 of the board, where the players start and no clue is laid. */
  predicate InCentre(c: Cell)
  {
    c.y in {9, 10} && c.x in {9, 10}
  }

  /** The board of game `g`: every cell with both coordinates in 1..18. */
  function Grid(g: GameId): (r: set<Cell>)
    ensures forall c :: c in r <==> c.game == g && 1 <= c.y <= BoardSize && 1 <= c.x <= BoardSize
  {
    set y, x | 1 <= y <= BoardSize && 1 <= x <= BoardSize :: Cell(g, y, x)
  }

  /** Every catalogue suspect of game `g`, hidden. */
  function HiddenSuspects(g: GameId, rows: seq<Entry>): (r: map<SusKey, Status>)
    ensures forall k :: k in r <==> k.game == g && exists i :: 0 <= i < |rows| && rows[i].id == k.sus
    ensures forall k :: k in r ==> r[k] == Hidden
  {
    map i | 0 <= i < |rows| :: SusKey(g, rows[i].id) := Hidden
  }

  predicate Distinct(s: seq<int>)
  {
    forall i, j :: 0 <= i < j < |s| ==> s[i] != s[j]
  }

  /** The clues a suspect holds so far (`$usedClues[$susId]`), none when it has no entry. */
  function Held(used: map<SusId, seq<ClueId>>, s: SusId): seq<ClueId>
  {
    if s in used then used[s] else []
  }

  /** The suspect-clue links of game `g` that `used` records. */
  function Pairs(g: GameId, used: map<SusId, seq<ClueId>>): (r: set<Link>)
    ensures forall l :: l in r <==> l.game == g && l.sus in used && l.clue in used[l.sus]
  {
    set s, c | s in used && c in used[s] :: Link(g, s, c)
  }

  lemma PairsAppend(g: GameId, used: map<SusId, seq<ClueId>>, s: SusId, c: ClueId)
    ensures Pairs(g, used[s := Held(used, s) + [c]]) == Pairs(g, used) + {Link(g, s, c)}
  {
    var a := Pairs(g, used[s := Held(used, s) + [c]]);
    var b := Pairs(g, used) + {Link(g, s, c)};
    forall l ensures l in a <==> l in b {
      if l.sus == s && l.game == g {
        assert l.clue in Held(used, s) + [c] <==> l.clue in Held(used, s) || l.clue == c;
      }
    }
  }

  /** `used` after the first `k` clues of the first pass: clue `j` goes to suspect `j mod n`. */
  function FirstPass(sus: seq<SusId>, clues: seq<ClueId>, k: nat): map<SusId, seq<ClueId>>
    requires sus != [] && k <= |clues|
  {
    if k == 0 then map[]
    else
      var u := FirstPass(sus, clues, k - 1);
      var s := sus[(k - 1) % |sus|];
      u[s := Held(u, s) + [clues[k - 1]]]
  }

  /** After the first pass every selected clue is held by the suspect its index picks. */
  lemma {:induction false} FirstPassCovers(sus: seq<SusId>, clues: seq<ClueId>, k: nat)
    requires sus != [] && k <= |clues|
    ensures forall j :: 0 <= j < k ==> clues[j] in Held(FirstPass(sus, clues, k), sus[j % |sus|])
  {
    if k > 0 {
      FirstPassCovers(sus, clues, k - 1);
      var u := FirstPass(sus, clues, k - 1);
      forall j | 0 <= j < k ensures clues[j] in Held(FirstPass(sus, clues, k), sus[j % |sus|]) {
        if j < k - 1 {
          assert clues[j] in Held(u, sus[j % |sus|]);
        }
      }
    }
  }

  lemma DistinctAppend(a: seq<int>, x: int)
    requires Distinct(a) && x !in a
    ensures Distinct(a + [x])
  {
    forall i, j | 0 <= i < j < |a| + 1 ensures (a + [x])[i] != (a + [x])[j] {
      if j == |a| { assert (a + [x])[i] == a[i]; }
    }
  }

  /** With distinct clues, the first pass hands no suspect the same clue twice, and only selected clues. */
  lemma {:induction false} FirstPassDistinct(sus: seq<SusId>, clues: seq<ClueId>, k: nat)
    requires sus != [] && k <= |clues| && Distinct(clues)
    ensures forall s :: Distinct(Held(FirstPass(sus, clues, k), s))
    ensures forall s, x :: x in Held(FirstPass(sus, clues, k), s) ==> x in clues[..k]
  {
    if k > 0 {
      FirstPassDistinct(sus, clues, k - 1);
      var u := FirstPass(sus, clues, k - 1);
      var m := FirstPass(sus, clues, k);
      var c := clues[k - 1];
      var t := sus[(k - 1) % |sus|];
      DistinctNotBefore(clues, k - 1);
      assert Held(m, t) == Held(u, t) + [c];
      assert c !in Held(u, t);
      DistinctAppend(Held(u, t), c);
      forall s ensures Distinct(Held(m, s)) {
        if s != t { assert Held(m, s) == Held(u, s); }
      }
      forall s, x | x in Held(m, s) ensures x in clues[..k] {
        assert clues[..k] == clues[..k - 1] + [c];
        if s != t { assert Held(m, s) == Held(u, s); }
      }
    }
  }

  /** The clues of `perm` not yet in `held`, counted. */
  function CountNew(held: seq<ClueId>, perm: seq<ClueId>): nat
  {
    if perm == [] then 0
    else (if perm[0] !in held then 1 else 0) + CountNew(held, perm[1..])
  }

  lemma {:induction false} CountNewAll(perm: seq<ClueId>)
    ensures CountNew([], perm) == |perm|
  {
    if perm != [] { CountNewAll(perm[1..]); }
  }

  lemma {:induction false} CountNewSkip(held: seq<ClueId>, x: ClueId, perm: seq<ClueId>)
    requires x !in perm
    ensures CountNew(held + [x], perm) == CountNew(held, perm)
  {
    if perm != [] {
      assert perm[0] in held + [x] <==> perm[0] in held;
      CountNewSkip(held, x, perm[1..]);
    }
  }

  /** Holding one more clue hides at most one clue of a permutation without repeats. */
  lemma {:induction false} CountNewGrow(held: seq<ClueId>, x: ClueId, perm: seq<ClueId>)
    requires Distinct(perm)
    ensures CountNew(held + [x], perm) + 1 >= CountNew(held, perm)
  {
    if perm != [] {
      if perm[0] == x {
        assert x !in perm[1..];
        CountNewSkip(held, x, perm[1..]);
      } else {
        assert perm[0] in held + [x] <==> perm[0] in held;
        CountNewGrow(held, x, perm[1..]);
      }
    }
  }

  /** At most `|held|` clues of a permutation without repeats are already held. */
  lemma {:induction false} CountNewBound(held: seq<ClueId>, perm: seq<ClueId>)
    requires Distinct(perm)
    ensures CountNew(held, perm) + |held| >= |perm|
    decreases |held|
  {
    if held == [] {
      CountNewAll(perm);
    } else {
      var init := held[..|held| - 1];
      CountNewBound(init, perm);
      assert held == init + [held[|held| - 1]];
      CountNewGrow(init, held[|held| - 1], perm);
    }
  }

  /**
   * The inner loop of the second pass: walks `perm`, appending each clue not yet held,
   * until `needed` clues were added (`added` counts those added so far).
   */
  function TopUp(held: seq<ClueId>, perm: seq<ClueId>, needed: int, added: int): seq<ClueId>
    decreases |perm|
  {
    if perm == [] || added >= needed then held
    else if perm[0] !in held then TopUp(held + [perm[0]], perm[1..], needed, added + 1)
    else TopUp(held, perm[1..], needed, added)
  }

  function Min(a: int, b: int): int
  {
    if a <= b then a else b
  }

  /** The top-up extends `held` without repeats by as many new clues as are needed and available. */
  lemma {:induction false} TopUpShape(held: seq<ClueId>, perm: seq<ClueId>, needed: int, added: int)
    requires Distinct(held) && Distinct(perm) && 0 <= added <= needed
    ensures var r := TopUp(held, perm, needed, added);
      && Distinct(r)
      && held <= r
      && |r| == |held| + Min(needed - added, CountNew(held, perm))
      && forall x :: x in r ==> x in held || x in perm
    decreases |perm|
  {
    if perm == [] || added >= needed {
    } else if perm[0] !in held {
      var p0 := perm[0];
      assert p0 !in perm[1..];
      CountNewSkip(held, p0, perm[1..]);
      TopUpShape(held + [p0], perm[1..], needed, added + 1);
      var r := TopUp(held + [p0], perm[1..], needed, added + 1);
      assert held <= held + [p0] <= r;
      forall x | x in r ensures x in held || x in perm {
        if x !in held + [p0] { assert x in perm[1..]; }
      }
    } else {
      TopUpShape(held, perm[1..], needed, added);
      var r := TopUp(held, perm[1..], needed, added);
      forall x | x in r ensures x in held || x in perm {
        if x !in held { assert x in perm[1..]; }
      }
    }
  }

  /** The top-up only appends: what a suspect held stays a prefix of what it holds after. */
  lemma {:induction false} TopUpExtends(held: seq<ClueId>, perm: seq<ClueId>, needed: int, added: int)
    ensures held <= TopUp(held, perm, needed, added)
    decreases |perm|
  {
    if perm == [] || added >= needed {
    } else if perm[0] !in held {
      TopUpExtends(held + [perm[0]], perm[1..], needed, added + 1);
    } else {
      TopUpExtends(held, perm[1..], needed, added);
    }
  }

  /** A suspect's clues after its turn in the second pass: fewer than three are topped up from `perm`. */
  function Topped(held: seq<ClueId>, perm: seq<ClueId>): seq<ClueId>
  {
    if |held| < CluesPerSuspect then TopUp(held, perm, CluesPerSuspect - |held|, 0) else held
  }

  /**
   * Topping up from a permutation without repeats of at least three clues leaves a
   * suspect with its old clues followed by new ones, no clue twice, and at least three.
   */
  lemma ToppedShape(held: seq<ClueId>, perm: seq<ClueId>)
    requires Distinct(held) && Distinct(perm) && |perm| >= CluesPerSuspect
    ensures var r := Topped(held, perm);
      && Distinct(r) && held <= r
      && |r| == (if |held| < CluesPerSuspect then CluesPerSuspect else |held|)
      && forall x :: x in r ==> x in held || x in perm
  {
    if |held| < CluesPerSuspect {
      TopUpShape(held, perm, CluesPerSuspect - |held|, 0);
      CountNewBound(held, perm);
    }
  }

  /** One suspect's turn in the second pass: a suspect short of three clues is topped up from `perm`. */
  function TopUpSuspect(used: map<SusId, seq<ClueId>>, s: SusId, perm: seq<ClueId>): map<SusId, seq<ClueId>>
  {
    var h := Held(used, s);
    if |h| < CluesPerSuspect then used[s := Topped(h, perm)] else used
  }

  /** `used` after the second pass has visited the first `k` suspects; `reshuffle(k)` is the clue order shuffled for the `k`-th. */
  function SecondPass(sus: seq<SusId>, used: map<SusId, seq<ClueId>>, reshuffle: nat -> seq<ClueId>, k: nat): map<SusId, seq<ClueId>>
    requires k <= |sus|
  {
    if k == 0 then used
    else TopUpSuspect(SecondPass(sus, used, reshuffle, k - 1), sus[k - 1], reshuffle(k - 1))
  }

  /** The second pass leaves every suspect it has not visited yet with the clues it had. */
  lemma {:induction false} SecondPassKeepsOthers(sus: seq<SusId>, used: map<SusId, seq<ClueId>>, reshuffle: nat -> seq<ClueId>, k: nat)
    requires k <= |sus|
    ensures forall s :: s !in sus[..k] ==> Held(SecondPass(sus, used, reshuffle, k), s) == Held(used, s)
  {
    if k > 0 {
      SecondPassKeepsOthers(sus, used, reshuffle, k - 1);
      assert sus[..k] == sus[..k - 1] + [sus[k - 1]];
    }
  }

  /** In a sequence without repeats, no element occurs before its own position. */
  lemma DistinctNotBefore(s: seq<int>, k: nat)
    requires Distinct(s) && k < |s|
    ensures s[k] !in s[..k]
  {
    forall i | 0 <= i < k ensures s[..k][i] != s[k] {
      assert s[..k][i] == s[i];
    }
  }

  /** One step of `SecondPassHeld`: visiting the `k`-th suspect changes no earlier one. */
  lemma SecondPassHeldStep(sus: seq<SusId>, used: map<SusId, seq<ClueId>>, reshuffle: nat -> seq<ClueId>, k: nat)
    requires 0 < k <= |sus| && Distinct(sus)
    requires forall i :: 0 <= i < k - 1 ==>
      Held(SecondPass(sus, used, reshuffle, k - 1), sus[i]) == Topped(Held(used, sus[i]), reshuffle(i))
    requires Held(SecondPass(sus, used, reshuffle, k - 1), sus[k - 1]) == Held(used, sus[k - 1])
    ensures forall i :: 0 <= i < k ==>
      Held(SecondPass(sus, used, reshuffle, k), sus[i]) == Topped(Held(used, sus[i]), reshuffle(i))
  {
    var u := SecondPass(sus, used, reshuffle, k - 1);
    var s := sus[k - 1];
    var r := TopUpSuspect(u, s, reshuffle(k - 1));
    assert SecondPass(sus, used, reshuffle, k) == r;
    assert Held(r, s) == Topped(Held(u, s), reshuffle(k - 1));
    forall i | 0 <= i < k ensures Held(r, sus[i]) == Topped(Held(used, sus[i]), reshuffle(i)) {
      if i < k - 1 {
        assert sus[i] != s;
        assert Held(r, sus[i]) == Held(u, sus[i]);
      }
    }
  }

  /**
   * The second pass over suspects without repeats: the `i`-th suspect ends with its
   * clues topped up from the `i`-th shuffle.
   */
  lemma {:induction false} SecondPassHeld(sus: seq<SusId>, used: map<SusId, seq<ClueId>>, reshuffle: nat -> seq<ClueId>, k: nat)
    requires k <= |sus| && Distinct(sus)
    ensures forall i :: 0 <= i < k ==>
      Held(SecondPass(sus, used, reshuffle, k), sus[i]) == Topped(Held(used, sus[i]), reshuffle(i))
  {
    if k > 0 {
      SecondPassHeld(sus, used, reshuffle, k - 1);
      assert Held(SecondPass(sus, used, reshuffle, k - 1), sus[k - 1]) == Held(used, sus[k - 1]) by {
        SecondPassKeepsOthers(sus, used, reshuffle, k - 1);
        DistinctNotBefore(sus, k - 1);
      }
      SecondPassHeldStep(sus, used, reshuffle, k);
    }
  }

  /** The two passes only ever add clues: whatever the first pass gave a suspect it keeps. */
  lemma SecondPassExtends(sus: seq<SusId>, used: map<SusId, seq<ClueId>>, reshuffle: nat -> seq<ClueId>)
    requires Distinct(sus)
    ensures forall s :: Held(used, s) <= Held(SecondPass(sus, used, reshuffle, |sus|), s)
  {
    SecondPassHeld(sus, used, reshuffle, |sus|);
    SecondPassKeepsOthers(sus, used, reshuffle, |sus|);
    assert sus[..|sus|] == sus;
    forall s | s in sus ensures Held(used, s) <= Held(SecondPass(sus, used, reshuffle, |sus|), s) {
      var i :| 0 <= i < |sus| && sus[i] == s;
      TopUpExtends(Held(used, s), reshuffle(i), CluesPerSuspect - |Held(used, s)|, 0);
    }
  }

  /** Growing one suspect's clues keeps every link it had. */
  lemma PairsGrow(g: GameId, used: map<SusId, seq<ClueId>>, s: SusId, h: seq<ClueId>)
    requires Held(used, s) <= h
    ensures Pairs(g, used) <= Pairs(g, used[s := h])
  {
  }

  /** Links only grow with the clues held. */
  lemma PairsMonotone(g: GameId, a: map<SusId, seq<ClueId>>, b: map<SusId, seq<ClueId>>)
    requires forall s :: Held(a, s) <= Held(b, s)
    ensures Pairs(g, a) <= Pairs(g, b)
  {
    forall l | l in Pairs(g, a) ensures l in Pairs(g, b) {
      assert l.clue in Held(a, l.sus);
    }
  }

  /** The clues the two passes give each suspect. */
  function Shared(sus: seq<SusId>, selected: seq<ClueId>, reshuffle: nat -> seq<ClueId>): map<SusId, seq<ClueId>>
    requires sus != []
  {
    SecondPass(sus, FirstPass(sus, selected, |selected|), reshuffle, |sus|)
  }

  /** `perm` is a shuffle of the selected clues: the same clues, each once. */
  predicate IsShuffle(perm: seq<ClueId>, selected: seq<ClueId>)
  {
    Distinct(perm) && |perm| == |selected| && forall x :: x in perm ==> x in selected
  }

  /**
   * With distinct suspects, twelve distinct clues and every reshuffle a shuffle of them,
   * each suspect ends with at least three clues and none twice, each selected clue
   * stays with the suspect the first pass gave it to, and no other clue is handed out.
   */
  lemma SharedShape(sus: seq<SusId>, selected: seq<ClueId>, reshuffle: nat -> seq<ClueId>)
    requires sus != [] && Distinct(sus) && Distinct(selected) && |selected| >= CluesPerGame
    requires forall k: nat :: IsShuffle(reshuffle(k), selected)
    ensures forall s :: s in sus ==> |Held(Shared(sus, selected, reshuffle), s)| >= CluesPerSuspect
    ensures forall s :: Distinct(Held(Shared(sus, selected, reshuffle), s))
    ensures forall s, x :: x in Held(Shared(sus, selected, reshuffle), s) ==> x in selected
    ensures forall j :: 0 <= j < |selected| ==> selected[j] in Held(Shared(sus, selected, reshuffle), sus[j % |sus|])
  {
    var first := FirstPass(sus, selected, |selected|);
    var used := Shared(sus, selected, reshuffle);
    FirstPassCovers(sus, selected, |selected|);
    FirstPassDistinct(sus, selected, |selected|);
    SecondPassHeld(sus, first, reshuffle, |sus|);
    SecondPassKeepsOthers(sus, first, reshuffle, |sus|);
    assert sus[..|sus|] == sus;
    assert selected[..|selected|] == selected;
    forall s ensures Distinct(Held(used, s)) && (s in sus ==> |Held(used, s)| >= CluesPerSuspect)
                     && (forall x :: x in Held(used, s) ==> x in selected)
                     && Held(first, s) <= Held(used, s) {
      if s in sus {
        var i :| 0 <= i < |sus| && sus[i] == s;
        SharedSuspect(Held(first, s), Held(used, s), reshuffle(i), selected);
      }
    }
    forall j | 0 <= j < |selected| ensures selected[j] in Held(used, sus[j % |sus|]) {
      var s := sus[j % |sus|];
      PrefixMember(selected[j], Held(first, s), Held(used, s));
    }
  }

  /** One suspect of the second pass: its first-pass clues topped up from a shuffle. */
  lemma SharedSuspect(first: seq<ClueId>, after: seq<ClueId>, perm: seq<ClueId>, selected: seq<ClueId>)
    requires Distinct(first) && (forall x :: x in first ==> x in selected)
    requires IsShuffle(perm, selected) && |selected| >= CluesPerGame
    requires after == Topped(first, perm)
    ensures Distinct(after) && |after| >= CluesPerSuspect && first <= after
    ensures forall x :: x in after ==> x in selected
  {
    ToppedShape(first, perm);
  }

  lemma PrefixMember(x: ClueId, a: seq<ClueId>, b: seq<ClueId>)
    requires x in a && a <= b
    ensures x in b
  {
    var i :| 0 <= i < |a| && a[i] == x;
    assert b[i] == x;
  }

  /** The clues laid after `k` steps of the laying loop: `laid[i]` on `spots[i]`, hidden. */
  function Placed(spots: seq<Cell>, laid: seq<ClueId>, k: nat): map<Cell, Placement>
    requires k <= |spots| && k <= |laid|
  {
    if k == 0 then map[] else Placed(spots, laid, k - 1)[spots[k - 1] := Placement(laid[k - 1], Hidden)]
  }

  /** How many clues the laying loop lays: `min(12, count(cells), count(clues))`. */
  function LaidCount(spots: seq<Cell>, laid: seq<ClueId>): (r: nat)
    ensures r <= CluesPerGame && r <= |spots| && r <= |laid|
    ensures r == CluesPerGame || r == |spots| || r == |laid|
  {
    Min(CluesPerGame, Min(|spots|, |laid|))
  }

  /** Clues are laid on the picked cells, hidden; on distinct cells each keeps its own clue. */
  lemma {:induction false} PlacedShape(spots: seq<Cell>, laid: seq<ClueId>, k: nat)
    requires k <= |spots| && k <= |laid|
    requires forall i, j :: 0 <= i < j < |spots| ==> spots[i] != spots[j]
    ensures forall c :: c in Placed(spots, laid, k) <==> exists i :: 0 <= i < k && spots[i] == c
    ensures forall i :: 0 <= i < k ==> Placed(spots, laid, k)[spots[i]] == Placement(laid[i], Hidden)
  {
    if k > 0 {
      PlacedShape(spots, laid, k - 1);
      forall i | 0 <= i < k - 1 ensures Placed(spots, laid, k)[spots[i]] == Placement(laid[i], Hidden) {
        assert spots[i] != spots[k - 1];
      }
    }
  }

  /** On distinct cells no laid clue replaces another: `k` steps lay `k` clues. */
  lemma {:induction false} PlacedSize(spots: seq<Cell>, laid: seq<ClueId>, k: nat)
    requires k <= |spots| && k <= |laid|
    requires forall i, j :: 0 <= i < j < |spots| ==> spots[i] != spots[j]
    ensures |Placed(spots, laid, k)| == k
  {
    if k > 0 {
      PlacedSize(spots, laid, k - 1);
      PlacedShape(spots, laid, k - 1);
      assert spots[k - 1] !in Placed(spots, laid, k - 1) by {
        assert forall i :: 0 <= i < k - 1 ==> spots[i] != spots[k - 1];
      }
    }
  }

  /** The rows game `g` gets after its own row: its fox at 0, its board and every catalogue suspect hidden. */
  function Founded(t: Tables, g: GameId, foxSus: SusId): Tables
  {
    t.(foxes := t.foxes[g := Fox(0, foxSus)],
       cells := t.cells + Grid(g),
       suspectsInGame := t.suspectsInGame + HiddenSuspects(g, t.catalog.suspects))
  }

  /** The rows the two passes and the laying loop add to a founded game. */
  function Furnish(t: Tables, g: GameId, sus: seq<SusId>, selected: seq<ClueId>, reshuffle: nat -> seq<ClueId>,
                   spots: seq<Cell>, laid: seq<ClueId>): (r: Tables)
    requires sus != []
    ensures r == t.(links := t.links + Pairs(g, Shared(sus, selected, reshuffle)),
                    placements := t.placements + Placed(spots, laid, LaidCount(spots, laid)))
  {
    t.(links := t.links + Pairs(g, Shared(sus, selected, reshuffle)),
       placements := t.placements + Placed(spots, laid, LaidCount(spots, laid)))
  }

  /** `SELECT susid FROM suspects_in_game WHERE gameid = g ORDER BY susid`. */
  function SuspectsOf(inGame: map<SusKey, Status>, g: GameId): (r: seq<SusId>)
    ensures Distinct(r)
    ensures forall s :: s in r <==> SusKey(g, s) in inGame
  {
    var ids := set k | k in inGame && k.game == g :: k.sus;
    var r := Ascending(ids);
    assert forall s :: s in r <==> SusKey(g, s) in inGame by {
      forall s ensures s in r <==> SusKey(g, s) in inGame {
        if SusKey(g, s) in inGame { assert s in ids; }
      }
    }
    r
  }

  /**
   * `create_game.php` as one call: the parameters are validated before anything is
   * written (400); a failure after the game row was inserted rolls everything back
   * except the id sequence, which stays advanced (500).
   */
  function Create(t: Tables, turntime: Option<int>, seatcount: Option<int>, foxRow: nat,
                  selected: seq<ClueId>, reshuffle: nat -> seq<ClueId>, spots: seq<Cell>, laid: seq<ClueId>): (r: Step<GameId>)
    ensures turntime.None? || !ValidTurntime(turntime.value) || seatcount.None? || !ValidSeatcount(seatcount.value)
            ==> r == Step(t, Err(400))
    ensures r.reply.Err? && r.reply.code != 400 ==> r.reply.code == 500 && r.tables == t.(nextGameId := t.nextGameId + 1)
    ensures |selected| < CluesPerGame ==> r.reply.Err?
  {
    if turntime.None? || !ValidTurntime(turntime.value) || seatcount.None? || !ValidSeatcount(seatcount.value) then
      Step(t, Err(400))
    else
      var g := t.nextGameId;
      var t1 := t.(nextGameId := g + 1, games := t.games[g := Game(turntime.value, seatcount.value, 0, None)]);
      if g <= 0 || foxRow >= |t.catalog.suspects| || t.catalog.suspects[foxRow].id <= 0 then
        Step(t.(nextGameId := g + 1), Err(500))
      else
        Stock(t, Founded(t1, g, t.catalog.suspects[foxRow].id), g, selected, reshuffle, spots, laid)
  }

  /**
   * The rest of a creation once game `g` is founded as `t1` from `t`: too few clues or
   * no suspects roll back to `t` with the id sequence advanced.
   */
  function Stock(t: Tables, t1: Tables, g: GameId, selected: seq<ClueId>, reshuffle: nat -> seq<ClueId>,
                 spots: seq<Cell>, laid: seq<ClueId>): Step<GameId>
  {
    var sus := SuspectsOf(t1.suspectsInGame, g);
    if |selected| < CluesPerGame || sus == [] then Step(t.(nextGameId := g + 1), Err(500))
    else Step(Furnish(t1, g, sus, selected, reshuffle, spots, laid), Ok(g))
  }

  /**
   * A creation that succeeds adds exactly the new game: its row (not started, seat 0),
   * its fox at 0 holding the picked suspect, its board, every catalogue suspect hidden,
   * the links the two passes share out and the clues laid; the id sequence moves on.
   */
  lemma CreatedGameRows(t: Tables, turntime: Option<int>, seatcount: Option<int>, foxRow: nat,
                        selected: seq<ClueId>, reshuffle: nat -> seq<ClueId>, spots: seq<Cell>, laid: seq<ClueId>)
    requires Create(t, turntime, seatcount, foxRow, selected, reshuffle, spots, laid).reply.Ok?
    ensures var r := Create(t, turntime, seatcount, foxRow, selected, reshuffle, spots, laid);
      var g := t.nextGameId;
      && r.reply.body == g && g > 0
      && turntime.Some? && ValidTurntime(turntime.value) && seatcount.Some? && ValidSeatcount(seatcount.value)
      && foxRow < |t.catalog.suspects| && t.catalog.suspects[foxRow].id > 0
      && |selected| >= CluesPerGame
      && r.tables.nextGameId == g + 1
      && r.tables.games == t.games[g := Game(turntime.value, seatcount.value, 0, None)]
      && r.tables.foxes == t.foxes[g := Fox(0, t.catalog.suspects[foxRow].id)]
      && r.tables.cells == t.cells + Grid(g)
      && r.tables.suspectsInGame == t.suspectsInGame + HiddenSuspects(g, t.catalog.suspects)
      && var sus := SuspectsOf(r.tables.suspectsInGame, g);
      && sus != []
      && r.tables.links == t.links + Pairs(g, Shared(sus, selected, reshuffle))
      && r.tables.placements == t.placements + Placed(spots, laid, LaidCount(spots, laid))
      && r.tables == t.(nextGameId := r.tables.nextGameId, games := r.tables.games, foxes := r.tables.foxes,
                        cells := r.tables.cells, suspectsInGame := r.tables.suspectsInGame,
                        links := r.tables.links, placements := r.tables.placements)
  {
  }

  /**
   * What the random choices guarantee: the selected clues are distinct catalogue
   * clues, twelve of them or every catalogue clue when the catalogue has fewer
   * (`ORDER BY random() LIMIT 12`); each reshuffle and the laying order are shuffles
   * of them; and the picked cells are twelve distinct cells of the new board outside its
   * centre (`LIMIT 12` over the 320 such cells of the 18×18 board).
   */
  ghost predicate RandomChoicesValid(t: Tables, selected: seq<ClueId>, reshuffle: nat -> seq<ClueId>, spots: seq<Cell>, laid: seq<ClueId>)
  {
    && Distinct(selected)
    && |selected| == Min(CluesPerGame, |t.catalog.clues|)
    && (forall x :: x in selected ==> exists i :: 0 <= i < |t.catalog.clues| && t.catalog.clues[i].id == x)
    && (forall k: nat :: IsShuffle(reshuffle(k), selected))
    && IsShuffle(laid, selected)
    && |spots| == CluesPerGame
    && (forall i, j :: 0 <= i < j < |spots| ==> spots[i] != spots[j])
    && (forall i :: 0 <= i < |spots| ==> spots[i] in Grid(t.nextGameId) && !InCentre(spots[i]))
  }

  /**
   * The links of a created game: each of its suspects holds at least three distinct
   * clues, every selected clue is linked to some suspect, and no clue outside the
   * twelve is linked.
   */
  lemma CreatedGameLinks(t: Tables, turntime: Option<int>, seatcount: Option<int>, foxRow: nat,
                         selected: seq<ClueId>, reshuffle: nat -> seq<ClueId>, spots: seq<Cell>, laid: seq<ClueId>)
    requires RandomChoicesValid(t, selected, reshuffle, spots, laid)
    requires Create(t, turntime, seatcount, foxRow, selected, reshuffle, spots, laid).reply.Ok?
    ensures var r := Create(t, turntime, seatcount, foxRow, selected, reshuffle, spots, laid).tables;
            var g := t.nextGameId;
            var sus := SuspectsOf(r.suspectsInGame, g);
            var used := Shared(sus, selected, reshuffle);
      && (forall s :: s in sus ==> |Held(used, s)| >= CluesPerSuspect && Distinct(Held(used, s)))
      && (forall j :: 0 <= j < |selected| ==> exists s :: s in sus && Link(g, s, selected[j]) in r.links)
      && (forall l :: l in r.links && l !in t.links ==> l.game == g && l.clue in selected)
      && (forall l :: l in r.links && l !in t.links ==>
            exists i :: 0 <= i < |t.catalog.clues| && t.catalog.clues[i].id == l.clue)
  {
    var r := Create(t, turntime, seatcount, foxRow, selected, reshuffle, spots, laid).tables;
    var g := t.nextGameId;
    var sus := SuspectsOf(r.suspectsInGame, g);
    assert sus != [] && |selected| >= CluesPerGame by {
      CreatedGameRows(t, turntime, seatcount, foxRow, selected, reshuffle, spots, laid);
    }
    var used := Shared(sus, selected, reshuffle);
    assert r.links == t.links + Pairs(g, used) by {
      CreatedGameRows(t, turntime, seatcount, foxRow, selected, reshuffle, spots, laid);
    }
    SharedShape(sus, selected, reshuffle);
    forall j | 0 <= j < |selected| ensures exists s :: s in sus && Link(g, s, selected[j]) in r.links {
      var s := sus[j % |sus|];
      assert Link(g, s, selected[j]) in Pairs(g, used);
    }
    forall l | l in r.links && l !in t.links ensures l.game == g && l.clue in selected {
      assert l.clue in Held(used, l.sus);
    }
  }

  /**
   * A catalogue of fewer than twelve clues makes every creation fail (500, with the id
   * sequence advanced, or 400 for bad parameters); with twelve or more, the clue count
   * never stops it.
   */
  lemma CreateNeedsTwelveClues(t: Tables, turntime: Option<int>, seatcount: Option<int>, foxRow: nat,
                               selected: seq<ClueId>, reshuffle: nat -> seq<ClueId>, spots: seq<Cell>, laid: seq<ClueId>)
    requires RandomChoicesValid(t, selected, reshuffle, spots, laid)
    ensures |t.catalog.clues| < CluesPerGame ==> Create(t, turntime, seatcount, foxRow, selected, reshuffle, spots, laid).reply.Err?
    ensures |t.catalog.clues| >= CluesPerGame ==> |selected| == CluesPerGame
  {
  }

  /**
   * The laying loop over distinct picked cells of board `g` outside the centre and a
   * shuffle of at least twelve clues lays twelve clues, or one per picked cell when
   * fewer were picked, each hidden on its own cell, each one of the selected clues.
   */
  lemma LaidShape(g: GameId, selected: seq<ClueId>, spots: seq<Cell>, laid: seq<ClueId>)
    requires |selected| >= CluesPerGame && IsShuffle(laid, selected)
    requires forall i, j :: 0 <= i < j < |spots| ==> spots[i] != spots[j]
    requires forall i :: 0 <= i < |spots| ==> spots[i] in Grid(g) && !InCentre(spots[i])
    ensures LaidCount(spots, laid) == Min(CluesPerGame, |spots|)
    ensures |Placed(spots, laid, LaidCount(spots, laid))| == LaidCount(spots, laid)
    ensures forall c :: c in Placed(spots, laid, LaidCount(spots, laid)) ==>
      && c in Grid(g) && !InCentre(c)
      && Placed(spots, laid, LaidCount(spots, laid))[c].status == Hidden
      && Placed(spots, laid, LaidCount(spots, laid))[c].clue in selected
  {
    var n := LaidCount(spots, laid);
    var m := Placed(spots, laid, n);
    PlacedShape(spots, laid, n);
    PlacedSize(spots, laid, n);
    forall c | c in m ensures c in Grid(g) && !InCentre(c) && m[c].status == Hidden && m[c].clue in selected {
      var i :| 0 <= i < n && spots[i] == c;
      assert m[c] == Placement(laid[i], Hidden);
      assert laid[i] in laid;
    }
  }

  /** The clues laid in a created game sit on its board, and nothing else's placement was replaced. */
  lemma CreatedGameLaid(t: Tables, turntime: Option<int>, seatcount: Option<int>, foxRow: nat,
                        selected: seq<ClueId>, reshuffle: nat -> seq<ClueId>, spots: seq<Cell>, laid: seq<ClueId>)
    requires RandomChoicesValid(t, selected, reshuffle, spots, laid)
    requires Create(t, turntime, seatcount, foxRow, selected, reshuffle, spots, laid).reply.Ok?
    ensures var r := Create(t, turntime, seatcount, foxRow, selected, reshuffle, spots, laid).tables;
            var m := Placed(spots, laid, LaidCount(spots, laid));
      && |m| == CluesPerGame
      && (forall c :: c in m ==> c in r.cells && r.placements[c] == m[c] && m[c].status == Hidden && m[c].clue in selected)
      && (forall c :: c in r.placements && c !in m ==> c in t.placements && r.placements[c] == t.placements[c])
  {
    CreatedGameRows(t, turntime, seatcount, foxRow, selected, reshuffle, spots, laid);
    LaidShape(t.nextGameId, selected, spots, laid);
    var r := Create(t, turntime, seatcount, foxRow, selected, reshuffle, spots, laid).tables;
    var m := Placed(spots, laid, LaidCount(spots, laid));
    assert r.placements == t.placements + m;
    assert r.cells == t.cells + Grid(t.nextGameId);
  }

  /** The first pass, inserting one link per selected clue. */
  method FirstPassCall(s: Store, g: GameId, sus: seq<SusId>, clues: seq<ClueId>) returns (used: map<SusId, seq<ClueId>>)
    requires sus != []
    modifies s
    ensures used == FirstPass(sus, clues, |clues|)
    ensures s.Snapshot() == old(s.Snapshot()).(links := old(s.links) + Pairs(g, used))
  {
    used := map[];
    assert Pairs(g, used) == {};
    var i := 0;
    while i < |clues|
      invariant 0 <= i <= |clues|
      invariant used == FirstPass(sus, clues, i)
      invariant s.Snapshot() == old(s.Snapshot()).(links := old(s.links) + Pairs(g, used))
    {
      var sid := sus[i % |sus|];
      assert FirstPass(sus, clues, i + 1) == used[sid := Held(used, sid) + [clues[i]]];
      PairsAppend(g, used, sid, clues[i]);
      s.links := s.links + {Link(g, sid, clues[i])};
      used := used[sid := Held(used, sid) + [clues[i]]];
      i := i + 1;
    }
  }

  /** One step of the top-up over a non-empty `perm` while clues are still needed. */
  lemma TopUpUnfold(held: seq<ClueId>, perm: seq<ClueId>, needed: int, added: int)
    requires perm != [] && added < needed
    ensures TopUp(held, perm, needed, added)
         == if perm[0] !in held then TopUp(held + [perm[0]], perm[1..], needed, added + 1)
            else TopUp(held, perm[1..], needed, added)
  {
  }

  /** Giving suspect `s` one more clue `c` adds exactly its link. */
  lemma PairsReplace(g: GameId, used: map<SusId, seq<ClueId>>, s: SusId, h: seq<ClueId>, c: ClueId)
    ensures Pairs(g, used[s := h + [c]]) == Pairs(g, used[s := h]) + {Link(g, s, c)}
  {
    PairsAppend(g, used[s := h], s, c);
    assert used[s := h][s := h + [c]] == used[s := h + [c]];
  }

  /** One suspect topped up: walks `perm`, linking each clue the suspect lacks, until `needed` were added. */
  method TopUpCall(s: Store, g: GameId, sid: SusId, used: map<SusId, seq<ClueId>>, perm: seq<ClueId>, needed: int)
    returns (h: seq<ClueId>)
    requires Pairs(g, used) <= s.links
    modifies s
    ensures h == TopUp(Held(used, sid), perm, needed, 0)
    ensures s.Snapshot() == old(s.Snapshot()).(links := old(s.links) + Pairs(g, used[sid := h]))
  {
    h := Held(used, sid);
    assert Pairs(g, used[sid := h]) == Pairs(g, used);
    var added := 0;
    var j := 0;
    while j < |perm| && added < needed
      invariant 0 <= j <= |perm|
      invariant TopUp(h, perm[j..], needed, added) == TopUp(Held(used, sid), perm, needed, 0)
      invariant s.Snapshot() == old(s.Snapshot()).(links := old(s.links) + Pairs(g, used[sid := h]))
    {
      var c := perm[j];
      TopUpUnfold(h, perm[j..], needed, added);
      assert perm[j..][0] == c && perm[j..][1..] == perm[j + 1..];
      if c !in h {
        PairsReplace(g, used, sid, h, c);
        s.links := s.links + {Link(g, sid, c)};
        h := h + [c];
        added := added + 1;
      }
      j := j + 1;
    }
  }

  /** Visiting suspect `k` in the second pass tops it up when it is short of three clues. */
  lemma SecondPassNext(sus: seq<SusId>, used: map<SusId, seq<ClueId>>, reshuffle: nat -> seq<ClueId>, k: nat)
    requires k < |sus|
    ensures var u := SecondPass(sus, used, reshuffle, k);
      var h := Held(u, sus[k]);
      SecondPass(sus, used, reshuffle, k + 1)
      == if |h| < CluesPerSuspect then u[sus[k] := TopUp(h, reshuffle(k), CluesPerSuspect - |h|, 0)] else u
  {
  }

  /** The second pass: every suspect short of three clues is topped up from a fresh shuffle. */
  method SecondPassCall(s: Store, g: GameId, sus: seq<SusId>, used0: map<SusId, seq<ClueId>>, reshuffle: nat -> seq<ClueId>)
    returns (used: map<SusId, seq<ClueId>>)
    requires Pairs(g, used0) <= s.links
    modifies s
    ensures used == SecondPass(sus, used0, reshuffle, |sus|)
    ensures s.Snapshot() == old(s.Snapshot()).(links := old(s.links) + Pairs(g, used))
  {
    used := used0;
    var k := 0;
    while k < |sus|
      invariant 0 <= k <= |sus|
      invariant used == SecondPass(sus, used0, reshuffle, k)
      invariant s.Snapshot() == old(s.Snapshot()).(links := old(s.links) + Pairs(g, used))
    {
      var sid := sus[k];
      var needed := CluesPerSuspect - |Held(used, sid)|;
      SecondPassNext(sus, used0, reshuffle, k);
      if needed > 0 {
        var h := TopUpCall(s, g, sid, used, reshuffle(k), needed);
        TopUpExtends(Held(used, sid), reshuffle(k), needed, 0);
        PairsGrow(g, used, sid, h);
        used := used[sid := h];
      }
      k := k + 1;
    }
  }

  /** The laying loop: `laid[i]` on `spots[i]`, hidden, for as many steps as `LaidCount`. */
  method LayClues(s: Store, spots: seq<Cell>, laid: seq<ClueId>)
    modifies s
    ensures s.Snapshot() == old(s.Snapshot()).(placements := old(s.placements) + Placed(spots, laid, LaidCount(spots, laid)))
  {
    var n := LaidCount(spots, laid);
    var i := 0;
    while i < n
      invariant 0 <= i <= n
      invariant s.Snapshot() == old(s.Snapshot()).(placements := old(s.placements) + Placed(spots, laid, i))
    {
      ghost var before := Placed(spots, laid, i);
      assert Placed(spots, laid, i + 1) == before[spots[i] := Placement(laid[i], Hidden)];
      assert (old(s.placements) + before)[spots[i] := Placement(laid[i], Hidden)]
          == old(s.placements) + before[spots[i] := Placement(laid[i], Hidden)];
      s.placements := s.placements[spots[i] := Placement(laid[i], Hidden)];
      i := i + 1;
    }
  }

  /** The fox, the board and the hidden suspects of game `g`, inserted. */
  method FoundCall(s: Store, g: GameId, foxSus: SusId)
    modifies s
    ensures s.Snapshot() == Founded(old(s.Snapshot()), g, foxSus)
  {
    s.foxes := s.foxes[g := Fox(0, foxSus)];
    s.cells := s.cells + Grid(g);
    s.suspectsInGame := s.suspectsInGame + HiddenSuspects(g, s.catalog.suspects);
  }

  /** The two passes and the laying loop, in the order of `create_game.php`. */
  method FurnishCall(s: Store, g: GameId, sus: seq<SusId>, selected: seq<ClueId>, reshuffle: nat -> seq<ClueId>,
                     spots: seq<Cell>, laid: seq<ClueId>)
    requires sus != [] && Distinct(sus)
    modifies s
    ensures s.Snapshot() == Furnish(old(s.Snapshot()), g, sus, selected, reshuffle, spots, laid)
  {
    var first := FirstPassCall(s, g, sus, selected);
    var used := SecondPassCall(s, g, sus, first, reshuffle);
    SecondPassExtends(sus, first, reshuffle);
    PairsMonotone(g, first, used);
    LayClues(s, spots, laid);
  }

  /** The rest of a creation on a founded game, rolling back to `t` on a failure. */
  method StockCall(s: Store, t: Tables, g: GameId, selected: seq<ClueId>, reshuffle: nat -> seq<ClueId>,
                   spots: seq<Cell>, laid: seq<ClueId>) returns (reply: Reply<GameId>)
    modifies s
    ensures s.Snapshot() == Stock(t, old(s.Snapshot()), g, selected, reshuffle, spots, laid).tables
    ensures reply == Stock(t, old(s.Snapshot()), g, selected, reshuffle, spots, laid).reply
  {
    var sus := SuspectsOf(s.suspectsInGame, g);
    if |selected| < CluesPerGame || sus == [] {
      Restore(s, t.(nextGameId := g + 1));
      return Err(500);
    }
    FurnishCall(s, g, sus, selected, reshuffle, spots, laid);
    reply := Ok(g);
  }

  /** A creation whose parameters and fox pass goes on with `Stock` on the founded game. */
  lemma CreateFounds(t: Tables, turntime: int, seatcount: int, foxRow: nat,
                     selected: seq<ClueId>, reshuffle: nat -> seq<ClueId>, spots: seq<Cell>, laid: seq<ClueId>)
    requires ValidTurntime(turntime) && ValidSeatcount(seatcount)
    requires t.nextGameId > 0 && foxRow < |t.catalog.suspects| && t.catalog.suspects[foxRow].id > 0
    ensures var g := t.nextGameId;
      var t1 := t.(nextGameId := g + 1, games := t.games[g := Game(turntime, seatcount, 0, None)]);
      Create(t, Some(turntime), Some(seatcount), foxRow, selected, reshuffle, spots, laid)
      == Stock(t, Founded(t1, g, t.catalog.suspects[foxRow].id), g, selected, reshuffle, spots, laid)
  {
  }

  /** `create_game.php`, writing the rows in its order and rolling back on a failure. */
  method CreateGameCall(s: Store, turntime: Option<int>, seatcount: Option<int>, foxRow: nat,
                        selected: seq<ClueId>, reshuffle: nat -> seq<ClueId>, spots: seq<Cell>, laid: seq<ClueId>)
    returns (reply: Reply<GameId>)
    modifies s
    ensures s.Snapshot() == Create(old(s.Snapshot()), turntime, seatcount, foxRow, selected, reshuffle, spots, laid).tables
    ensures reply == Create(old(s.Snapshot()), turntime, seatcount, foxRow, selected, reshuffle, spots, laid).reply
  {
    if turntime.None? || !ValidTurntime(turntime.value) || seatcount.None? || !ValidSeatcount(seatcount.value) {
      return Err(400);
    }
    var t := s.Snapshot();
    var g := s.nextGameId;
    s.nextGameId := g + 1;
    s.games := s.games[g := Game(turntime.value, seatcount.value, 0, None)];
    if g <= 0 || foxRow >= |s.catalog.suspects| || s.catalog.suspects[foxRow].id <= 0 {
      Restore(s, t.(nextGameId := g + 1));
      return Err(500);
    }
    CreateFounds(t, turntime.value, seatcount.value, foxRow, selected, reshuffle, spots, laid);
    ghost var t1 := s.Snapshot();
    assert t1 == t.(nextGameId := g + 1, games := t.games[g := Game(turntime.value, seatcount.value, 0, None)]);
    var foxSus := s.catalog.suspects[foxRow].id;
    FoundCall(s, g, foxSus);
    ghost var t2 := s.Snapshot();
    assert t2 == Founded(t1, g, t.catalog.suspects[foxRow].id);
    reply := StockCall(s, t, g, selected, reshuffle, spots, laid);
  }
}
