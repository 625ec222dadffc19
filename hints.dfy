/**
 * The hints of a suspect: the names of the catalogue clues linked to the suspect in
 * a game (`suspect_clues_in_game JOIN clues`), in code-point order
 * (`ORDER BY c.item_name`).
 */
module SuspectHints {
  import opened Base
  import opened Sorting
  import opened Schema

  /** The clue ids linked to suspect `sus` in game `g`. */
  function LinkedClues(t: Tables, g: GameId, sus: SusId): set<ClueId>
  {
    set l | l in t.links && l.game == g && l.sus == sus :: l.clue
  }

  /** The catalogue names of `ids`, in order; an id without a catalogue row drops out of the join. */
  function NamesOf(rows: seq<Entry>, ids: seq<int>): (r: seq<string>)
    ensures |r| <= |ids|
    ensures forall x :: x in r <==> exists i :: 0 <= i < |ids| && NameOf(rows, ids[i]) == Some(x)
  {
    if ids == [] then []
    else
      var rest := NamesOf(rows, ids[1..]);
      var r := match NameOf(rows, ids[0]) case Some(n) => [n] + rest case None => rest;
      assert forall x :: x in r <==> exists i :: 0 <= i < |ids| && NameOf(rows, ids[i]) == Some(x) by {
        forall x ensures x in r <==> exists i :: 0 <= i < |ids| && NameOf(rows, ids[i]) == Some(x) {
          if x in r && !(NameOf(rows, ids[0]) == Some(x)) {
            assert x in rest;
            var i :| 0 <= i < |ids[1..]| && NameOf(rows, ids[1..][i]) == Some(x);
            assert ids[i + 1] == ids[1..][i];
          }
          if exists i :: 0 <= i < |ids| && NameOf(rows, ids[i]) == Some(x) {
            var i :| 0 <= i < |ids| && NameOf(rows, ids[i]) == Some(x);
            if i > 0 {
              assert ids[1..][i - 1] == ids[i];
              assert x in rest;
            }
          }
        }
      }
      r
  }

  /** The first id's name, when it has one, then the names of the rest. */
  lemma NamesOfUnfold(rows: seq<Entry>, ids: seq<int>)
    requires ids != []
    ensures NamesOf(rows, ids) == match NameOf(rows, ids[0])
                                  case Some(n) => [n] + NamesOf(rows, ids[1..])
                                  case None => NamesOf(rows, ids[1..])
  {
  }

  /** When every id has a catalogue row, the join gives exactly one name per id, in order. */
  lemma {:induction false} NamesOfEach(rows: seq<Entry>, ids: seq<int>)
    requires forall i :: 0 <= i < |ids| ==> NameOf(rows, ids[i]).Some?
    ensures |NamesOf(rows, ids)| == |ids|
    ensures forall i :: 0 <= i < |ids| ==> Some(NamesOf(rows, ids)[i]) == NameOf(rows, ids[i])
  {
    if ids != [] {
      assert forall i :: 0 <= i < |ids[1..]| ==> NameOf(rows, ids[1..][i]).Some? by {
        forall i | 0 <= i < |ids[1..]| ensures NameOf(rows, ids[1..][i]).Some? {
          assert ids[1..][i] == ids[i + 1];
        }
      }
      NamesOfEach(rows, ids[1..]);
      NamesOfUnfold(rows, ids);
      var r := NamesOf(rows, ids);
      forall i | 0 <= i < |ids| ensures Some(r[i]) == NameOf(rows, ids[i]) {
        if i > 0 { assert ids[i] == ids[1..][i - 1]; }
      }
    }
  }

  /** The ids of `ids` that have a catalogue row. */
  function NamedIds(rows: seq<Entry>, ids: seq<int>): set<int>
  {
    set c | c in ids && NameOf(rows, c).Some?
  }

  predicate DistinctIds(ids: seq<int>)
  {
    forall i, j :: 0 <= i < j < |ids| ==> ids[i] != ids[j]
  }

  /** Over distinct ids, the named ids are the first one when it is named, and the named rest. */
  lemma NamedIdsCons(rows: seq<Entry>, ids: seq<int>)
    requires ids != [] && DistinctIds(ids)
    ensures DistinctIds(ids[1..])
    ensures |NamedIds(rows, ids)| == (if NameOf(rows, ids[0]).Some? then 1 else 0) + |NamedIds(rows, ids[1..])|
  {
    var tail := ids[1..];
    forall i, j | 0 <= i < j < |tail| ensures tail[i] != tail[j] {
      assert tail[i] == ids[i + 1] && tail[j] == ids[j + 1];
    }
    var head: set<int> := if NameOf(rows, ids[0]).Some? then {ids[0]} else {};
    assert ids == [ids[0]] + tail;
    assert NamedIds(rows, ids) == head + NamedIds(rows, tail);
    assert ids[0] !in tail by {
      forall k | 0 <= k < |tail| ensures tail[k] != ids[0] {
        assert tail[k] == ids[k + 1];
      }
    }
    assert head !! NamedIds(rows, tail);
  }

  /** Over distinct ids, the join gives one name per id that has a catalogue row. */
  lemma {:induction false} NamesOfCount(rows: seq<Entry>, ids: seq<int>)
    requires DistinctIds(ids)
    ensures |NamesOf(rows, ids)| == |NamedIds(rows, ids)|
  {
    if ids == [] {
      assert NamedIds(rows, ids) == {};
    } else {
      NamedIdsCons(rows, ids);
      NamesOfCount(rows, ids[1..]);
      NamesOfUnfold(rows, ids);
    }
  }

  /** The names of a set of clue ids, listed in id order, are the names of the ids in the set. */
  lemma NamesOfLinked(rows: seq<Entry>, L: set<ClueId>)
    ensures forall x :: x in NamesOf(rows, Ascending(L)) <==> exists c :: c in L && NameOf(rows, c) == Some(x)
  {
    var ids := Ascending(L);
    forall x ensures x in NamesOf(rows, ids) <==> exists c :: c in L && NameOf(rows, c) == Some(x) {
      if x in NamesOf(rows, ids) {
        var i :| 0 <= i < |ids| && NameOf(rows, ids[i]) == Some(x);
        assert ids[i] in L;
      }
      if exists c :: c in L && NameOf(rows, c) == Some(x) {
        var c :| c in L && NameOf(rows, c) == Some(x);
        assert c in ids;
        var i :| 0 <= i < |ids| && ids[i] == c;
      }
    }
  }

  /** A set of clue ids listed in id order gives one name per id with a catalogue row. */
  lemma NamesOfLinkedCount(rows: seq<Entry>, L: set<ClueId>)
    ensures |NamesOf(rows, Ascending(L))| == |set c | c in L && NameOf(rows, c).Some?|
  {
    var ids := Ascending(L);
    assert DistinctIds(ids);
    NamesOfCount(rows, ids);
    assert NamedIds(rows, ids) == set c | c in L && NameOf(rows, c).Some?;
  }

  /** The hints of suspect `sus` in game `g`: exactly the names of its linked clues, sorted. */
  function Hints(t: Tables, g: GameId, sus: SusId): (r: seq<string>)
    ensures SortedStrings(r)
    ensures multiset(r) == multiset(NamesOf(t.catalog.clues, Ascending(LinkedClues(t, g, sus))))
    ensures forall x :: x in r <==> exists c :: c in LinkedClues(t, g, sus) && NameOf(t.catalog.clues, c) == Some(x)
    ensures |r| == |set c | c in LinkedClues(t, g, sus) && NameOf(t.catalog.clues, c).Some?|
  {
    var ids := Ascending(LinkedClues(t, g, sus));
    var names := NamesOf(t.catalog.clues, ids);
    var r := SortStrings(names);
    assert forall x :: x in r <==> x in names by {
      forall x ensures x in r <==> x in names {
        assert x in r <==> x in multiset(r);
        assert x in names <==> x in multiset(names);
      }
    }
    assert |r| == |names| by {
      assert |r| == |multiset(r)| == |multiset(names)| == |names|;
    }
    NamesOfLinked(t.catalog.clues, LinkedClues(t, g, sus));
    NamesOfLinkedCount(t.catalog.clues, LinkedClues(t, g, sus));
    r
  }
}
