/**
 * The penalty draw of client/src/components/PenaltySystem.tsx: players
 * sorted by ascending score, the "losers" (everyone but the last, i.e.
 * one top scorer), and the draw of a penalty and a loser.
 */
module PenaltySystem {
  import opened Wrappers
  import opened Schema

  ghost predicate SortedByScore(ps: seq<Player>) {
    forall i, j :: 0 <= i < j < |ps| ==> ps[i].score <= ps[j].score
  }

  /** Appending a player that scores at least as much as everyone keeps the order. */
  lemma AppendKeepsSorted(rest: seq<Player>, last: Player)
    requires SortedByScore(rest)
    requires forall p :: p in multiset(rest) ==> p.score <= last.score
    ensures SortedByScore(rest + [last])
  {
    var r := rest + [last];
    forall i, j | 0 <= i < j < |r| ensures r[i].score <= r[j].score {
      if j == |rest| {
        assert r[i] in multiset(rest);
      }
    }
  }

  /** In a score-sorted list nobody before the last player scores more than it. */
  lemma FrontBelowLast(ps: seq<Player>)
    requires SortedByScore(ps) && ps != []
    ensures forall p :: p in multiset(ps[..|ps| - 1]) ==> p.score <= ps[|ps| - 1].score
  {
    var front := ps[..|ps| - 1];
    forall p: Player | p in multiset(front) ensures p.score <= ps[|ps| - 1].score {
      var k :| 0 <= k < |front| && front[k] == p;
      assert ps[k] == p;
    }
  }

  /**
   * `x` placed into the score-sorted `ps` after every player whose score
   * is at most its own (so equal scores keep their relative order).
   */
  function Insert(ps: seq<Player>, x: Player): (r: seq<Player>)
    requires SortedByScore(ps)
    ensures SortedByScore(r)
    ensures multiset(r) == multiset(ps) + multiset{x}
    ensures |r| == |ps| + 1
  {
    if ps == [] || ps[|ps| - 1].score <= x.score then ps + [x]
    else
      var front := ps[..|ps| - 1];
      var last := ps[|ps| - 1];
      assert ps == front + [last];
      var rest := Insert(front, x);
      FrontBelowLast(ps);
      AppendKeepsSorted(rest, last);
      rest + [last]
  }

  /**
   * `[...players].sort((a, b) => a.score - b.score)`. JavaScript's sort is
   * stable, and so is this insertion sort (`SortByScoreIsStable`).
   */
  function SortByScore(ps: seq<Player>): (r: seq<Player>)
    ensures SortedByScore(r)
    ensures multiset(r) == multiset(ps)
    ensures |r| == |ps|
  {
    if ps == [] then []
    else
      assert ps == ps[..|ps| - 1] + [ps[|ps| - 1]];
      Insert(SortByScore(ps[..|ps| - 1]), ps[|ps| - 1])
  }

  /** The players with score `v`, in the order they appear in `ps`. */
  function ScoreGroup(ps: seq<Player>, v: int): (r: seq<Player>)
    ensures forall p :: p in r ==> p in ps && p.score == v
  {
    if ps == [] then []
    else ScoreGroup(ps[..|ps| - 1], v) + (if ps[|ps| - 1].score == v then [ps[|ps| - 1]] else [])
  }

  lemma ScoreGroupAppend(ps: seq<Player>, x: Player, v: int)
    ensures ScoreGroup(ps + [x], v) == ScoreGroup(ps, v) + (if x.score == v then [x] else [])
  {
    assert (ps + [x])[..|ps|] == ps;
  }

  /** Inserting `x` puts it after every player it ties with, and moves nobody else within a score. */
  lemma {:induction false} InsertIsStable(ps: seq<Player>, x: Player, v: int)
    requires SortedByScore(ps)
    ensures ScoreGroup(Insert(ps, x), v) == ScoreGroup(ps, v) + (if x.score == v then [x] else [])
  {
    if ps == [] || ps[|ps| - 1].score <= x.score {
      ScoreGroupAppend(ps, x, v);
    } else {
      var front := ps[..|ps| - 1];
      var last := ps[|ps| - 1];
      var tx: seq<Player> := if x.score == v then [x] else [];
      var tl: seq<Player> := if last.score == v then [last] else [];
      calc {
        ScoreGroup(Insert(ps, x), v);
      == { InsertBeforeLast(ps, x); }
        ScoreGroup(Insert(front, x) + [last], v);
      == { ScoreGroupAppend(Insert(front, x), last, v); }
        ScoreGroup(Insert(front, x), v) + tl;
      == { InsertBeforeLast(ps, x); InsertIsStable(front, x, v); }
        ScoreGroup(front, v) + tx + tl;
      == { TiesCommute(ScoreGroup(front, v), x, last, v); }
        ScoreGroup(front, v) + tl + tx;
      == { ScoreGroupAppend(front, last, v); assert ps == front + [last]; }
        ScoreGroup(ps, v) + tx;
      }
    }
  }

  /** When `x` scores below the last player, it is inserted among the others. */
  lemma InsertBeforeLast(ps: seq<Player>, x: Player)
    requires SortedByScore(ps) && ps != [] && x.score < ps[|ps| - 1].score
    ensures SortedByScore(ps[..|ps| - 1])
    ensures Insert(ps, x) == Insert(ps[..|ps| - 1], x) + [ps[|ps| - 1]]
  {
  }

  /** Two players with different scores never fall into the same group. */
  lemma TiesCommute(g: seq<Player>, x: Player, last: Player, v: int)
    requires x.score < last.score
    ensures g + (if x.score == v then [x] else []) + (if last.score == v then [last] else [])
         == g + (if last.score == v then [last] else []) + (if x.score == v then [x] else [])
  {
    if x.score == v {
      assert g + [x] + [] == g + [] + [x];
    } else if last.score == v {
      assert g + [] + [last] == g + [last] + [];
    } else {
      assert g + [] + [] == g + [] + [];
    }
  }

  /** Stability: players with equal scores keep their input order. */
  lemma {:induction false} SortByScoreIsStable(ps: seq<Player>, v: int)
    ensures ScoreGroup(SortByScore(ps), v) == ScoreGroup(ps, v)
  {
    if ps != [] {
      var front := ps[..|ps| - 1];
      SortByScoreIsStable(front, v);
      InsertIsStable(SortByScore(front), ps[|ps| - 1], v);
    }
  }

  /** `sortedPlayers`: empty while the player list has not loaded. */
  function SortedPlayers(players: Option<seq<Player>>): (r: seq<Player>)
    ensures SortedByScore(r)
    ensures players.None? ==> r == []
    ensures players.Some? ==> multiset(r) == multiset(players.value)
  {
    match players
    case None => []
    case Some(ps) => SortByScore(ps)
  }

  /** `losers`: all but the last sorted player when there are two or more, otherwise all of them. */
  function Losers(sorted: seq<Player>): (r: seq<Player>)
    ensures |sorted| > 1 ==> |r| == |sorted| - 1 && r == sorted[..|sorted| - 1]
    ensures |sorted| <= 1 ==> r == sorted
  {
    if |sorted| > 1 then sorted[..|sorted| - 1] else sorted
  }

  /**
   * With two or more players exactly one player is left out of the
   * losers, and it is a top scorer: every player's score, the losers'
   * included, is at most its score, even when scores tie.
   */
  lemma LosersExcludeOneTopScorer(players: seq<Player>)
    requires |players| > 1
    ensures var sorted := SortedPlayers(Some(players));
      var top := sorted[|sorted| - 1];
      && multiset(Losers(sorted)) + multiset{top} == multiset(players)
      && (forall p :: p in players ==> p.score <= top.score)
      && (forall p :: p in Losers(sorted) ==> p.score <= top.score)
  {
    var sorted := SortedPlayers(Some(players));
    assert sorted == sorted[..|sorted| - 1] + [sorted[|sorted| - 1]];
    forall p | p in players ensures p.score <= sorted[|sorted| - 1].score {
      assert p in multiset(sorted);
    }
  }

  /**
   * Among tied top scorers the one left out of the losers is the one listed
   * last in the player list, because the sort keeps ties in input order.
   */
  lemma ExcludedIsLastListedTopScorer(players: seq<Player>)
    requires |players| > 1
    ensures var sorted := SortedPlayers(Some(players));
      var top := sorted[|sorted| - 1];
      var ties := ScoreGroup(players, top.score);
      ties != [] && ties[|ties| - 1] == top
  {
    var sorted := SortedPlayers(Some(players));
    var top := sorted[|sorted| - 1];
    SortByScoreIsStable(players, top.score);
    assert ScoreGroup(sorted, top.score) == ScoreGroup(sorted[..|sorted| - 1], top.score) + [top];
  }

  /** A lone player is their own loser; with no players there are no losers. */
  lemma LosersOfAtMostOne(players: seq<Player>)
    requires |players| <= 1
    ensures Losers(SortedPlayers(Some(players))) == players
  {
    var sorted := SortedPlayers(Some(players));
    if |players| == 1 {
      assert sorted[0] in multiset(players);
    }
  }

  /** The outcome of `handleSelectRandomPenalty`. */
  datatype Draw =
    | Refused                                   // error notice, nothing selected
    | Selected(penalty: string, loser: string)  // shown as the chosen penalty and player

  /** The draw button's `disabled` expression, `!penalties?.length || !losers?.length`. */
  predicate DrawDisabled(penalties: Option<seq<Penalty>>, losers: seq<Player>) {
    !(penalties.Some? && |penalties.value| != 0) || |losers| == 0
  }

  /**
   * The draw, with the two `Math.floor(Math.random() * length)` picks as
   * parameters in range. It refuses when there is no penalty or no loser.
   */
  function SelectRandomPenalty(penalties: Option<seq<Penalty>>, losers: seq<Player>,
                               penaltyPick: nat, loserPick: nat): (r: Draw)
    requires penalties.Some? && |penalties.value| > 0 ==> penaltyPick < |penalties.value|
    requires |losers| > 0 ==> loserPick < |losers|
    ensures r.Selected? ==> penalties.Some? && exists p :: p in penalties.value && p.description == r.penalty
    ensures r.Selected? ==> exists l :: l in losers && l.name == r.loser
  {
    if penalties.None? || |penalties.value| == 0 || |losers| == 0 then Refused
    else Selected(penalties.value[penaltyPick].description, losers[loserPick].name)
  }

  /** The handler refuses exactly when the button is disabled. */
  lemma DrawRefusedIffDisabled(penalties: Option<seq<Penalty>>, losers: seq<Player>,
                               penaltyPick: nat, loserPick: nat)
    requires penalties.Some? && |penalties.value| > 0 ==> penaltyPick < |penalties.value|
    requires |losers| > 0 ==> loserPick < |losers|
    ensures SelectRandomPenalty(penalties, losers, penaltyPick, loserPick).Refused?
            <==> DrawDisabled(penalties, losers)
  {
  }

  /** With at least two players, the drawn player is never the one left out as top scorer. */
  lemma DrawnLoserIsALoser(players: seq<Player>, penalties: seq<Penalty>, penaltyPick: nat, loserPick: nat)
    requires |players| > 1 && |penalties| > 0
    requires penaltyPick < |penalties| && loserPick < |players| - 1
    ensures var losers := Losers(SortedPlayers(Some(players)));
      var d := SelectRandomPenalty(Some(penalties), losers, penaltyPick, loserPick);
      && d.Selected?
      && d.loser == losers[loserPick].name
      && d.penalty == penalties[penaltyPick].description
  {
  }
}
