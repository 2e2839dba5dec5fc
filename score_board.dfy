/**
 * The score rules of client/src/components/ScoreBoard.tsx: which score
 * each button sends to the server, when each button is enabled, and the
 * confirmation before destructive actions.
 */
module ScoreBoard {
  import opened Wrappers
  import opened JsValues
  import opened Schema
  import Routes

  /** The request a button issues. */
  datatype Request =
    | PatchScore(id: int, score: int)   // PATCH /api/players/:id/score with body { score }
    | ResetScores                       // POST /api/players/reset-scores
    | DeletePlayer(id: int)             // DELETE /api/players/:id

  /** The "+" button sends one more than the displayed score. */
  function Increase(p: Player): (r: Request)
    ensures r.PatchScore? && r.id == p.id
    ensures r.score == p.score + 1
    ensures p.score >= 0 ==> r.score >= 1
  {
    PatchScore(p.id, p.score + 1)
  }

  /** The "−" button sends `Math.max(0, score - 1)`: one less, but never below 0. */
  function Decrease(p: Player): (r: Request)
    ensures r.PatchScore? && r.id == p.id
    ensures r.score >= 0
    ensures p.score >= 1 ==> r.score == p.score - 1
    ensures p.score <= 0 ==> r.score == 0
  {
    PatchScore(p.id, if p.score - 1 < 0 then 0 else p.score - 1)
  }

  /** `disabled={increaseScoreMutation.isPending}` negated. */
  predicate IncreaseEnabled(pending: bool) {
    !pending
  }

  /** `disabled={decreaseScoreMutation.isPending || player.score <= 0}` negated. */
  predicate DecreaseEnabled(pending: bool, p: Player) {
    !(pending || p.score <= 0)
  }

  /** The reset button: disabled while a reset is pending or when there are no players. */
  predicate ResetEnabled(pending: bool, players: Option<seq<Player>>) {
    !(pending || players.None? || |players.value| == 0)
  }

  /** The penalty-page button: disabled when there are no players. */
  predicate PenaltyNavEnabled(players: Option<seq<Player>>) {
    !(players.None? || |players.value| == 0)
  }

  /** The reset button asks for everything the penalty-page button does, and no pending reset. */
  lemma ResetGuardRefinesNavGuard(pending: bool, players: Option<seq<Player>>)
    ensures ResetEnabled(pending, players) <==> !pending && PenaltyNavEnabled(players)
  {
  }

  /** An enabled "−" button always sends exactly one less than the score, which is not negative. */
  lemma EnabledDecreaseIsExact(pending: bool, p: Player)
    requires DecreaseEnabled(pending, p)
    ensures Decrease(p).score == p.score - 1 >= 0
  {
  }

  /** "+" then "−" from a non-negative score comes back to it. */
  lemma IncreaseThenDecrease(p: Player)
    requires p.score >= 0
    ensures Decrease(p.(score := Increase(p).score)) == PatchScore(p.id, p.score)
  {
  }

  /** The reset is issued only when the confirmation dialog returns true. */
  function HandleResetScores(confirmed: bool): (r: Option<Request>)
    ensures r.Some? <==> confirmed
    ensures r.Some? ==> r.value == ResetScores
  {
    if confirmed then Some(ResetScores) else None
  }

  /** The delete is issued only when the confirmation dialog returns true. */
  function HandleDeletePlayer(id: int, confirmed: bool): (r: Option<Request>)
    ensures r.Some? <==> confirmed
    ensures r.Some? ==> r.value == DeletePlayer(id)
  {
    if confirmed then Some(DeletePlayer(id)) else None
  }

  /** The JSON body `{ score }` the score buttons send. */
  function ScoreBody(score: int): Json {
    JObj(map["score" := JNum(score)])
  }

  /**
   * The server accepts what the buttons send: the id reaches the route as
   * its decimal spelling and the body's score is a number, so neither 400
   * check of the PATCH route fires, and the route reads back the same
   * player id and score.
   */
  lemma ScoreRequestPassesValidation(r: Request)
    requires r.PatchScore?
    ensures Routes.IdParam(IntToDecimal(r.id)) == Some(r.id)
    ensures Routes.ScoreField(ScoreBody(r.score)) == Some(r.score)
  {
    ParseIntOfDecimal(r.id);
  }
}
