/**
 * The request handlers of server/routes.ts, reduced to their decisions:
 * a status code and a body, computed from the request's parameters and a
 * store. Read-only handlers are functions of the store; handlers that
 * change it are methods on it.
 */
module Routes {
  import opened Wrappers
  import opened JsValues
  import opened Schema
  import opened Storage

  /** What a handler answers with, in place of `res.status(..).json(..)`. */
  datatype Body =
    | Message(text: string)
    | CategoryBody(category: GameCategory)
    | CategoriesBody(categories: seq<GameCategory>)
    | QuestionBody(question: GameQuestion)
    | QuestionsBody(questions: seq<GameQuestion>)
    | PlayerBody(player: Player)
    | PlayersBody(players: seq<Player>)
    | PenaltyBody(penalty: Penalty)
    | PenaltiesBody(penalties: seq<Penalty>)
    | CountBody(count: nat)
    | NoContent

  datatype Response = Response(status: int, body: Body)

  /** The category names the three newer games' forms look up. */
  const ImagesName: string := "صور"
  const WhoAmIName: string := "من أنا"
  const ProverbName: string := "أكمل المثل"

  /** A path `:id` through `parseInt`; `None` is the `isNaN(id)` case. */
  function IdParam(raw: string): (r: Option<int>)
    ensures r.None? <==> ParseInt(raw).NaN?
    ensures r.Some? ==> ParseInt(raw) == Finite(r.value)
  {
    match ParseInt(raw)
    case Finite(n) => Some(n)
    case NaN => None
  }

  // ---- bulk import: mapping a validated row to a question ----

  /** `categories.find(cat => cat.name === name)`: the first category with that name. */
  function FindCategoryByName(cats: seq<GameCategory>, name: string): (r: Option<nat>)
    ensures r.Some? ==> r.value < |cats| && cats[r.value].name == name
    ensures r.Some? ==> forall i :: 0 <= i < r.value ==> cats[i].name != name
    ensures r.None? <==> forall i :: 0 <= i < |cats| ==> cats[i].name != name
  {
    if cats == [] then None
    else if cats[0].name == name then Some(0)
    else
      match FindCategoryByName(cats[1..], name)
      case Some(k) => Some(k + 1)
      case None => None
  }

  /** The id of the first category with this name, or 1 when none has it. */
  function ResolveCategoryId(cats: seq<GameCategory>, name: string): (r: int)
    ensures (forall c :: c in cats ==> c.name != name) ==> r == 1
    ensures forall i :: (0 <= i < |cats| && cats[i].name == name
      && forall k :: 0 <= k < i ==> cats[k].name != name) ==> r == cats[i].id
  {
    match FindCategoryByName(cats, name)
    case Some(i) => cats[i].id
    case None => 1
  }

  /** The six optional clue columns, in column order. */
  function ExtraClueColumns(row: ExcelRow): (r: seq<Option<string>>)
    ensures |r| == 6
  {
    [row.extraClue1, row.extraClue2, row.extraClue3,
     row.extraClue4, row.extraClue5, row.extraClue6]
  }

  /** The truthy values among `xs`, in order: what the `if (x) arr.push(x)` chain builds. */
  function TruthyValues(xs: seq<Option<string>>): (r: seq<string>)
    ensures |r| <= |xs|
    ensures forall k :: 0 <= k < |r| ==> r[k] != ""
    ensures r == [] <==> forall i :: 0 <= i < |xs| ==> !Truthy(xs[i])
  {
    if xs == [] then []
    else TruthyValues(xs[..|xs| - 1])
         + (if Truthy(xs[|xs| - 1]) then [xs[|xs| - 1].value] else [])
  }

  /** The positions of the truthy entries of `xs`, in increasing order. */
  function TruthyPositions(xs: seq<Option<string>>): (idx: seq<nat>)
    ensures forall k :: 0 <= k < |idx| ==> idx[k] < |xs| && Truthy(xs[idx[k]])
    ensures forall k, l :: 0 <= k < l < |idx| ==> idx[k] < idx[l]
    ensures forall i :: 0 <= i < |xs| && Truthy(xs[i]) ==> i in idx
  {
    if xs == [] then []
    else TruthyPositions(xs[..|xs| - 1]) + (if Truthy(xs[|xs| - 1]) then [|xs| - 1] else [])
  }

  /**
   * The kept clues are the truthy columns' values in column order, one per
   * truthy column: a repeated value is kept each time it appears.
   */
  lemma {:induction false} TruthyValuesInColumnOrder(xs: seq<Option<string>>)
    ensures var r := TruthyValues(xs); var idx := TruthyPositions(xs);
      |r| == |idx| && forall k :: 0 <= k < |r| ==> xs[idx[k]] == Some(r[k])
  {
    if xs != [] {
      var front := xs[..|xs| - 1];
      TruthyValuesInColumnOrder(front);
      var r := TruthyValues(xs);
      var idx := TruthyPositions(xs);
      forall k | 0 <= k < |TruthyValues(front)| ensures xs[idx[k]] == Some(r[k]) {
        assert idx[k] == TruthyPositions(front)[k] && r[k] == TruthyValues(front)[k];
      }
    }
  }

  /** Every truthy value is kept, and nothing else is: the push chain drops only empties. */
  lemma {:induction false} TruthyValuesMembers(xs: seq<Option<string>>, s: string)
    ensures s in TruthyValues(xs) <==> exists i :: 0 <= i < |xs| && xs[i] == Some(s) && s != ""
  {
    if xs != [] {
      var front := xs[..|xs| - 1];
      TruthyValuesMembers(front, s);
      if exists i :: 0 <= i < |front| && front[i] == Some(s) && s != "" {
        var i :| 0 <= i < |front| && front[i] == Some(s) && s != "";
        assert xs[i] == front[i];
      }
      if exists i :: 0 <= i < |xs| && xs[i] == Some(s) && s != "" {
        var i :| 0 <= i < |xs| && xs[i] == Some(s) && s != "";
        if i < |front| {
          assert front[i] == xs[i];
        }
      }
    }
  }

  /**
   * One validated row as a question to create (routes.ts:84-125): the
   * category id is looked up by name, and each variant field is copied
   * only for its own game's category name and only when truthy.
   */
  function BuildQuestion(cats: seq<GameCategory>, row: ExcelRow): (q: InsertGameQuestion)
    ensures q.categoryId == ResolveCategoryId(cats, row.category)
    ensures q.clue1 == row.clue1 && q.clue2 == row.clue2 && q.answer == row.answer
    ensures q.letterCount == row.letterCount
    ensures q.imageUrl.Some? <==> row.category == ImagesName && Truthy(row.imageUrl)
    ensures q.imageUrl.Some? ==> q.imageUrl == row.imageUrl
    ensures q.missingText.Some? <==> row.category == ProverbName && Truthy(row.missingText)
    ensures q.missingText.Some? ==> q.missingText == row.missingText
    ensures q.extraClues.Some? <==>
      row.category == WhoAmIName && exists i :: 0 <= i < 6 && Truthy(ExtraClueColumns(row)[i])
    ensures q.extraClues.Some? ==>
      && 1 <= |q.extraClues.value| <= 6
      && q.extraClues.value == TruthyValues(ExtraClueColumns(row))
  {
    var clues := TruthyValues(ExtraClueColumns(row));
    InsertGameQuestion(
      ResolveCategoryId(cats, row.category), row.clue1, row.clue2, row.answer, row.letterCount,
      if row.category == ImagesName && Truthy(row.imageUrl) then row.imageUrl else None,
      if row.category == WhoAmIName && clues != [] then Some(clues) else None,
      if row.category == ProverbName && Truthy(row.missingText) then row.missingText else None)
  }

  /** `excelData.map(row => ...)`: one question per row, in row order. */
  function BuildQuestions(cats: seq<GameCategory>, rows: seq<ExcelRow>): (qs: seq<InsertGameQuestion>)
    ensures |qs| == |rows|
    ensures forall i :: 0 <= i < |rows| ==> qs[i] == BuildQuestion(cats, rows[i])
  {
    seq(|rows|, i requires 0 <= i < |rows| => BuildQuestion(cats, rows[i]))
  }

  /** The records a bulk import stores: row `i` becomes a question with id `startId + i`. */
  function Imported(cats: seq<GameCategory>, rows: seq<ExcelRow>, startId: int): (qs: seq<GameQuestion>)
    ensures |qs| == |rows|
    ensures forall i :: 0 <= i < |rows| ==>
      qs[i].id == startId + i && QuestionPayload(qs[i]) == BuildQuestion(cats, rows[i])
  {
    seq(|rows|, i requires 0 <= i < |rows| => QuestionWithId(BuildQuestion(cats, rows[i]), startId + i))
  }

  lemma ImportedIsCreated(cats: seq<GameCategory>, rows: seq<ExcelRow>, startId: int,
                          questions: seq<InsertGameQuestion>, created: seq<GameQuestion>)
    requires questions == BuildQuestions(cats, rows)
    requires |created| == |questions|
    requires forall i :: 0 <= i < |questions| ==> created[i] == QuestionWithId(questions[i], startId + i)
    ensures created == Imported(cats, rows, startId)
  {
  }

  /**
   * The variant fields depend on the row's category name and not on the
   * id it resolves to: against any two category lists, a row maps to
   * questions that differ at most in `categoryId`.
   */
  lemma VariantFieldsIgnoreResolvedId(cats1: seq<GameCategory>, cats2: seq<GameCategory>, row: ExcelRow)
    ensures BuildQuestion(cats1, row).(categoryId := 0) == BuildQuestion(cats2, row).(categoryId := 0)
  {
  }

  /** None of the three form categories is among the seeded names. */
  lemma {:induction false} FormNamesNotSeeded(name: string)
    requires name == ImagesName || name == WhoAmIName || name == ProverbName
    ensures forall i :: 0 <= i < |DefaultCategories| ==> DefaultCategories[i].name != name
  {
    forall i | 0 <= i < |DefaultCategories| ensures DefaultCategories[i].name != name {
      // The names differ in their first or second letter ('ص'/'م'/'أ' against the seeded ones).
      assert DefaultCategories[i].name[0] != name[0] || DefaultCategories[i].name[1] != name[1];
    }
  }

  /**
   * On the seeded categories, a bulk row for one of the three form games
   * falls back to category 1 (the first seeded category), yet still
   * carries its game's variant field.
   */
  lemma FormRowOnSeededStore(cats: seq<GameCategory>, row: ExcelRow)
    requires |cats| == |DefaultCategories|
    requires forall i :: 0 <= i < |DefaultCategories| ==> cats[i] == CategoryWithId(DefaultCategories[i], i + 1)
    requires row.category == ImagesName || row.category == WhoAmIName || row.category == ProverbName
    ensures BuildQuestion(cats, row).categoryId == 1 == cats[0].id
    ensures row.category == ImagesName && Truthy(row.imageUrl) ==>
      BuildQuestion(cats, row).imageUrl == row.imageUrl
    ensures row.category == ProverbName && Truthy(row.missingText) ==>
      BuildQuestion(cats, row).missingText == row.missingText
    ensures row.category == WhoAmIName && Truthy(row.extraClue1) ==>
      BuildQuestion(cats, row).extraClues.Some?
  {
    FormNamesNotSeeded(row.category);
    assert forall c :: c in cats ==> c.name != row.category by {
      forall c | c in cats ensures c.name != row.category {
        var i :| 0 <= i < |cats| && cats[i] == c;
        assert c.name == DefaultCategories[i].name;
      }
    }
    assert Truthy(row.extraClue1) ==> Truthy(ExtraClueColumns(row)[0]);
  }

  // ---- read-only handlers ----

  /** GET /api/categories/:id: 400 for a non-numeric id, 404 for an unknown one, else the category. */
  function GetCategoryRoute(st: MemStorage, rawId: string): (r: Response)
    reads st
    ensures r.status == 400 <==> ParseInt(rawId).NaN?
    ensures r.status == 404 <==> ParseInt(rawId).Finite? && st.GetGameCategory(ParseInt(rawId).value).None?
    ensures r.status == 200 <==> ParseInt(rawId).Finite? && st.GetGameCategory(ParseInt(rawId).value).Some?
    ensures r.status == 200 ==>
      r.body.CategoryBody? && r.body.category in st.gameCategories && r.body.category.id == ParseInt(rawId).value
  {
    match IdParam(rawId)
    case None => Response(400, Message("Invalid ID format"))
    case Some(id) =>
      match st.GetGameCategory(id)
      case None => Response(404, Message("Category not found"))
      case Some(c) => Response(200, CategoryBody(c))
  }

  /**
   * `parseInt` reads only the leading digits, so an id with a trailing
   * non-digit ("3abc") is answered exactly as the plain id ("3").
   */
  lemma GetCategoryIgnoresIdSuffix(st: MemStorage, n: nat, c: char, rest: string)
    requires !IsDigit(c, 10)
    requires n == 0 ==> c != 'x' && c != 'X'
    ensures GetCategoryRoute(st, NatToDecimal(n) + [c] + rest) == GetCategoryRoute(st, NatToDecimal(n))
  {
    ParseIntIgnoresSuffix(n, c, rest);
    ParseIntOfDecimal(n);
    assert IntToDecimal(n) == NatToDecimal(n);
    GetCategoryRouteDependsOnParse(st, NatToDecimal(n) + [c] + rest, NatToDecimal(n));
  }

  /** The response depends on the raw id only through what parseInt reads from it. */
  lemma GetCategoryRouteDependsOnParse(st: MemStorage, a: string, b: string)
    requires ParseInt(a) == ParseInt(b)
    ensures GetCategoryRoute(st, a) == GetCategoryRoute(st, b)
  {
    assert IdParam(a) == IdParam(b);
  }

  /**
   * GET /api/questions: a missing or empty `categoryId` lists all
   * questions; otherwise it is parsed, NaN gives 400, and a number lists
   * that category's questions.
   */
  function GetQuestionsRoute(st: MemStorage, categoryId: Option<string>): (r: Response)
    reads st
    requires st.Valid()
    ensures !Truthy(categoryId) ==> r == Response(200, QuestionsBody(st.gameQuestions))
    ensures Truthy(categoryId) && ParseInt(categoryId.value).NaN? ==> r.status == 400
    ensures Truthy(categoryId) && ParseInt(categoryId.value).Finite? ==>
      && r.status == 200 && r.body.QuestionsBody?
      && forall q :: q in r.body.questions <==>
           q in st.gameQuestions && q.categoryId == ParseInt(categoryId.value).value
  {
    if !Truthy(categoryId) then Response(200, QuestionsBody(st.GetAllGameQuestions()))
    else
      match IdParam(categoryId.value)
      case None => Response(400, Message("Invalid category ID format"))
      case Some(c) => Response(200, QuestionsBody(st.GetGameQuestionsByCategoryId(c)))
  }

  /** The `score` of a PATCH body when it is a number, `None` otherwise (`typeof score !== 'number'`). */
  function ScoreField(body: Json): (r: Option<int>)
    ensures r.Some? <==> body.JObj? && "score" in body.fields && body.fields["score"].JNum?
    ensures r.Some? ==> r.value == body.fields["score"].n
  {
    if body.JObj? && "score" in body.fields && body.fields["score"].JNum?
    then Some(body.fields["score"].n) else None
  }

  // ---- handlers that change the store ----

  /**
   * POST /api/questions/bulk. With `clear=true` the questions are deleted
   * first, before the body is validated: an invalid body answers 400 with
   * the question table already emptied. A valid body creates one question
   * per row and answers 201 with the number of rows.
   */
  method BulkImportRoute(st: MemStorage, clear: Option<string>, body: Json) returns (r: Response)
    requires st.Valid()
    modifies st
    ensures st.Valid()
    ensures ParseExcelData(body).None? ==> r.status == 400
    ensures ParseExcelData(body).None? && clear == Some("true") ==>
      st.gameQuestions == [] && st.currentQuestionId == 1
    ensures ParseExcelData(body).None? && clear != Some("true") ==>
      st.gameQuestions == old(st.gameQuestions) && st.currentQuestionId == old(st.currentQuestionId)
    ensures ParseExcelData(body).Some? ==> r == Response(201, CountBody(|ParseExcelData(body).value|))
    ensures ParseExcelData(body).Some? && clear == Some("true") ==>
      var rows := ParseExcelData(body).value;
      && st.gameQuestions == Imported(old(st.gameCategories), rows, 1)
      && st.currentQuestionId == 1 + |rows|
    ensures ParseExcelData(body).Some? && clear != Some("true") ==>
      var rows := ParseExcelData(body).value;
      && st.gameQuestions == old(st.gameQuestions) + Imported(old(st.gameCategories), rows, old(st.currentQuestionId))
      && st.currentQuestionId == old(st.currentQuestionId) + |rows|
    ensures st.gameCategories == old(st.gameCategories) && st.currentCategoryId == old(st.currentCategoryId)
    ensures st.players == old(st.players) && st.currentPlayerId == old(st.currentPlayerId)
    ensures st.penalties == old(st.penalties) && st.currentPenaltyId == old(st.currentPenaltyId)
    ensures st.settings == old(st.settings) && st.currentSettingId == old(st.currentSettingId)
  {
    if clear == Some("true") {
      st.DeleteAllGameQuestions();
    }
    match ParseExcelData(body)
    case None =>
      r := Response(400, Message("Invalid Excel data"));
    case Some(rows) =>
      ghost var startId := st.currentQuestionId;
      var questions := BuildQuestions(st.gameCategories, rows);
      var created := st.BulkCreateGameQuestions(questions);
      ImportedIsCreated(st.gameCategories, rows, startId, questions, created);
      assert [] + created == created;
      r := Response(201, CountBody(|created|));
  }

  /** POST /api/questions: 400 on an invalid body (nothing stored), else 201 with the created question. */
  method CreateQuestionRoute(st: MemStorage, body: Json) returns (r: Response)
    requires st.Valid()
    modifies st
    ensures st.Valid()
    ensures ParseInsertQuestion(body).None? ==>
      r.status == 400 && st.gameQuestions == old(st.gameQuestions) && st.currentQuestionId == old(st.currentQuestionId)
    ensures ParseInsertQuestion(body).Some? ==>
      var q := QuestionWithId(ParseInsertQuestion(body).value, old(st.currentQuestionId));
      && r == Response(201, QuestionBody(q))
      && st.gameQuestions == old(st.gameQuestions) + [q]
      && st.currentQuestionId == old(st.currentQuestionId) + 1
    ensures st.gameCategories == old(st.gameCategories) && st.currentCategoryId == old(st.currentCategoryId)
    ensures st.players == old(st.players) && st.currentPlayerId == old(st.currentPlayerId)
    ensures st.penalties == old(st.penalties) && st.currentPenaltyId == old(st.currentPenaltyId)
    ensures st.settings == old(st.settings) && st.currentSettingId == old(st.currentSettingId)
  {
    match ParseInsertQuestion(body)
    case None =>
      r := Response(400, Message("Invalid question data"));
    case Some(q) =>
      var created := st.CreateGameQuestion(q);
      r := Response(201, QuestionBody(created));
  }

  /** POST /api/players: 400 on an invalid body (nothing stored), else 201 with the created player. */
  method CreatePlayerRoute(st: MemStorage, body: Json) returns (r: Response)
    requires st.Valid()
    modifies st
    ensures st.Valid()
    ensures ParseInsertPlayer(body).None? ==>
      r.status == 400 && st.players == old(st.players) && st.currentPlayerId == old(st.currentPlayerId)
    ensures ParseInsertPlayer(body).Some? ==>
      var p := PlayerWithId(ParseInsertPlayer(body).value, old(st.currentPlayerId));
      && r == Response(201, PlayerBody(p))
      && st.players == old(st.players) + [p]
      && st.currentPlayerId == old(st.currentPlayerId) + 1
    ensures st.gameCategories == old(st.gameCategories) && st.currentCategoryId == old(st.currentCategoryId)
    ensures st.gameQuestions == old(st.gameQuestions) && st.currentQuestionId == old(st.currentQuestionId)
    ensures st.penalties == old(st.penalties) && st.currentPenaltyId == old(st.currentPenaltyId)
    ensures st.settings == old(st.settings) && st.currentSettingId == old(st.currentSettingId)
  {
    match ParseInsertPlayer(body)
    case None =>
      r := Response(400, Message("Invalid player data"));
    case Some(p) =>
      var created := st.CreatePlayer(p);
      r := Response(201, PlayerBody(created));
  }

  /**
   * PATCH /api/players/:id/score: 400 for a non-numeric id, 400 for a
   * score that is not a number, 404 for an unknown player; otherwise the
   * score is replaced and the updated player returned.
   */
  method UpdateScoreRoute(st: MemStorage, rawId: string, body: Json) returns (r: Response)
    requires st.Valid()
    modifies st
    ensures st.Valid()
    ensures ParseInt(rawId).NaN? ==> r.status == 400 && st.players == old(st.players)
    ensures ParseInt(rawId).Finite? && ScoreField(body).None? ==> r.status == 400 && st.players == old(st.players)
    ensures ParseInt(rawId).Finite? && ScoreField(body).Some? ==>
      var id := ParseInt(rawId).value;
      match old(FindPlayer(st.players, id))
      case None => r.status == 404 && st.players == old(st.players)
      case Some(i) =>
        var p := old(st.players)[i].(score := ScoreField(body).value);
        r == Response(200, PlayerBody(p)) && st.players == old(st.players)[i := p]
    ensures st.currentPlayerId == old(st.currentPlayerId)
    ensures st.gameCategories == old(st.gameCategories) && st.currentCategoryId == old(st.currentCategoryId)
    ensures st.gameQuestions == old(st.gameQuestions) && st.currentQuestionId == old(st.currentQuestionId)
    ensures st.penalties == old(st.penalties) && st.currentPenaltyId == old(st.currentPenaltyId)
    ensures st.settings == old(st.settings) && st.currentSettingId == old(st.currentSettingId)
  {
    var id := IdParam(rawId);
    if id.None? {
      return Response(400, Message("Invalid ID format"));
    }
    var score := ScoreField(body);
    if score.None? {
      return Response(400, Message("Score must be a number"));
    }
    var updated := st.UpdatePlayerScore(id.value, score.value);
    match updated
    case None =>
      r := Response(404, Message("Player not found"));
    case Some(p) =>
      r := Response(200, PlayerBody(p));
  }

  /** DELETE /api/players/:id: 400 for a non-numeric id, otherwise 204 whether or not the player existed. */
  method DeletePlayerRoute(st: MemStorage, rawId: string) returns (r: Response)
    requires st.Valid()
    modifies st
    ensures st.Valid()
    ensures ParseInt(rawId).NaN? ==> r.status == 400 && st.players == old(st.players)
    ensures ParseInt(rawId).Finite? ==>
      && r == Response(204, NoContent)
      && match old(FindPlayer(st.players, ParseInt(rawId).value))
         case None => st.players == old(st.players)
         case Some(i) => st.players == RemoveAt(old(st.players), i)
    ensures st.currentPlayerId == old(st.currentPlayerId)
    ensures st.gameCategories == old(st.gameCategories) && st.currentCategoryId == old(st.currentCategoryId)
    ensures st.gameQuestions == old(st.gameQuestions) && st.currentQuestionId == old(st.currentQuestionId)
    ensures st.penalties == old(st.penalties) && st.currentPenaltyId == old(st.currentPenaltyId)
    ensures st.settings == old(st.settings) && st.currentSettingId == old(st.currentSettingId)
  {
    var id := IdParam(rawId);
    if id.None? {
      return Response(400, Message("Invalid ID format"));
    }
    st.DeletePlayer(id.value);
    r := Response(204, NoContent);
  }

  /** POST /api/penalties: 400 on an invalid body (nothing stored), else 201 with the created penalty. */
  method CreatePenaltyRoute(st: MemStorage, body: Json) returns (r: Response)
    requires st.Valid()
    modifies st
    ensures st.Valid()
    ensures ParseInsertPenalty(body).None? ==>
      r.status == 400 && st.penalties == old(st.penalties) && st.currentPenaltyId == old(st.currentPenaltyId)
    ensures ParseInsertPenalty(body).Some? ==>
      var p := PenaltyWithId(ParseInsertPenalty(body).value, old(st.currentPenaltyId));
      && r == Response(201, PenaltyBody(p))
      && st.penalties == old(st.penalties) + [p]
      && st.currentPenaltyId == old(st.currentPenaltyId) + 1
    ensures st.gameCategories == old(st.gameCategories) && st.currentCategoryId == old(st.currentCategoryId)
    ensures st.gameQuestions == old(st.gameQuestions) && st.currentQuestionId == old(st.currentQuestionId)
    ensures st.players == old(st.players) && st.currentPlayerId == old(st.currentPlayerId)
    ensures st.settings == old(st.settings) && st.currentSettingId == old(st.currentSettingId)
  {
    match ParseInsertPenalty(body)
    case None =>
      r := Response(400, Message("Invalid penalty data"));
    case Some(p) =>
      var created := st.CreatePenalty(p);
      r := Response(201, PenaltyBody(created));
  }

  /** DELETE /api/penalties/:id: 400 for a non-numeric id, otherwise 204 whether or not the penalty existed. */
  method DeletePenaltyRoute(st: MemStorage, rawId: string) returns (r: Response)
    requires st.Valid()
    modifies st
    ensures st.Valid()
    ensures ParseInt(rawId).NaN? ==> r.status == 400 && st.penalties == old(st.penalties)
    ensures ParseInt(rawId).Finite? ==>
      && r == Response(204, NoContent)
      && match old(FindPenalty(st.penalties, ParseInt(rawId).value))
         case None => st.penalties == old(st.penalties)
         case Some(i) => st.penalties == RemoveAt(old(st.penalties), i)
    ensures st.currentPenaltyId == old(st.currentPenaltyId)
    ensures st.gameCategories == old(st.gameCategories) && st.currentCategoryId == old(st.currentCategoryId)
    ensures st.gameQuestions == old(st.gameQuestions) && st.currentQuestionId == old(st.currentQuestionId)
    ensures st.players == old(st.players) && st.currentPlayerId == old(st.currentPlayerId)
    ensures st.settings == old(st.settings) && st.currentSettingId == old(st.currentSettingId)
  {
    var id := IdParam(rawId);
    if id.None? {
      return Response(400, Message("Invalid ID format"));
    }
    st.DeletePenalty(id.value);
    r := Response(204, NoContent);
  }

  /** DELETE /api/questions: empties the question table (ids restart at 1) and answers 200. */
  method DeleteAllQuestionsRoute(st: MemStorage) returns (r: Response)
    requires st.Valid()
    modifies st
    ensures st.Valid()
    ensures r.status == 200
    ensures st.gameQuestions == [] && st.currentQuestionId == 1
    ensures st.gameCategories == old(st.gameCategories) && st.currentCategoryId == old(st.currentCategoryId)
    ensures st.players == old(st.players) && st.currentPlayerId == old(st.currentPlayerId)
    ensures st.penalties == old(st.penalties) && st.currentPenaltyId == old(st.currentPenaltyId)
    ensures st.settings == old(st.settings) && st.currentSettingId == old(st.currentSettingId)
  {
    st.DeleteAllGameQuestions();
    r := Response(200, Message("All questions have been deleted successfully"));
  }

  /** POST /api/players/reset-scores: every score becomes 0 and the route answers 200. */
  method ResetScoresRoute(st: MemStorage) returns (r: Response)
    requires st.Valid()
    modifies st
    ensures st.Valid()
    ensures r.status == 200
    ensures |st.players| == |old(st.players)|
    ensures forall i :: 0 <= i < |st.players| ==> st.players[i] == old(st.players)[i].(score := 0)
    ensures st.currentPlayerId == old(st.currentPlayerId)
    ensures st.gameCategories == old(st.gameCategories) && st.currentCategoryId == old(st.currentCategoryId)
    ensures st.gameQuestions == old(st.gameQuestions) && st.currentQuestionId == old(st.currentQuestionId)
    ensures st.penalties == old(st.penalties) && st.currentPenaltyId == old(st.currentPenaltyId)
    ensures st.settings == old(st.settings) && st.currentSettingId == old(st.currentSettingId)
  {
    st.ResetAllScores();
    r := Response(200, Message("All scores reset"));
  }

  /** DELETE /api/penalties: empties the penalty table (ids restart at 1) and answers 200. */
  method DeleteAllPenaltiesRoute(st: MemStorage) returns (r: Response)
    requires st.Valid()
    modifies st
    ensures st.Valid()
    ensures r.status == 200
    ensures st.penalties == [] && st.currentPenaltyId == 1
    ensures st.gameCategories == old(st.gameCategories) && st.currentCategoryId == old(st.currentCategoryId)
    ensures st.gameQuestions == old(st.gameQuestions) && st.currentQuestionId == old(st.currentQuestionId)
    ensures st.players == old(st.players) && st.currentPlayerId == old(st.currentPlayerId)
    ensures st.settings == old(st.settings) && st.currentSettingId == old(st.currentSettingId)
  {
    st.DeleteAllPenalties();
    r := Response(200, Message("All penalties deleted"));
  }
}
