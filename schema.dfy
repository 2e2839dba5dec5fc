/**
 * Record shapes of the game's entities (shared/schema.ts). Each stored
 * record carries an `id`; each insert shape is the same record without it,
 * so ids can only come from the store. Nullable columns are `Option`s.
 */
module Schema {
  import opened Wrappers
  import opened JsValues

  datatype GameCategory = GameCategory(id: int, name: string, icon: string, description: string)
  datatype InsertGameCategory = InsertGameCategory(name: string, icon: string, description: string)

  /**
   * A question. `letterCount` is a JavaScript number, which is NaN when a
   * bulk-imported string does not parse. `imageUrl` belongs to the "images"
   * game, `extraClues` to "who am I", `missingText` to "complete the proverb".
   */
  datatype GameQuestion = GameQuestion(
    id: int, categoryId: int, clue1: string, clue2: string, answer: string,
    letterCount: JsNumber, imageUrl: Option<string>, extraClues: Option<seq<string>>,
    missingText: Option<string>)
  datatype InsertGameQuestion = InsertGameQuestion(
    categoryId: int, clue1: string, clue2: string, answer: string,
    letterCount: JsNumber, imageUrl: Option<string>, extraClues: Option<seq<string>>,
    missingText: Option<string>)

  datatype Player = Player(id: int, name: string, score: int)
  datatype InsertPlayer = InsertPlayer(name: string, score: int)

  datatype Penalty = Penalty(id: int, description: string)
  datatype InsertPenalty = InsertPenalty(description: string)

  /** A setting; its `key` is unique, so the store keys settings by it. */
  datatype Setting = Setting(id: int, key: string, value: string)
  datatype InsertSetting = InsertSetting(key: string, value: string)

  // The spread `{ ...payload, id }` for each kind, and the projection back
  // to the insert shape.

  function CategoryPayload(r: GameCategory): InsertGameCategory {
    InsertGameCategory(r.name, r.icon, r.description)
  }

  function CategoryWithId(c: InsertGameCategory, id: int): (r: GameCategory)
    ensures r.id == id && CategoryPayload(r) == c
  {
    GameCategory(id, c.name, c.icon, c.description)
  }

  function QuestionPayload(r: GameQuestion): InsertGameQuestion {
    InsertGameQuestion(r.categoryId, r.clue1, r.clue2, r.answer, r.letterCount,
                       r.imageUrl, r.extraClues, r.missingText)
  }

  function QuestionWithId(q: InsertGameQuestion, id: int): (r: GameQuestion)
    ensures r.id == id && QuestionPayload(r) == q
  {
    GameQuestion(id, q.categoryId, q.clue1, q.clue2, q.answer, q.letterCount,
                 q.imageUrl, q.extraClues, q.missingText)
  }

  function PlayerPayload(r: Player): InsertPlayer {
    InsertPlayer(r.name, r.score)
  }

  function PlayerWithId(p: InsertPlayer, id: int): (r: Player)
    ensures r.id == id && PlayerPayload(r) == p
  {
    Player(id, p.name, p.score)
  }

  function PenaltyPayload(r: Penalty): InsertPenalty {
    InsertPenalty(r.description)
  }

  function PenaltyWithId(p: InsertPenalty, id: int): (r: Penalty)
    ensures r.id == id && PenaltyPayload(r) == p
  {
    Penalty(id, p.description)
  }

  /** No information but the id is lost when a record is split into payload and id. */
  lemma RecordsAreIdPlusPayload(c: GameCategory, q: GameQuestion, p: Player, n: Penalty)
    ensures CategoryWithId(CategoryPayload(c), c.id) == c
    ensures QuestionWithId(QuestionPayload(q), q.id) == q
    ensures PlayerWithId(PlayerPayload(p), p.id) == p
    ensures PenaltyWithId(PenaltyPayload(n), n.id) == n
  {
  }

  /**
   * A nullable column of the insert schema (`.nullable().optional()`):
   * absent or `null` is `Some(None)`, a string `Some(Some(s))`, and any
   * other value `None` (a validation error).
   */
  function NullableString(fields: map<string, Json>, key: string): (r: Option<Option<string>>)
    ensures r == Some(None) <==> key !in fields || fields[key].JNull?
    ensures r.None? <==> key in fields && !fields[key].JNull? && !fields[key].JStr?
  {
    if key !in fields || fields[key].JNull? then Some(None)
    else if fields[key].JStr? then Some(Some(fields[key].s))
    else None
  }

  /** The strings of a JSON array, when every item is a string. */
  function Strings(items: seq<Json>): (r: Option<seq<string>>)
    ensures r.Some? <==> forall i :: 0 <= i < |items| ==> items[i].JStr?
    ensures r.Some? ==> |r.value| == |items| && forall i :: 0 <= i < |items| ==> r.value[i] == items[i].s
  {
    if items == [] then Some([])
    else
      match Strings(items[..|items| - 1])
      case None => None
      case Some(front) =>
        if items[|items| - 1].JStr? then Some(front + [items[|items| - 1].s]) else None
  }

  /** The nullable `extraClues` column, accepted here as an array of strings. */
  function NullableStrings(fields: map<string, Json>, key: string): (r: Option<Option<seq<string>>>)
    ensures r == Some(None) <==> key !in fields || fields[key].JNull?
    ensures r.Some? && r.value.Some? ==> fields[key].JArr? && Some(r.value.value) == Strings(fields[key].items)
  {
    if key !in fields || fields[key].JNull? then Some(None)
    else if fields[key].JArr? then
      match Strings(fields[key].items)
      case Some(xs) => Some(Some(xs))
      case None => None
    else None
  }

  /** A required integer column (`z.number()` on an integer column). */
  function RequiredNumber(fields: map<string, Json>, key: string): (r: Option<int>)
    ensures r.Some? <==> key in fields && fields[key].JNum?
    ensures r.Some? ==> r.value == fields[key].n
  {
    if key in fields && fields[key].JNum? then Some(fields[key].n) else None
  }

  /** The shape the question insert schema accepts. */
  predicate IsInsertQuestion(j: Json) {
    && j.JObj?
    && IsStringField(j.fields, "clue1") && IsStringField(j.fields, "clue2")
    && IsStringField(j.fields, "answer")
    && "categoryId" in j.fields && j.fields["categoryId"].JNum?
    && "letterCount" in j.fields && j.fields["letterCount"].JNum?
    && NullableString(j.fields, "imageUrl").Some?
    && NullableStrings(j.fields, "extraClues").Some?
    && NullableString(j.fields, "missingText").Some?
  }

  /**
   * `insertGameQuestionSchema.parse`: `categoryId`, `clue1`, `clue2`,
   * `answer` and `letterCount` are required; the three variant columns are
   * nullable; an `id` in the body is ignored.
   */
  function ParseInsertQuestion(j: Json): (r: Option<InsertGameQuestion>)
    ensures r.Some? <==> IsInsertQuestion(j)
    ensures r.Some? ==>
      && RequiredNumber(j.fields, "categoryId") == Some(r.value.categoryId)
      && RequiredString(j.fields, "clue1") == Some(r.value.clue1)
      && RequiredString(j.fields, "clue2") == Some(r.value.clue2)
      && RequiredString(j.fields, "answer") == Some(r.value.answer)
      && r.value.letterCount.Finite?
      && RequiredNumber(j.fields, "letterCount") == Some(r.value.letterCount.value)
      && NullableString(j.fields, "imageUrl") == Some(r.value.imageUrl)
      && NullableStrings(j.fields, "extraClues") == Some(r.value.extraClues)
      && NullableString(j.fields, "missingText") == Some(r.value.missingText)
  {
    if !j.JObj? then None
    else
      var f := j.fields;
      var categoryId := RequiredNumber(f, "categoryId");
      var clue1 := RequiredString(f, "clue1");
      var clue2 := RequiredString(f, "clue2");
      var answer := RequiredString(f, "answer");
      var letterCount := RequiredNumber(f, "letterCount");
      var imageUrl := NullableString(f, "imageUrl");
      var extraClues := NullableStrings(f, "extraClues");
      var missingText := NullableString(f, "missingText");
      if categoryId.None? || clue1.None? || clue2.None? || answer.None? || letterCount.None?
         || imageUrl.None? || extraClues.None? || missingText.None?
      then
        None
      else
        Some(InsertGameQuestion(categoryId.value, clue1.value, clue2.value, answer.value,
                                Finite(letterCount.value), imageUrl.value, extraClues.value,
                                missingText.value))
  }

  /** `insertPlayerSchema.parse`: a string `name` and a number `score`. */
  function ParseInsertPlayer(j: Json): (r: Option<InsertPlayer>)
    ensures r.Some? <==> j.JObj? && IsStringField(j.fields, "name")
                         && "score" in j.fields && j.fields["score"].JNum?
    ensures r.Some? ==> r.value == InsertPlayer(j.fields["name"].s, j.fields["score"].n)
  {
    if j.JObj? && IsStringField(j.fields, "name") && "score" in j.fields && j.fields["score"].JNum?
    then Some(InsertPlayer(j.fields["name"].s, j.fields["score"].n))
    else None
  }

  /** `insertPenaltySchema.parse`: a string `description`. */
  function ParseInsertPenalty(j: Json): (r: Option<InsertPenalty>)
    ensures r.Some? <==> j.JObj? && IsStringField(j.fields, "description")
    ensures r.Some? ==> r.value == InsertPenalty(j.fields["description"].s)
  {
    if j.JObj? && IsStringField(j.fields, "description")
    then Some(InsertPenalty(j.fields["description"].s))
    else None
  }

  /** One spreadsheet row after validation by the import schema. */
  datatype ExcelRow = ExcelRow(
    category: string, clue1: string, clue2: string, answer: string,
    letterCount: JsNumber,
    imageUrl: Option<string>,
    extraClue1: Option<string>, extraClue2: Option<string>, extraClue3: Option<string>,
    extraClue4: Option<string>, extraClue5: Option<string>, extraClue6: Option<string>,
    missingText: Option<string>)

  /** `z.string()`: the field is present and a string. */
  predicate IsStringField(fields: map<string, Json>, key: string) {
    key in fields && fields[key].JStr?
  }

  /** `z.string().optional()`: the field is absent or a string (null is refused). */
  predicate IsOptionalStringField(fields: map<string, Json>, key: string) {
    key in fields ==> fields[key].JStr?
  }

  /** The shape the import schema accepts for one row. */
  predicate IsExcelRow(j: Json) {
    && j.JObj?
    && IsStringField(j.fields, "category") && IsStringField(j.fields, "clue1")
    && IsStringField(j.fields, "clue2") && IsStringField(j.fields, "answer")
    && "letterCount" in j.fields
    && (j.fields["letterCount"].JNum? || j.fields["letterCount"].JStr?)
    && IsOptionalStringField(j.fields, "imageUrl")
    && IsOptionalStringField(j.fields, "extraClue1") && IsOptionalStringField(j.fields, "extraClue2")
    && IsOptionalStringField(j.fields, "extraClue3") && IsOptionalStringField(j.fields, "extraClue4")
    && IsOptionalStringField(j.fields, "extraClue5") && IsOptionalStringField(j.fields, "extraClue6")
    && IsOptionalStringField(j.fields, "missingText")
  }

  /** A required `z.string()` field; `None` when it is missing or not a string. */
  function RequiredString(fields: map<string, Json>, key: string): (r: Option<string>)
    ensures r.Some? <==> key in fields && fields[key].JStr?
    ensures r.Some? ==> r.value == fields[key].s
  {
    if key in fields && fields[key].JStr? then Some(fields[key].s) else None
  }

  /**
   * An optional `z.string().optional()` field: `Some(None)` when absent,
   * `Some(Some(s))` for a string, and `None` (a validation error) otherwise.
   */
  function OptionalString(fields: map<string, Json>, key: string): (r: Option<Option<string>>)
    ensures r.None? <==> key in fields && !fields[key].JStr?
    ensures r == Some(None) <==> key !in fields
  {
    if key !in fields then Some(None)
    else if fields[key].JStr? then Some(Some(fields[key].s))
    else None
  }

  /**
   * `letterCount`: a number is taken as it is, a string goes through
   * `parseInt` (and may become NaN); any other value fails validation.
   */
  function LetterCount(v: Json): (r: Option<JsNumber>)
    ensures r.Some? <==> v.JNum? || v.JStr?
    ensures v.JNum? ==> r == Some(Finite(v.n))
    ensures v.JStr? ==> r == Some(ParseInt(v.s))
  {
    match v
    case JNum(n) => Some(Finite(n))
    case JStr(s) => Some(ParseInt(s))
    case _ => None
  }

  /** A spreadsheet cell holding the decimal spelling of `n` gives letter count `n`. */
  lemma LetterCountOfDecimalString(n: int)
    ensures LetterCount(JStr(IntToDecimal(n))) == Some(Finite(n))
  {
    ParseIntOfDecimal(n);
  }

  /** What an accepted optional string column holds: its text, or `None` when absent. */
  ghost function Cell(fields: map<string, Json>, key: string): Option<string>
    requires IsOptionalStringField(fields, key)
  {
    if key in fields then Some(fields[key].s) else None
  }

  /** One row through the import schema: `None` is a validation error. */
  function ParseExcelRow(j: Json): (r: Option<ExcelRow>)
    ensures r.Some? <==> IsExcelRow(j)
    ensures r.Some? ==>
      && r.value.category == j.fields["category"].s
      && r.value.clue1 == j.fields["clue1"].s
      && r.value.clue2 == j.fields["clue2"].s
      && r.value.answer == j.fields["answer"].s
      && Some(r.value.letterCount) == LetterCount(j.fields["letterCount"])
    ensures r.Some? ==> r.value.imageUrl == Cell(j.fields, "imageUrl")
    ensures r.Some? ==> r.value.extraClue1 == Cell(j.fields, "extraClue1")
    ensures r.Some? ==> r.value.extraClue2 == Cell(j.fields, "extraClue2")
    ensures r.Some? ==> r.value.extraClue3 == Cell(j.fields, "extraClue3")
    ensures r.Some? ==> r.value.extraClue4 == Cell(j.fields, "extraClue4")
    ensures r.Some? ==> r.value.extraClue5 == Cell(j.fields, "extraClue5")
    ensures r.Some? ==> r.value.extraClue6 == Cell(j.fields, "extraClue6")
    ensures r.Some? ==> r.value.missingText == Cell(j.fields, "missingText")
  {
    if !j.JObj? then None
    else
      var f := j.fields;
      var category := RequiredString(f, "category");
      var clue1 := RequiredString(f, "clue1");
      var clue2 := RequiredString(f, "clue2");
      var answer := RequiredString(f, "answer");
      var letterCount := if "letterCount" in f then LetterCount(f["letterCount"]) else None;
      var imageUrl := OptionalString(f, "imageUrl");
      var e1 := OptionalString(f, "extraClue1");
      var e2 := OptionalString(f, "extraClue2");
      var e3 := OptionalString(f, "extraClue3");
      var e4 := OptionalString(f, "extraClue4");
      var e5 := OptionalString(f, "extraClue5");
      var e6 := OptionalString(f, "extraClue6");
      var missingText := OptionalString(f, "missingText");
      if category.None? || clue1.None? || clue2.None? || answer.None? || letterCount.None?
         || imageUrl.None? || e1.None? || e2.None? || e3.None? || e4.None? || e5.None?
         || e6.None? || missingText.None?
      then
        None
      else
        Some(ExcelRow(category.value, clue1.value, clue2.value, answer.value, letterCount.value,
                      imageUrl.value, e1.value, e2.value, e3.value, e4.value, e5.value, e6.value,
                      missingText.value))
  }

  /** The whole import payload: an array whose every row validates. */
  function ParseExcelData(j: Json): (r: Option<seq<ExcelRow>>)
    ensures r.Some? <==> j.JArr? && forall i :: 0 <= i < |j.items| ==> IsExcelRow(j.items[i])
    ensures r.Some? ==> |r.value| == |j.items|
    ensures r.Some? ==> forall i :: 0 <= i < |j.items| ==> Some(r.value[i]) == ParseExcelRow(j.items[i])
  {
    if j.JArr? then ParseRows(j.items) else None
  }

  function ParseRows(items: seq<Json>): (r: Option<seq<ExcelRow>>)
    ensures r.Some? <==> forall i :: 0 <= i < |items| ==> IsExcelRow(items[i])
    ensures r.Some? ==> |r.value| == |items|
    ensures r.Some? ==> forall i :: 0 <= i < |items| ==> Some(r.value[i]) == ParseExcelRow(items[i])
  {
    if items == [] then Some([])
    else
      var head := ParseExcelRow(items[0]);
      var tail := ParseRows(items[1..]);
      if head.None? || tail.None? then
        assert head.None? ==> !IsExcelRow(items[0]);
        assert tail.None? ==> exists i :: 1 <= i < |items| && !IsExcelRow(items[i]) by {
          if tail.None? {
            var i :| 0 <= i < |items[1..]| && !IsExcelRow(items[1..][i]);
            assert items[1..][i] == items[i + 1];
          }
        }
        None
      else
        var rows := [head.value] + tail.value;
        assert forall i :: 1 <= i < |items| ==> items[i] == items[1..][i - 1];
        Some(rows)
  }
}
