/**
 * The in-memory record store (server/storage.ts, class MemStorage).
 *
 * Each JavaScript `Map` of the source is held as the sequence of its values
 * in iteration order. The numeric maps always store a record under the
 * record's own `id`, and the settings map under the setting's `key`, so the
 * key of every entry is a field of its value. `set` on a new key appends,
 * `set` on a present key replaces in place, `delete` removes in place and
 * `clear` empties: exactly how those operations change a `Map`'s order.
 */
module Storage {
  import opened Wrappers
  import opened Schema

  /** The eight categories seeded at start-up, in creation order. */
  const DefaultCategories: seq<InsertGameCategory> := [
    InsertGameCategory("بحر حرب", "fa-water", "عكس الكلمات بنفس الحروف"),
    InsertGameCategory("تنقيص حرف", "fa-minus-circle", "اكتشف الكلمة مع نقص حرف"),
    InsertGameCategory("متلازمة", "fa-link", "اربط بين الكلمات المتلازمة"),
    InsertGameCategory("بتر أطراف", "fa-cut", "كلمات مع حذف أطرافها"),
    InsertGameCategory("نادل حمام", "fa-bath", "إيجاد الكلمات مع تغيير حرف من كل كلمة"),
    InsertGameCategory("معادلة", "fa-equals", "حل المعادلات اللغوية"),
    InsertGameCategory("بحر بحر", "fa-water", "إيجاد الكلمات نفس الحروف والترتيب"),
    InsertGameCategory("تخمين أسماء", "fa-user-tag", "خمن الأسماء من التلميحات")
  ]

  // The invariant of each numeric table: ids lie in [1, next) and strictly
  // increase in iteration order (so each id is stored once).

  ghost predicate CategoriesOk(cs: seq<GameCategory>, next: int) {
    && 1 <= next
    && (forall i :: 0 <= i < |cs| ==> 1 <= cs[i].id < next)
    && (forall i, j :: 0 <= i < j < |cs| ==> cs[i].id < cs[j].id)
  }

  /** Ids strictly increase along the listing. */
  ghost predicate QuestionIdsAscending(qs: seq<GameQuestion>) {
    forall i, j :: 0 <= i < j < |qs| ==> qs[i].id < qs[j].id
  }

  ghost predicate QuestionsOk(qs: seq<GameQuestion>, next: int) {
    && 1 <= next
    && (forall i :: 0 <= i < |qs| ==> 1 <= qs[i].id < next)
    && QuestionIdsAscending(qs)
  }

  ghost predicate PlayersOk(ps: seq<Player>, next: int) {
    && 1 <= next
    && (forall i :: 0 <= i < |ps| ==> 1 <= ps[i].id < next)
    && (forall i, j :: 0 <= i < j < |ps| ==> ps[i].id < ps[j].id)
  }

  ghost predicate PenaltiesOk(ps: seq<Penalty>, next: int) {
    && 1 <= next
    && (forall i :: 0 <= i < |ps| ==> 1 <= ps[i].id < next)
    && (forall i, j :: 0 <= i < j < |ps| ==> ps[i].id < ps[j].id)
  }

  /** Settings: keys unique, ids unique and below the counter. */
  ghost predicate SettingsOk(ss: seq<Setting>, next: int) {
    && 1 <= next
    && (forall i :: 0 <= i < |ss| ==> 1 <= ss[i].id < next)
    && (forall i, j :: 0 <= i < j < |ss| ==> ss[i].key != ss[j].key && ss[i].id != ss[j].id)
  }

  // `Map.get`: the position of the entry with that key, if any.

  function FindCategory(cs: seq<GameCategory>, id: int): (r: Option<nat>)
    ensures r.Some? ==> r.value < |cs| && cs[r.value].id == id
    ensures r.None? ==> forall i :: 0 <= i < |cs| ==> cs[i].id != id
  {
    if cs == [] then None
    else if cs[|cs| - 1].id == id then Some(|cs| - 1)
    else FindCategory(cs[..|cs| - 1], id)
  }

  function FindQuestion(qs: seq<GameQuestion>, id: int): (r: Option<nat>)
    ensures r.Some? ==> r.value < |qs| && qs[r.value].id == id
    ensures r.None? ==> forall i :: 0 <= i < |qs| ==> qs[i].id != id
  {
    if qs == [] then None
    else if qs[|qs| - 1].id == id then Some(|qs| - 1)
    else FindQuestion(qs[..|qs| - 1], id)
  }

  function FindPlayer(ps: seq<Player>, id: int): (r: Option<nat>)
    ensures r.Some? ==> r.value < |ps| && ps[r.value].id == id
    ensures r.None? ==> forall i :: 0 <= i < |ps| ==> ps[i].id != id
  {
    if ps == [] then None
    else if ps[|ps| - 1].id == id then Some(|ps| - 1)
    else FindPlayer(ps[..|ps| - 1], id)
  }

  function FindPenalty(ps: seq<Penalty>, id: int): (r: Option<nat>)
    ensures r.Some? ==> r.value < |ps| && ps[r.value].id == id
    ensures r.None? ==> forall i :: 0 <= i < |ps| ==> ps[i].id != id
  {
    if ps == [] then None
    else if ps[|ps| - 1].id == id then Some(|ps| - 1)
    else FindPenalty(ps[..|ps| - 1], id)
  }

  function FindSetting(ss: seq<Setting>, key: string): (r: Option<nat>)
    ensures r.Some? ==> r.value < |ss| && ss[r.value].key == key
    ensures r.None? ==> forall i :: 0 <= i < |ss| ==> ss[i].key != key
  {
    if ss == [] then None
    else if ss[|ss| - 1].key == key then Some(|ss| - 1)
    else FindSetting(ss[..|ss| - 1], key)
  }

  /** `s` without its element at position `i`, the others keeping their order. */
  function RemoveAt<T>(s: seq<T>, i: nat): (r: seq<T>)
    requires i < |s|
    ensures |r| == |s| - 1
    ensures forall j :: 0 <= j < i ==> r[j] == s[j]
    ensures forall j :: i <= j < |r| ==> r[j] == s[j + 1]
  {
    s[..i] + s[i + 1..]
  }

  /** `getAllGameQuestions().filter(q => q.categoryId === c)`, keeping the listing order. */
  function FilterByCategory(qs: seq<GameQuestion>, c: int): (r: seq<GameQuestion>)
    ensures |r| <= |qs|
    ensures forall q :: q in r ==> q in qs && q.categoryId == c
  {
    if qs == [] then []
    else (if qs[0].categoryId == c then [qs[0]] else []) + FilterByCategory(qs[1..], c)
  }

  /** Every matching question is kept: the filter is exactly the matching subset. */
  lemma {:induction false} FilterByCategoryComplete(qs: seq<GameQuestion>, c: int, q: GameQuestion)
    requires q in qs && q.categoryId == c
    ensures q in FilterByCategory(qs, c)
  {
    if qs[0] != q {
      assert q in qs[1..];
      FilterByCategoryComplete(qs[1..], c, q);
    }
  }

  /** The filter is empty exactly when no question has that category. */
  lemma FilterByCategoryEmpty(qs: seq<GameQuestion>, c: int)
    ensures FilterByCategory(qs, c) == [] <==> forall q :: q in qs ==> q.categoryId != c
  {
    if exists q :: q in qs && q.categoryId == c {
      var q :| q in qs && q.categoryId == c;
      FilterByCategoryComplete(qs, c, q);
    }
  }

  /** A question appended to the store shows up at the end of its category's listing only. */
  lemma {:induction false} FilterByCategoryAppend(qs: seq<GameQuestion>, q: GameQuestion, c: int)
    ensures FilterByCategory(qs + [q], c) ==
      FilterByCategory(qs, c) + (if q.categoryId == c then [q] else [])
  {
    if qs == [] {
      assert [] + [q] == [q];
    } else {
      assert (qs + [q])[1..] == qs[1..] + [q];
      FilterByCategoryAppend(qs[1..], q, c);
    }
  }

  lemma AscendingCons(q: GameQuestion, qs: seq<GameQuestion>)
    requires QuestionIdsAscending(qs)
    requires forall k :: 0 <= k < |qs| ==> q.id < qs[k].id
    ensures QuestionIdsAscending([q] + qs)
  {
    var r := [q] + qs;
    forall i, j | 0 <= i < j < |r| ensures r[i].id < r[j].id {
      assert r[j] == qs[j - 1];
      if i > 0 {
        assert r[i] == qs[i - 1];
      }
    }
  }

  /** The filter keeps the listing order: increasing ids stay increasing. */
  lemma {:induction false} FilterByCategoryOrdered(qs: seq<GameQuestion>, c: int)
    requires QuestionIdsAscending(qs)
    ensures QuestionIdsAscending(FilterByCategory(qs, c))
  {
    if qs != [] {
      var tail := qs[1..];
      assert QuestionIdsAscending(tail) by {
        forall i, j | 0 <= i < j < |tail| ensures tail[i].id < tail[j].id {
          assert tail[i] == qs[i + 1] && tail[j] == qs[j + 1];
        }
      }
      FilterByCategoryOrdered(tail, c);
      var rt := FilterByCategory(tail, c);
      if qs[0].categoryId == c {
        forall k | 0 <= k < |rt| ensures qs[0].id < rt[k].id {
          assert rt[k] in tail;
        }
        AscendingCons(qs[0], rt);
      } else {
        assert FilterByCategory(qs, c) == [] + rt;
      }
    }
  }

  class MemStorage {
    var gameCategories: seq<GameCategory>
    var gameQuestions: seq<GameQuestion>
    var players: seq<Player>
    var penalties: seq<Penalty>
    var settings: seq<Setting>
    var currentCategoryId: int
    var currentQuestionId: int
    var currentPlayerId: int
    var currentPenaltyId: int
    var currentSettingId: int

    ghost predicate Valid()
      reads this
    {
      && CategoriesOk(gameCategories, currentCategoryId)
      && QuestionsOk(gameQuestions, currentQuestionId)
      && PlayersOk(players, currentPlayerId)
      && PenaltiesOk(penalties, currentPenaltyId)
      && SettingsOk(settings, currentSettingId)
    }

    /** A fresh store: the eight default categories with ids 1 to 8, everything else empty. */
    constructor ()
      ensures Valid()
      ensures |gameCategories| == |DefaultCategories|
      ensures forall i :: 0 <= i < |DefaultCategories| ==>
        gameCategories[i] == CategoryWithId(DefaultCategories[i], i + 1)
      ensures currentCategoryId == |DefaultCategories| + 1
      ensures gameQuestions == [] && currentQuestionId == 1
      ensures players == [] && currentPlayerId == 1
      ensures penalties == [] && currentPenaltyId == 1
      ensures settings == [] && currentSettingId == 1
    {
      gameCategories := [];
      gameQuestions := [];
      players := [];
      penalties := [];
      settings := [];
      currentCategoryId := 1;
      currentQuestionId := 1;
      currentPlayerId := 1;
      currentPenaltyId := 1;
      currentSettingId := 1;
      new;
      InitializeDefaultGameCategories();
    }

    /** Creates each default category in turn. */
    method InitializeDefaultGameCategories()
      requires Valid()
      modifies this
      ensures Valid()
      ensures currentCategoryId == old(currentCategoryId) + |DefaultCategories|
      ensures |gameCategories| == |old(gameCategories)| + |DefaultCategories|
      ensures gameCategories[..|old(gameCategories)|] == old(gameCategories)
      ensures forall i :: 0 <= i < |DefaultCategories| ==>
        gameCategories[|old(gameCategories)| + i] == CategoryWithId(DefaultCategories[i], old(currentCategoryId) + i)
      ensures gameQuestions == old(gameQuestions) && currentQuestionId == old(currentQuestionId)
      ensures players == old(players) && currentPlayerId == old(currentPlayerId)
      ensures penalties == old(penalties) && currentPenaltyId == old(currentPenaltyId)
      ensures settings == old(settings) && currentSettingId == old(currentSettingId)
    {
      for i := 0 to |DefaultCategories|
        invariant Valid()
        invariant currentCategoryId == old(currentCategoryId) + i
        invariant |gameCategories| == |old(gameCategories)| + i
        invariant gameCategories[..|old(gameCategories)|] == old(gameCategories)
        invariant forall j :: 0 <= j < i ==>
          gameCategories[|old(gameCategories)| + j] == CategoryWithId(DefaultCategories[j], old(currentCategoryId) + j)
        invariant gameQuestions == old(gameQuestions) && currentQuestionId == old(currentQuestionId)
        invariant players == old(players) && currentPlayerId == old(currentPlayerId)
        invariant penalties == old(penalties) && currentPenaltyId == old(currentPenaltyId)
        invariant settings == old(settings) && currentSettingId == old(currentSettingId)
      {
        var _ := CreateGameCategory(DefaultCategories[i]);
      }
    }

    /** All categories in iteration order: strictly increasing ids. */
    function GetAllGameCategories(): (r: seq<GameCategory>)
      reads this
      requires Valid()
      ensures forall i, j :: 0 <= i < j < |r| ==> r[i].id < r[j].id
    {
      gameCategories
    }

    /** The category with this id, agreeing with the listing. */
    function GetGameCategory(id: int): (r: Option<GameCategory>)
      reads this
      ensures r.Some? ==> r.value.id == id && r.value in gameCategories
      ensures r.None? ==> forall c :: c in gameCategories ==> c.id != id
    {
      match FindCategory(gameCategories, id)
      case Some(i) => Some(gameCategories[i])
      case None => None
    }

    method CreateGameCategory(category: InsertGameCategory) returns (r: GameCategory)
      requires Valid()
      modifies this
      ensures Valid()
      ensures r == CategoryWithId(category, old(currentCategoryId))
      ensures currentCategoryId == old(currentCategoryId) + 1
      ensures gameCategories == old(gameCategories) + [r]
      ensures gameQuestions == old(gameQuestions) && currentQuestionId == old(currentQuestionId)
      ensures players == old(players) && currentPlayerId == old(currentPlayerId)
      ensures penalties == old(penalties) && currentPenaltyId == old(currentPenaltyId)
      ensures settings == old(settings) && currentSettingId == old(currentSettingId)
    {
      var id := currentCategoryId;
      currentCategoryId := currentCategoryId + 1;
      r := CategoryWithId(category, id);
      gameCategories := gameCategories + [r];
    }

    /** All questions in iteration order: strictly increasing ids. */
    function GetAllGameQuestions(): (r: seq<GameQuestion>)
      reads this
      requires Valid()
      ensures forall i, j :: 0 <= i < j < |r| ==> r[i].id < r[j].id
    {
      gameQuestions
    }

    /** Exactly the stored questions of that category, in listing order; empty when none match. */
    function GetGameQuestionsByCategoryId(categoryId: int): (r: seq<GameQuestion>)
      reads this
      requires Valid()
      ensures forall q :: q in r <==> q in gameQuestions && q.categoryId == categoryId
      ensures r == [] <==> forall q :: q in gameQuestions ==> q.categoryId != categoryId
      ensures QuestionIdsAscending(r)
    {
      FilterByCategoryEmpty(gameQuestions, categoryId);
      FilterByCategoryOrdered(gameQuestions, categoryId);
      assert forall q :: q in gameQuestions && q.categoryId == categoryId ==>
        q in FilterByCategory(gameQuestions, categoryId) by {
        forall q | q in gameQuestions && q.categoryId == categoryId
          ensures q in FilterByCategory(gameQuestions, categoryId)
        {
          FilterByCategoryComplete(gameQuestions, categoryId, q);
        }
      }
      FilterByCategory(gameQuestions, categoryId)
    }

    /** The question with this id, agreeing with the listing. */
    function GetGameQuestion(id: int): (r: Option<GameQuestion>)
      reads this
      ensures r.Some? ==> r.value.id == id && r.value in gameQuestions
      ensures r.None? ==> forall q :: q in gameQuestions ==> q.id != id
    {
      match FindQuestion(gameQuestions, id)
      case Some(i) => Some(gameQuestions[i])
      case None => None
    }

    method CreateGameQuestion(question: InsertGameQuestion) returns (r: GameQuestion)
      requires Valid()
      modifies this
      ensures Valid()
      ensures r == QuestionWithId(question, old(currentQuestionId))
      ensures currentQuestionId == old(currentQuestionId) + 1
      ensures gameQuestions == old(gameQuestions) + [r]
      ensures gameCategories == old(gameCategories) && currentCategoryId == old(currentCategoryId)
      ensures players == old(players) && currentPlayerId == old(currentPlayerId)
      ensures penalties == old(penalties) && currentPenaltyId == old(currentPenaltyId)
      ensures settings == old(settings) && currentSettingId == old(currentSettingId)
    {
      var id := currentQuestionId;
      currentQuestionId := currentQuestionId + 1;
      r := QuestionWithId(question, id);
      gameQuestions := gameQuestions + [r];
    }

    /**
     * Creates the questions one after another: one record per input, in
     * input order, with consecutive ids starting at the counter's old value.
     */
    method BulkCreateGameQuestions(questions: seq<InsertGameQuestion>) returns (created: seq<GameQuestion>)
      requires Valid()
      modifies this
      ensures Valid()
      ensures |created| == |questions|
      ensures forall i :: 0 <= i < |questions| ==>
        created[i] == QuestionWithId(questions[i], old(currentQuestionId) + i)
      ensures currentQuestionId == old(currentQuestionId) + |questions|
      ensures gameQuestions == old(gameQuestions) + created
      ensures gameCategories == old(gameCategories) && currentCategoryId == old(currentCategoryId)
      ensures players == old(players) && currentPlayerId == old(currentPlayerId)
      ensures penalties == old(penalties) && currentPenaltyId == old(currentPenaltyId)
      ensures settings == old(settings) && currentSettingId == old(currentSettingId)
    {
      created := [];
      for i := 0 to |questions|
        invariant Valid()
        invariant |created| == i
        invariant forall j :: 0 <= j < i ==> created[j] == QuestionWithId(questions[j], old(currentQuestionId) + j)
        invariant currentQuestionId == old(currentQuestionId) + i
        invariant gameQuestions == old(gameQuestions) + created
        invariant gameCategories == old(gameCategories) && currentCategoryId == old(currentCategoryId)
        invariant players == old(players) && currentPlayerId == old(currentPlayerId)
        invariant penalties == old(penalties) && currentPenaltyId == old(currentPenaltyId)
        invariant settings == old(settings) && currentSettingId == old(currentSettingId)
      {
        var q := CreateGameQuestion(questions[i]);
        created := created + [q];
      }
    }

    /** Empties the question table and restarts its ids at 1. */
    method DeleteAllGameQuestions()
      requires Valid()
      modifies this
      ensures Valid()
      ensures gameQuestions == [] && currentQuestionId == 1
      ensures gameCategories == old(gameCategories) && currentCategoryId == old(currentCategoryId)
      ensures players == old(players) && currentPlayerId == old(currentPlayerId)
      ensures penalties == old(penalties) && currentPenaltyId == old(currentPenaltyId)
      ensures settings == old(settings) && currentSettingId == old(currentSettingId)
    {
      gameQuestions := [];
      currentQuestionId := 1;
    }

    /** All players in iteration order: strictly increasing ids. */
    function GetAllPlayers(): (r: seq<Player>)
      reads this
      requires Valid()
      ensures forall i, j :: 0 <= i < j < |r| ==> r[i].id < r[j].id
    {
      players
    }

    /** The player with this id, agreeing with the listing. */
    function GetPlayer(id: int): (r: Option<Player>)
      reads this
      ensures r.Some? ==> r.value.id == id && r.value in players
      ensures r.None? ==> forall p :: p in players ==> p.id != id
    {
      match FindPlayer(players, id)
      case Some(i) => Some(players[i])
      case None => None
    }

    method CreatePlayer(player: InsertPlayer) returns (r: Player)
      requires Valid()
      modifies this
      ensures Valid()
      ensures r == PlayerWithId(player, old(currentPlayerId))
      ensures currentPlayerId == old(currentPlayerId) + 1
      ensures players == old(players) + [r]
      ensures gameCategories == old(gameCategories) && currentCategoryId == old(currentCategoryId)
      ensures gameQuestions == old(gameQuestions) && currentQuestionId == old(currentQuestionId)
      ensures penalties == old(penalties) && currentPenaltyId == old(currentPenaltyId)
      ensures settings == old(settings) && currentSettingId == old(currentSettingId)
    {
      var id := currentPlayerId;
      currentPlayerId := currentPlayerId + 1;
      r := PlayerWithId(player, id);
      players := players + [r];
    }

    /**
     * Replaces the score of an existing player, keeping its id, name and
     * place in the listing; an absent id changes nothing and gives `None`.
     */
    method UpdatePlayerScore(id: int, score: int) returns (r: Option<Player>)
      requires Valid()
      modifies this
      ensures Valid()
      ensures old(FindPlayer(players, id)).None? ==> r.None? && players == old(players)
      ensures old(FindPlayer(players, id)).Some? ==>
        var i := old(FindPlayer(players, id)).value;
        && r == Some(old(players)[i].(score := score))
        && players == old(players)[i := r.value]
      ensures currentPlayerId == old(currentPlayerId)
      ensures gameCategories == old(gameCategories) && currentCategoryId == old(currentCategoryId)
      ensures gameQuestions == old(gameQuestions) && currentQuestionId == old(currentQuestionId)
      ensures penalties == old(penalties) && currentPenaltyId == old(currentPenaltyId)
      ensures settings == old(settings) && currentSettingId == old(currentSettingId)
    {
      var found := FindPlayer(players, id);
      if found.Some? {
        var updated := players[found.value].(score := score);
        players := players[found.value := updated];
        r := Some(updated);
      } else {
        r := None;
      }
    }

    /** Removes that player only; an absent id is a no-op. Counters are untouched. */
    method DeletePlayer(id: int)
      requires Valid()
      modifies this
      ensures Valid()
      ensures old(FindPlayer(players, id)).None? ==> players == old(players)
      ensures old(FindPlayer(players, id)).Some? ==>
        players == RemoveAt(old(players), old(FindPlayer(players, id)).value)
      ensures currentPlayerId == old(currentPlayerId)
      ensures gameCategories == old(gameCategories) && currentCategoryId == old(currentCategoryId)
      ensures gameQuestions == old(gameQuestions) && currentQuestionId == old(currentQuestionId)
      ensures penalties == old(penalties) && currentPenaltyId == old(currentPenaltyId)
      ensures settings == old(settings) && currentSettingId == old(currentSettingId)
    {
      var found := FindPlayer(players, id);
      if found.Some? {
        players := RemoveAt(players, found.value);
      }
    }

    /** Sets every score to 0, keeping each player's id, name and place. */
    method ResetAllScores()
      requires Valid()
      modifies this
      ensures Valid()
      ensures |players| == |old(players)|
      ensures forall i :: 0 <= i < |players| ==> players[i] == old(players)[i].(score := 0)
      ensures currentPlayerId == old(currentPlayerId)
      ensures gameCategories == old(gameCategories) && currentCategoryId == old(currentCategoryId)
      ensures gameQuestions == old(gameQuestions) && currentQuestionId == old(currentQuestionId)
      ensures penalties == old(penalties) && currentPenaltyId == old(currentPenaltyId)
      ensures settings == old(settings) && currentSettingId == old(currentSettingId)
    {
      for i := 0 to |players|
        invariant Valid()
        invariant |players| == |old(players)| && currentPlayerId == old(currentPlayerId)
        invariant forall j :: 0 <= j < i ==> players[j] == old(players)[j].(score := 0)
        invariant forall j :: i <= j < |players| ==> players[j] == old(players)[j]
        invariant gameCategories == old(gameCategories) && currentCategoryId == old(currentCategoryId)
        invariant gameQuestions == old(gameQuestions) && currentQuestionId == old(currentQuestionId)
        invariant penalties == old(penalties) && currentPenaltyId == old(currentPenaltyId)
        invariant settings == old(settings) && currentSettingId == old(currentSettingId)
      {
        players := players[i := players[i].(score := 0)];
      }
    }

    /** All penalties in iteration order: strictly increasing ids. */
    function GetAllPenalties(): (r: seq<Penalty>)
      reads this
      requires Valid()
      ensures forall i, j :: 0 <= i < j < |r| ==> r[i].id < r[j].id
    {
      penalties
    }

    /** The penalty with this id, agreeing with the listing. */
    function GetPenalty(id: int): (r: Option<Penalty>)
      reads this
      ensures r.Some? ==> r.value.id == id && r.value in penalties
      ensures r.None? ==> forall p :: p in penalties ==> p.id != id
    {
      match FindPenalty(penalties, id)
      case Some(i) => Some(penalties[i])
      case None => None
    }

    method CreatePenalty(penalty: InsertPenalty) returns (r: Penalty)
      requires Valid()
      modifies this
      ensures Valid()
      ensures r == PenaltyWithId(penalty, old(currentPenaltyId))
      ensures currentPenaltyId == old(currentPenaltyId) + 1
      ensures penalties == old(penalties) + [r]
      ensures gameCategories == old(gameCategories) && currentCategoryId == old(currentCategoryId)
      ensures gameQuestions == old(gameQuestions) && currentQuestionId == old(currentQuestionId)
      ensures players == old(players) && currentPlayerId == old(currentPlayerId)
      ensures settings == old(settings) && currentSettingId == old(currentSettingId)
    {
      var id := currentPenaltyId;
      currentPenaltyId := currentPenaltyId + 1;
      r := PenaltyWithId(penalty, id);
      penalties := penalties + [r];
    }

    /** Removes that penalty only; an absent id is a no-op. Counters are untouched. */
    method DeletePenalty(id: int)
      requires Valid()
      modifies this
      ensures Valid()
      ensures old(FindPenalty(penalties, id)).None? ==> penalties == old(penalties)
      ensures old(FindPenalty(penalties, id)).Some? ==>
        penalties == RemoveAt(old(penalties), old(FindPenalty(penalties, id)).value)
      ensures currentPenaltyId == old(currentPenaltyId)
      ensures gameCategories == old(gameCategories) && currentCategoryId == old(currentCategoryId)
      ensures gameQuestions == old(gameQuestions) && currentQuestionId == old(currentQuestionId)
      ensures players == old(players) && currentPlayerId == old(currentPlayerId)
      ensures settings == old(settings) && currentSettingId == old(currentSettingId)
    {
      var found := FindPenalty(penalties, id);
      if found.Some? {
        penalties := RemoveAt(penalties, found.value);
      }
    }

    /** Empties the penalty table and restarts its ids at 1. */
    method DeleteAllPenalties()
      requires Valid()
      modifies this
      ensures Valid()
      ensures penalties == [] && currentPenaltyId == 1
      ensures gameCategories == old(gameCategories) && currentCategoryId == old(currentCategoryId)
      ensures gameQuestions == old(gameQuestions) && currentQuestionId == old(currentQuestionId)
      ensures players == old(players) && currentPlayerId == old(currentPlayerId)
      ensures settings == old(settings) && currentSettingId == old(currentSettingId)
    {
      penalties := [];
      currentPenaltyId := 1;
    }

    /** The setting stored under this key. */
    function GetSetting(key: string): (r: Option<Setting>)
      reads this
      ensures r.Some? ==> r.value.key == key && r.value in settings
      ensures r.None? ==> forall s :: s in settings ==> s.key != key
    {
      match FindSetting(settings, key)
      case Some(i) => Some(settings[i])
      case None => None
    }

    /**
     * Upsert by key: an existing setting keeps its id and place and takes
     * the new value; otherwise a new setting with the next id is appended.
     */
    method CreateOrUpdateSetting(key: string, value: string) returns (r: Setting)
      requires Valid()
      modifies this
      ensures Valid()
      ensures old(FindSetting(settings, key)).Some? ==>
        var i := old(FindSetting(settings, key)).value;
        && r == old(settings)[i].(value := value)
        && settings == old(settings)[i := r]
        && currentSettingId == old(currentSettingId)
      ensures old(FindSetting(settings, key)).None? ==>
        && r == Setting(old(currentSettingId), key, value)
        && settings == old(settings) + [r]
        && currentSettingId == old(currentSettingId) + 1
      ensures gameCategories == old(gameCategories) && currentCategoryId == old(currentCategoryId)
      ensures gameQuestions == old(gameQuestions) && currentQuestionId == old(currentQuestionId)
      ensures players == old(players) && currentPlayerId == old(currentPlayerId)
      ensures penalties == old(penalties) && currentPenaltyId == old(currentPenaltyId)
    {
      var existing := FindSetting(settings, key);
      if existing.Some? {
        r := settings[existing.value].(value := value);
        settings := settings[existing.value := r];
      } else {
        var id := currentSettingId;
        currentSettingId := currentSettingId + 1;
        r := Setting(id, key, value);
        settings := settings + [r];
      }
    }
  }
}
