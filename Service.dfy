/**
 * The quiz service (`CuestionarioService`): quiz assembly from a question-bank
 * entry, the structured projection of a quiz, and the edit, delete and publish
 * operations. The repositories are the maps of one `QuizService` object; the
 * authenticated user is an explicit argument, and the alternatives lookup of
 * the question service is a function argument.
 */
module Service {
  import opened Wrappers
  import opened Json
  import opened Keys
  import opened Assembly

  /** The service's failures, carrying the messages of the exceptions it throws. */
  datatype Error =
    | NotFound(message: string)      // EntityNotFoundException
    | Wrapped(message: string)       // RuntimeException around whatever the try block caught
    | IndexOutOfBounds(index: nat)   // List.get past the end of a caller's list, not caught

  const UserNotFound := "Usuario no encontrado"
  const BankEntryNotFound := "Pregunta no encontrada"
  const QuizNotFound := "Cuestionario no encontrado"
  const SelectionNotFound := "Pregunta seleccionada no encontrada"
  const QuestionsJsonError := "Error al procesar el JSON de preguntas"
  const AlternativesJsonError := "Error al procesar las alternativas JSON"

  /** A `Cuestionario` row with its ordered list of selected questions. */
  datatype Quiz = Quiz(title: string, description: string, owner: Id, selections: seq<Id>)

  /** A `PreguntaSeleccionada` row: owning quiz, source bank entry and its own copies. */
  datatype Selection = Selection(quiz: Id, bankEntry: Id, text: string, alternatives: Json, time: int, required: bool)

  /** A `PublicacionCuestionario` row; timestamps are opaque integers. */
  datatype Publication = Publication(quiz: Id, user: Id, start: int, end: int, url: string)

  /** `PreguntaSeleccionadaDTO` and `CuestionarioDTO`. */
  datatype SelectionView = SelectionView(id: Id, text: string, time: int, required: bool, alternatives: Object)
  datatype QuizView = QuizView(id: Id, title: string, description: string, selections: seq<SelectionView>)

  function Materialize(d: Draft, quiz: Id, bankEntry: Id): Selection
  {
    Selection(quiz, bankEntry, d.text, d.alternatives, d.time, d.required)
  }

  /**
   * The selections `crearCuestionario` saves for a bank entry's stored JSON,
   * and whether it then throws: a text that is not a flat object throws
   * before any selection is saved.
   */
  function Plan(entry: Json, req: Request, alternativesOf: (Id, int) -> Object): Progress
  {
    match ReadObject(entry)
    case None => Progress([], true)
    case Some(bank) => Assembled(bank, req, alternativesOf, |req.keys|)
  }

  /** The identifiers base, base + 1, ..., base + n - 1. */
  function IdRange(base: nat, n: nat): (ids: seq<Id>)
    ensures |ids| == n && forall j :: 0 <= j < n ==> ids[j] == base + j
    ensures forall s :: s in ids <==> base <= s < base + n
  {
    if n == 0 then [] else IdRange(base, n - 1) + [base + n - 1]
  }

  function Min(a: nat, b: nat): nat
  {
    if a < b then a else b
  }

  predicate Distinct(ids: seq<Id>)
  {
    forall j, k :: 0 <= j < k < |ids| ==> ids[j] != ids[k]
  }

  /** The list without the identifier x, the others kept in order. */
  function Without(ids: seq<Id>, x: Id): (r: seq<Id>)
    ensures forall y :: y in r <==> y in ids && y != x
    ensures Distinct(ids) ==> Distinct(r)
    ensures x in ids && Distinct(ids) ==> |r| == |ids| - 1
    ensures x !in ids ==> r == ids
  {
    if ids == [] then []
    else
      var rest := Without(ids[1..], x);
      assert Distinct(ids) ==> ids[0] !in ids[1..];
      if ids[0] == x then rest else [ids[0]] + rest
  }

  /**
   * In a list without repetitions, removing the identifier at position i
   * leaves the identifiers before it and after it, in their order.
   */
  lemma {:induction false} WithoutSplice(ids: seq<Id>, x: Id, i: nat)
    requires Distinct(ids) && i < |ids| && ids[i] == x
    ensures Without(ids, x) == ids[..i] + ids[i + 1..]
  {
    assert ids[0] !in ids[1..];
    assert Distinct(ids[1..]);
    if i == 0 {
      assert x !in ids[1..];
    } else {
      WithoutSplice(ids[1..], x, i - 1);
      assert ids[1..][..i - 1] + ids[1..][i..] == ids[1..i] + ids[i + 1..];
      assert ids[..i] == [ids[0]] + ids[1..i];
    }
  }

  /**
   * Every selection belongs to exactly one quiz: each quiz lists only
   * selections that point back to it, each at most once, and each selection
   * is listed by the quiz it points to.
   */
  ghost predicate Consistent(quizzes: map<Id, Quiz>, selections: map<Id, Selection>)
  {
    (forall q, j :: q in quizzes && 0 <= j < |quizzes[q].selections| ==>
       quizzes[q].selections[j] in selections && selections[quizzes[q].selections[j]].quiz == q) &&
    (forall q :: q in quizzes ==> Distinct(quizzes[q].selections)) &&
    (forall s :: s in selections ==>
       selections[s].quiz in quizzes && s in quizzes[selections[s].quiz].selections)
  }

  /** The prefix one longer holds one more identifier. */
  lemma PrefixStep(ids: seq<Id>, i: nat)
    requires i < |ids|
    ensures forall s :: s in ids[..i + 1] <==> s in ids[..i] || s == ids[i]
  {
    assert ids[..i + 1] == ids[..i] + [ids[i]];
  }

  /**
   * After the drafts `made`, the store `saved` is `before` plus one selection
   * of quiz q per draft, in order, under base, base + 1, ..., all listed.
   */
  ghost predicate SavedAs(before: map<Id, Selection>, saved: map<Id, Selection>, listed: seq<Id>,
                          base: Id, made: seq<Draft>, q: Id, bankEntry: Id)
  {
    listed == IdRange(base, |made|) &&
    (forall s :: s in saved <==> s in before || base <= s < base + |made|) &&
    (forall s :: s in before ==> saved[s] == before[s]) &&
    (forall j :: 0 <= j < |made| ==> saved[base + j] == Materialize(made[j], q, bankEntry))
  }

  /** Saving and listing one more draft under the next identifier. */
  lemma SavedStep(before: map<Id, Selection>, saved: map<Id, Selection>, listed: seq<Id>,
                  base: Id, made: seq<Draft>, q: Id, bankEntry: Id, d: Draft)
    requires forall s :: s in before ==> s < base
    requires SavedAs(before, saved, listed, base, made, q, bankEntry)
    ensures SavedAs(before, saved[base + |listed| := Materialize(d, q, bankEntry)], listed + [base + |listed|],
                    base, made + [d], q, bankEntry)
  {
  }

  /** The listed identifiers are new, distinct and name selections of quiz q. */
  lemma SavedListed(before: map<Id, Selection>, saved: map<Id, Selection>, listed: seq<Id>,
                    base: Id, made: seq<Draft>, q: Id, bankEntry: Id)
    requires forall s :: s in before ==> s < base
    requires SavedAs(before, saved, listed, base, made, q, bankEntry)
    ensures Distinct(listed)
    ensures forall j :: 0 <= j < |listed| ==> listed[j] !in before && listed[j] in saved && saved[listed[j]].quiz == q
  {
    forall j | 0 <= j < |listed|
      ensures listed[j] !in before && listed[j] in saved && saved[listed[j]].quiz == q
    {
      assert listed[j] == base + j;
      assert saved[base + j] == Materialize(made[j], q, bankEntry);
    }
  }

  /**
   * The loop of `crearCuestionario` over the requested keys, on the selection
   * store `before` whose identifiers are all below `base`: each usable key
   * saves one selection of quiz q under the next identifier and lists it; a
   * present key that cannot be processed stops the loop with a failure, the
   * selections saved until then staying saved.
   */
  method SaveSelections(before: map<Id, Selection>, base: Id, q: Id, entries: Object, req: Request,
                        alternativesOf: (Id, int) -> Object)
    returns (saved: map<Id, Selection>, listed: seq<Id>, failed: bool)
    requires forall s :: s in before ==> s < base
    ensures var p := Assembled(entries, req, alternativesOf, |req.keys|);
      failed == p.failed && SavedAs(before, saved, listed, base, p.drafts, q, req.bankId)
  {
    saved, listed, failed := before, [], false;
    ghost var made: seq<Draft> := [];
    var i := 0;
    while i < |req.keys|
      invariant 0 <= i <= |req.keys|
      invariant Assembled(entries, req, alternativesOf, i) == Progress(made, false)
      invariant SavedAs(before, saved, listed, base, made, q, req.bankId)
    {
      var key := req.keys[i];
      var text := Lookup(entries, key);
      if text.Some? {
        var index := KeyIndex(key);
        if index.None? || i >= |req.times| || i >= |req.required| {
          FailStep(entries, req, alternativesOf, i, made);
          failed := true;
          break;
        }
        var d := Draft(text.value, Serialize(alternativesOf(req.bankId, index.value)), req.times[i], req.required[i]);
        KeepStep(entries, req, alternativesOf, i, made, text.value, index.value);
        SavedStep(before, saved, listed, base, made, q, req.bankId, d);
        saved := saved[base + |listed| := Materialize(d, q, req.bankId)];
        listed := listed + [base + |listed|];
        made := made + [d];
      } else {
        SkipStep(entries, req, alternativesOf, i, made);
      }
      i := i + 1;
    }
  }

  /**
   * `after` is `before` with the first k selections of `ids` given the time
   * and required flag at the same position, and nothing else changed.
   */
  ghost predicate RetimedAs(before: map<Id, Selection>, after: map<Id, Selection>, ids: seq<Id>,
                            times: seq<int>, required: seq<bool>, k: nat)
  {
    k <= |ids| && k <= |times| && k <= |required| &&
    after.Keys == before.Keys &&
    (forall j :: 0 <= j < k ==> ids[j] in before && after[ids[j]] == before[ids[j]].(time := times[j], required := required[j])) &&
    (forall s :: s in before && s !in ids[..k] ==> after[s] == before[s])
  }

  /** Retiming the next selection of the list. */
  lemma RetimeStep(before: map<Id, Selection>, after: map<Id, Selection>, ids: seq<Id>,
                   times: seq<int>, required: seq<bool>, k: nat)
    requires Distinct(ids) && k < |ids| && k < |times| && k < |required| && ids[k] in after
    requires RetimedAs(before, after, ids, times, required, k)
    ensures RetimedAs(before, after[ids[k] := after[ids[k]].(time := times[k], required := required[k])],
                      ids, times, required, k + 1)
  {
    var after' := after[ids[k] := after[ids[k]].(time := times[k], required := required[k])];
    PrefixStep(ids, k);
    assert ids[k] !in ids[..k] by {
      forall j | 0 <= j < k ensures ids[..k][j] != ids[k] {
        assert ids[..k][j] == ids[j];
      }
    }
    assert after[ids[k]] == before[ids[k]];
    forall j | 0 <= j < k + 1
      ensures ids[j] in before && after'[ids[j]] == before[ids[j]].(time := times[j], required := required[j])
    {
      if j < k {
        assert ids[j] != ids[k];
      }
    }
  }

  /** Retiming leaves every selection with the quiz it had. */
  lemma RetimeKeepsQuiz(before: map<Id, Selection>, after: map<Id, Selection>, ids: seq<Id>,
                        times: seq<int>, required: seq<bool>, k: nat)
    requires RetimedAs(before, after, ids, times, required, k)
    ensures forall s :: s in after ==> after[s].quiz == before[s].quiz
  {
    forall s | s in after
      ensures after[s].quiz == before[s].quiz
    {
      if s in ids[..k] {
        var j :| 0 <= j < k && ids[..k][j] == s;
        assert ids[j] == s;
      }
    }
  }

  /**
   * Every selection `crearCuestionario` saves for an entry can be projected:
   * its alternatives decode, and flatten back to the entries the alternatives
   * lookup gave for the index of a requested key, whose question text it holds.
   */
  lemma CreatedSelectionsProject(entry: Json, req: Request, alternativesOf: (Id, int) -> Object,
                                 before: map<Id, Selection>, saved: map<Id, Selection>, listed: seq<Id>,
                                 base: Id, q: Id, j: nat)
    requires SavedAs(before, saved, listed, base, Plan(entry, req, alternativesOf).drafts, q, req.bankId)
    requires j < |listed|
    ensures listed[j] in saved && saved[listed[j]].quiz == q
    ensures var s := saved[listed[j]];
      DecodeAlternatives(s.alternatives).Some? &&
      exists i :: 0 <= i < |req.keys| && KeyIndex(req.keys[i]).Some? &&
        ReadObject(entry).Some? && Lookup(ReadObject(entry).value, req.keys[i]) == Some(s.text) &&
        Flatten(DecodeAlternatives(s.alternatives).value) == alternativesOf(req.bankId, KeyIndex(req.keys[i]).value)
  {
    var p := Plan(entry, req, alternativesOf);
    assert listed[j] == base + j;
    var s := saved[base + j];
    assert s == Materialize(p.drafts[j], q, req.bankId);
    assert ReadObject(entry).Some?;
    var bank := ReadObject(entry).value;
    assert p == Assembled(bank, req, alternativesOf, |req.keys|);
    StoredAlternativesRoundTrip(bank, req, alternativesOf, |req.keys|, j);
    var i :| 0 <= i < |req.keys| && Usable(bank, req, i) &&
      p.drafts[j].text == Lookup(bank, req.keys[i]).value &&
      p.drafts[j].time == req.times[i] && p.drafts[j].required == req.required[i] &&
      DecodeAlternatives(p.drafts[j].alternatives).Some? &&
      Flatten(DecodeAlternatives(p.drafts[j].alternatives).value) == alternativesOf(req.bankId, KeyIndex(req.keys[i]).value);
    assert Lookup(bank, req.keys[i]) == Some(s.text);
  }

  /** Saving a new quiz with no selections keeps the stores consistent. */
  lemma AddQuizKeepsConsistent(quizzes: map<Id, Quiz>, selections: map<Id, Selection>, q: Id, quiz: Quiz)
    requires Consistent(quizzes, selections)
    requires q !in quizzes && quiz.selections == []
    ensures Consistent(quizzes[q := quiz], selections)
  {
  }

  /**
   * Saving new selections of quiz q, all pointing back to q, and listing
   * them, once each, as q's selections keeps the stores consistent.
   */
  lemma AddSelectionsKeepsConsistent(quizzes: map<Id, Quiz>, selections: map<Id, Selection>, q: Id,
                                     saved: map<Id, Selection>, listed: seq<Id>)
    requires Consistent(quizzes, selections)
    requires q in quizzes && quizzes[q].selections == []
    requires Distinct(listed)
    requires forall j :: 0 <= j < |listed| ==> listed[j] !in selections
    requires forall s :: s in saved <==> s in selections || s in listed
    requires forall s :: s in selections ==> saved[s] == selections[s]
    requires forall j :: 0 <= j < |listed| ==> saved[listed[j]].quiz == q
    ensures Consistent(quizzes[q := quizzes[q].(selections := listed)], saved)
  {
    var quizzes' := quizzes[q := quizzes[q].(selections := listed)];
    forall t | t in saved
      ensures saved[t].quiz in quizzes' && t in quizzes'[saved[t].quiz].selections
    {
      if t in selections {
        var qt := selections[t].quiz;
        assert t in quizzes[qt].selections;
        assert qt != q;
      } else {
        var j :| 0 <= j < |listed| && listed[j] == t;
      }
    }
  }

  /** Changing fields other than the owning quiz keeps the stores consistent. */
  lemma RetimeKeepsConsistent(quizzes: map<Id, Quiz>, selections: map<Id, Selection>, selections': map<Id, Selection>)
    requires Consistent(quizzes, selections)
    requires selections'.Keys == selections.Keys
    requires forall s :: s in selections ==> selections'[s].quiz == selections[s].quiz
    ensures Consistent(quizzes, selections')
  {
  }

  /** Changing a quiz's title and description keeps the stores consistent. */
  lemma RenameKeepsConsistent(quizzes: map<Id, Quiz>, selections: map<Id, Selection>, id: Id,
                              title: string, description: string)
    requires Consistent(quizzes, selections) && id in quizzes
    ensures Consistent(quizzes[id := quizzes[id].(title := title, description := description)], selections)
  {
  }

  /** Deleting a quiz together with the selections it owns keeps the stores consistent. */
  lemma DeleteQuizKeepsConsistent(quizzes: map<Id, Quiz>, selections: map<Id, Selection>, id: Id)
    requires Consistent(quizzes, selections)
    ensures Consistent(quizzes - {id}, map s | s in selections && selections[s].quiz != id :: selections[s])
  {
  }

  /** Deleting a selection and dropping it from its quiz's list keeps the stores consistent. */
  lemma DeleteSelectionKeepsConsistent(quizzes: map<Id, Quiz>, selections: map<Id, Selection>, sid: Id)
    requires Consistent(quizzes, selections)
    requires sid in selections
    ensures var q := selections[sid].quiz;
      q in quizzes &&
      Consistent(quizzes[q := quizzes[q].(selections := Without(quizzes[q].selections, sid))], selections - {sid})
  {
    var q := selections[sid].quiz;
    var quizzes' := quizzes[q := quizzes[q].(selections := Without(quizzes[q].selections, sid))];
    var selections' := selections - {sid};
    forall q', j | q' in quizzes' && 0 <= j < |quizzes'[q'].selections|
      ensures quizzes'[q'].selections[j] in selections' && selections'[quizzes'[q'].selections[j]].quiz == q'
    {
      var t := quizzes'[q'].selections[j];
      assert t in quizzes[q'].selections && t != sid;
      var k :| 0 <= k < |quizzes[q'].selections| && quizzes[q'].selections[k] == t;
    }
    forall t | t in selections'
      ensures selections'[t].quiz in quizzes' && t in quizzes'[selections'[t].quiz].selections
    {
      assert t in quizzes[selections[t].quiz].selections;
    }
  }

  /**
   * What `crearCuestionario` does once the user is known, on the stores
   * alone: save `quiz` (listing nothing yet) under q, look the bank entry up
   * (`entry` is None when it is missing), then save and list the selections
   * the entry's keys give, under base, base + 1, ...
   */
  method SaveQuiz(quizzes: map<Id, Quiz>, selections: map<Id, Selection>, q: Id, base: Id, quiz: Quiz,
                  entry: Option<Json>, req: Request, alternativesOf: (Id, int) -> Object)
    returns (quizzes': map<Id, Quiz>, selections': map<Id, Selection>, added: nat, r: Result<Id, Error>)
    requires Consistent(quizzes, selections) && q !in quizzes && quiz.selections == []
    requires forall s :: s in selections ==> s < base
    ensures var p := if entry.Some? then Plan(entry.value, req, alternativesOf) else Progress([], true);
      added == |p.drafts| &&
      quizzes' == quizzes[q := quiz.(selections := IdRange(base, added))] &&
      SavedAs(selections, selections', IdRange(base, added), base, p.drafts, q, req.bankId) &&
      r == (if entry.None? then Failure(NotFound(BankEntryNotFound))
            else if p.failed then Failure(Wrapped(QuestionsJsonError))
            else Success(q))
    ensures Consistent(quizzes', selections')
    ensures forall s :: s in selections' ==> s < base + added
  {
    AddQuizKeepsConsistent(quizzes, selections, q, quiz);
    quizzes', selections', added := quizzes[q := quiz], selections, 0;
    assert quiz == quiz.(selections := IdRange(base, 0));
    if entry.None? {
      return quizzes', selections', added, Failure(NotFound(BankEntryNotFound));
    }
    var decoded := ReadObject(entry.value);
    if decoded.None? {
      return quizzes', selections', added, Failure(Wrapped(QuestionsJsonError));
    }
    var saved, listed, failed := SaveSelections(selections, base, q, decoded.value, req, alternativesOf);
    SavedListed(selections, saved, listed, base, Plan(entry.value, req, alternativesOf).drafts, q, req.bankId);
    assert forall s :: s in saved <==> s in selections || s in listed;
    AddSelectionsKeepsConsistent(quizzes', selections, q, saved, listed);
    quizzes' := quizzes[q := quiz.(selections := listed)];
    selections', added := saved, |listed|;
    r := if failed then Failure(Wrapped(QuestionsJsonError)) else Success(q);
  }

  class QuizService {
    /** The users the identity lookup resolves (`userRepository`). */
    const users: set<Id>
    /** The question bank: each entry's stored key-to-text JSON (`preguntaRepository`). */
    const bank: map<Id, Json>
    var quizzes: map<Id, Quiz>
    var selections: map<Id, Selection>
    var publications: map<Id, Publication>
    /** The next identifiers the database will generate. */
    var nextQuizId: Id
    var nextSelectionId: Id
    var nextPublicationId: Id

    ghost predicate Valid()
      reads this
    {
      (forall q :: q in quizzes ==> q < nextQuizId) &&
      (forall s :: s in selections ==> s < nextSelectionId) &&
      (forall p :: p in publications ==> p < nextPublicationId) &&
      Consistent(quizzes, selections)
    }

    constructor (users: set<Id>, bank: map<Id, Json>)
      ensures Valid()
      ensures this.users == users && this.bank == bank
      ensures quizzes == map[] && selections == map[] && publications == map[]
    {
      this.users := users;
      this.bank := bank;
      quizzes, selections, publications := map[], map[], map[];
      nextQuizId, nextSelectionId, nextPublicationId := 0, 0, 0;
    }

    /**
     * `crearCuestionario`. The quiz is saved, owned by the user, before the
     * bank entry is read; each usable key then saves one selection and adds
     * it to the quiz, so a later failure leaves the quiz and the selections
     * saved so far in place.
     */
    method CreateQuiz(user: Id, title: string, description: string, req: Request,
                      alternativesOf: (Id, int) -> Object)
      returns (r: Result<Id, Error>)
      requires Valid()
      modifies this
      ensures Valid()
      ensures publications == old(publications) && nextPublicationId == old(nextPublicationId)
      ensures user !in users ==>
        r == Failure(NotFound(UserNotFound)) &&
        quizzes == old(quizzes) && selections == old(selections) &&
        nextQuizId == old(nextQuizId) && nextSelectionId == old(nextSelectionId)
      ensures user in users ==>
        var q := old(nextQuizId);
        var base := old(nextSelectionId);
        var p := if req.bankId in bank then Plan(bank[req.bankId], req, alternativesOf) else Progress([], true);
        q !in old(quizzes) && nextQuizId == q + 1 &&
        quizzes == old(quizzes)[q := Quiz(title, description, user, IdRange(base, |p.drafts|))] &&
        nextSelectionId == base + |p.drafts| &&
        SavedAs(old(selections), selections, quizzes[q].selections, base, p.drafts, q, req.bankId) &&
        r == (if req.bankId !in bank then Failure(NotFound(BankEntryNotFound))
              else if p.failed then Failure(Wrapped(QuestionsJsonError))
              else Success(q))
    {
      if user !in users {
        return Failure(NotFound(UserNotFound));
      }
      var entry := if req.bankId in bank then Some(bank[req.bankId]) else None;
      var added;
      quizzes, selections, added, r :=
        SaveQuiz(quizzes, selections, nextQuizId, nextSelectionId, Quiz(title, description, user, []),
                 entry, req, alternativesOf);
      nextQuizId, nextSelectionId := nextQuizId + 1, nextSelectionId + added;
    }

    /**
     * `obtenerCuestionarioConPreguntasYAlternativas`: one view per selection,
     * in order, each with its alternatives decoded in either stored shape and
     * flattened. One undecodable selection fails the whole projection.
     */
    method GetQuizDetails(id: Id) returns (r: Result<QuizView, Error>)
      requires Valid()
      ensures id !in quizzes ==> r == Failure(NotFound(QuizNotFound))
      ensures id in quizzes ==>
        var ids := quizzes[id].selections;
        (r.Success? <==> forall j :: 0 <= j < |ids| ==> DecodeAlternatives(selections[ids[j]].alternatives).Some?) &&
        (r.Failure? ==> r.error == Wrapped(AlternativesJsonError)) &&
        (r.Success? ==>
           r.value.id == id && r.value.title == quizzes[id].title &&
           r.value.description == quizzes[id].description &&
           |r.value.selections| == |ids| &&
           forall j :: 0 <= j < |ids| ==>
             var s := selections[ids[j]];
             r.value.selections[j] ==
               SelectionView(ids[j], s.text, s.time, s.required, Flatten(DecodeAlternatives(s.alternatives).value)))
    {
      if id !in quizzes {
        return Failure(NotFound(QuizNotFound));
      }
      var quiz := quizzes[id];
      var ids := quiz.selections;
      var views: seq<SelectionView> := [];
      var i := 0;
      while i < |ids|
        invariant 0 <= i <= |ids|
        invariant |views| == i
        invariant forall j :: 0 <= j < i ==> DecodeAlternatives(selections[ids[j]].alternatives).Some?
        invariant forall j :: 0 <= j < i ==>
          var s := selections[ids[j]];
          views[j] == SelectionView(ids[j], s.text, s.time, s.required, Flatten(DecodeAlternatives(s.alternatives).value))
      {
        var s := selections[ids[i]];
        var decoded := DecodeAlternatives(s.alternatives);
        if decoded.None? {
          return Failure(Wrapped(AlternativesJsonError));
        }
        views := views + [SelectionView(ids[i], s.text, s.time, s.required, Flatten(decoded.value))];
        i := i + 1;
      }
      return Success(QuizView(id, quiz.title, quiz.description, views));
    }

    /**
     * The loop of `editarCuestionario`: overwrites the time and required flag
     * of the listed selections position by position, saving each, until the
     * end of the list or of either input list; returns where it stopped.
     */
    method SaveTimes(ids: seq<Id>, times: seq<int>, required: seq<bool>) returns (k: nat)
      requires Distinct(ids)
      requires forall j :: 0 <= j < |ids| ==> ids[j] in selections
      modifies this`selections
      ensures k == Min(|ids|, Min(|times|, |required|))
      ensures RetimedAs(old(selections), selections, ids, times, required, k)
    {
      k := 0;
      while k < |ids| && k < |times| && k < |required|
        invariant k <= Min(|ids|, Min(|times|, |required|))
        invariant RetimedAs(old(selections), selections, ids, times, required, k)
      {
        RetimeStep(old(selections), selections, ids, times, required, k);
        selections := selections[ids[k] := selections[ids[k]].(time := times[k], required := required[k])];
        k := k + 1;
      }
    }

    /**
     * `editarCuestionario`: retimes the existing selections position by
     * position, saving each, then saves the new title and description. The
     * list of selection identifiers it is given is not used. A time or
     * required list shorter than the selection list throws at its end, after
     * the earlier selections were saved and before the title is.
     */
    method EditQuiz(id: Id, title: string, description: string, selectionIds: seq<Id>,
                    times: seq<int>, required: seq<bool>)
      returns (r: Result<Id, Error>)
      requires Valid()
      modifies this
      ensures Valid()
      ensures publications == old(publications)
      ensures nextQuizId == old(nextQuizId) && nextSelectionId == old(nextSelectionId) &&
              nextPublicationId == old(nextPublicationId)
      ensures id !in old(quizzes) ==>
        r == Failure(NotFound(QuizNotFound)) && quizzes == old(quizzes) && selections == old(selections)
      ensures id in old(quizzes) ==>
        var ids := old(quizzes)[id].selections;
        var k := Min(|ids|, Min(|times|, |required|));
        RetimedAs(old(selections), selections, ids, times, required, k) &&
        (if k == |ids|
         then r == Success(id) &&
              quizzes == old(quizzes)[id := old(quizzes)[id].(title := title, description := description)]
         else r == Failure(IndexOutOfBounds(k)) && quizzes == old(quizzes))
    {
      if id !in quizzes {
        return Failure(NotFound(QuizNotFound));
      }
      var quiz := quizzes[id];
      var k := SaveTimes(quiz.selections, times, required);
      RetimeKeepsQuiz(old(selections), selections, quiz.selections, times, required, k);
      RetimeKeepsConsistent(quizzes, old(selections), selections);
      if k < |quiz.selections| {
        return Failure(IndexOutOfBounds(k));
      }
      RenameKeepsConsistent(quizzes, selections, id, title, description);
      quizzes := quizzes[id := quiz.(title := title, description := description)];
      return Success(id);
    }

    /**
     * `eliminarCuestionario`: deletes the quiz and, with it, every selection
     * it owns.
     */
    method DeleteQuiz(id: Id) returns (r: Result<(), Error>)
      requires Valid()
      modifies this
      ensures Valid()
      ensures publications == old(publications)
      ensures nextQuizId == old(nextQuizId) && nextSelectionId == old(nextSelectionId) &&
              nextPublicationId == old(nextPublicationId)
      ensures id !in old(quizzes) ==>
        r == Failure(NotFound(QuizNotFound)) && quizzes == old(quizzes) && selections == old(selections)
      ensures id in old(quizzes) ==>
        r == Success(()) &&
        quizzes == old(quizzes) - {id} &&
        (forall s :: s in selections <==> s in old(selections) && old(selections)[s].quiz != id) &&
        (forall s :: s in selections ==> selections[s] == old(selections)[s]) &&
        (forall j :: 0 <= j < |old(quizzes)[id].selections| ==> old(quizzes)[id].selections[j] !in selections)
    {
      if id !in quizzes {
        return Failure(NotFound(QuizNotFound));
      }
      DeleteQuizKeepsConsistent(quizzes, selections, id);
      quizzes := quizzes - {id};
      selections := map s | s in selections && selections[s].quiz != id :: selections[s];
      return Success(());
    }

    /**
     * `eliminarPreguntaSeleccionada`: deletes one selection, which thereby
     * leaves its quiz's list; the other selections keep their order.
     */
    method DeleteSelection(id: Id) returns (r: Result<(), Error>)
      requires Valid()
      modifies this
      ensures Valid()
      ensures publications == old(publications)
      ensures nextQuizId == old(nextQuizId) && nextSelectionId == old(nextSelectionId) &&
              nextPublicationId == old(nextPublicationId)
      ensures id !in old(selections) ==>
        r == Failure(NotFound(SelectionNotFound)) && quizzes == old(quizzes) && selections == old(selections)
      ensures id in old(selections) ==>
        var q := old(selections)[id].quiz;
        r == Success(()) &&
        selections == old(selections) - {id} &&
        q in old(quizzes) &&
        |Without(old(quizzes)[q].selections, id)| == |old(quizzes)[q].selections| - 1 &&
        quizzes == old(quizzes)[q := old(quizzes)[q].(selections := Without(old(quizzes)[q].selections, id))]
    {
      if id !in selections {
        return Failure(NotFound(SelectionNotFound));
      }
      var q := selections[id].quiz;
      DeleteSelectionKeepsConsistent(quizzes, selections, id);
      selections := selections - {id};
      quizzes := quizzes[q := quizzes[q].(selections := Without(quizzes[q].selections, id))];
      return Success(());
    }

    /**
     * `publicarCuestionario`: after resolving the user and then the quiz,
     * saves a new publication holding exactly the given quiz, user, window and
     * URL; the window and the URL are not checked.
     */
    method PublishQuiz(quizId: Id, start: int, end: int, url: string, user: Id)
      returns (r: Result<Id, Error>)
      requires Valid()
      modifies this
      ensures Valid()
      ensures quizzes == old(quizzes) && selections == old(selections)
      ensures nextQuizId == old(nextQuizId) && nextSelectionId == old(nextSelectionId)
      ensures user !in users ==>
        r == Failure(NotFound(UserNotFound)) &&
        publications == old(publications) && nextPublicationId == old(nextPublicationId)
      ensures user in users && quizId !in quizzes ==>
        r == Failure(NotFound(QuizNotFound)) &&
        publications == old(publications) && nextPublicationId == old(nextPublicationId)
      ensures user in users && quizId in quizzes ==>
        var p := old(nextPublicationId);
        r == Success(p) && p !in old(publications) && nextPublicationId == p + 1 &&
        publications == old(publications)[p := Publication(quizId, user, start, end, url)]
    {
      if user !in users {
        return Failure(NotFound(UserNotFound));
      }
      if quizId !in quizzes {
        return Failure(NotFound(QuizNotFound));
      }
      var p := nextPublicationId;
      nextPublicationId := nextPublicationId + 1;
      publications := publications[p := Publication(quizId, user, start, end, url)];
      return Success(p);
    }
  }
}
