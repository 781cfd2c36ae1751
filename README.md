# FastQuiz quiz service, modelled in Dafny

This project models `CuestionarioService`, the quiz service of FastQuiz. Its operations are:

- **Create a quiz** (`crearCuestionario`). A teacher picks questions by key from a question-bank entry. The entry is a JSON object from key to question text, with keys such as "Pregunta 3". The service saves the quiz, then saves one selected question per present key. Each selected question gets its alternatives from the question service and a time and a required flag from parallel lists.
- **Project a quiz** (`obtenerCuestionarioConPreguntasYAlternativas`). Gives the quiz with each selected question and its alternatives decoded and flattened.
- **Edit** (`editarCuestionario`). Retitles the quiz and retimes its selected questions.
- **Delete** a quiz or one selected question.
- **Publish** a quiz.

The modules are:

- `Wrappers`: `Option` and `Result`.
- `Json`: stored JSON texts, abstracted to three shapes:
  - a flat object, an ordered list of string pairs;
  - an array of flat objects;
  - anything else.

  It also holds Jackson's `Map` and `List<Map>` decodes, the two-shape alternatives decode, `map.get` and the flattening of the decoded alternatives.
- `Keys`: the alternatives index of a key, `Integer.parseInt(key.split(" ")[1])`. It is modelled character by character, including the 32-bit range of `int`.
- `Assembly`: the selection loop of quiz creation as a function of its inputs, `Assembled`, a fold over the key indices. The lemmas state what the fold means: which keys are kept, in which order, with which contents, and where it stops.
- `Service`:
  - the stores: quizzes, selected questions and publications as maps with identifier counters, in the class `QuizService`;
  - the consistency invariant between a quiz's list of selections and the owner of each selection;
  - the six operations as methods.

  Each operation's contract states the whole new state, including on every error path. The creation loop is proved against `Assembled`. The edit loop is proved against `RetimedAs`.

Errors are the `Error` datatype:

- `NotFound(message)` stands for `EntityNotFoundException`.
- `Wrapped(message)` stands for the `RuntimeException` the service throws around whatever its `try` blocks catch.
- `IndexOutOfBounds(i)` stands for the uncaught `List.get` failure in edit.

The messages are the service's own strings.

## Model

All source paths are under `proyecto-integrador-fastQuiz/src/main/java/com/secure/fastquiz/service/`. The table writes them in full.

| member | source | states |
|---|---|---|
| Json.LookupSpec | proyecto-integrador-fastQuiz/src/main/java/com/secure/fastquiz/service/CuestionarioService.java:88-95 | The lookup of a key in the decoded bank object finds nothing exactly when no entry has the key. Otherwise it gives the value of the last entry with that key. |
| Json.DecodeShapes | proyecto-integrador-fastQuiz/src/main/java/com/secure/fastquiz/service/CuestionarioService.java:186-194 | The alternatives decode fails only on a text that is neither a list nor an object. A list decodes to its objects. A single object decodes to a one-element list. |
| Json.AlternativesRoundTrip | proyecto-integrador-fastQuiz/src/main/java/com/secure/fastquiz/service/CuestionarioService.java:186-205 | Alternatives written as one object fail the list decode and succeed on the single-object fallback. Flattening then gives back the same entries in the same order. |
| Json.FlattenSize | proyecto-integrador-fastQuiz/src/main/java/com/secure/fastquiz/service/CuestionarioService.java:198-205 | The flattened alternatives hold exactly as many entries as all the decoded objects together. |
| Json.FlattenAppend | proyecto-integrador-fastQuiz/src/main/java/com/secure/fastquiz/service/CuestionarioService.java:198-205 | Flattening a concatenation of object lists is the concatenation of their flattenings. |
| Json.FlattenEntry | proyecto-integrador-fastQuiz/src/main/java/com/secure/fastquiz/service/CuestionarioService.java:198-205 | Entry e of object k sits in the flattened list at the size of the objects before k plus e. |
| Keys.FirstSpace | proyecto-integrador-fastQuiz/src/main/java/com/secure/fastquiz/service/CuestionarioService.java:103 | The position where `split(" ")` cuts the key: a space with no space before it, or the end of the key. |
| Keys.SecondTokenExists | proyecto-integrador-fastQuiz/src/main/java/com/secure/fastquiz/service/CuestionarioService.java:103 | `SecondToken`, the model of `split(" ")[1]`, gives a token exactly when the key contains a space. For a key whose pieces after the first space are all empty, such as "Pregunta ", it gives the empty token where Java throws; both then fail to parse. |
| Keys.SecondTokenSpec | proyecto-integrador-fastQuiz/src/main/java/com/secure/fastquiz/service/CuestionarioService.java:103 | For the first space i, the second token contains no space. It is the text of the key starting at i + 1 and ending at the next space or at the end. |
| Keys.ParseIntSpec | proyecto-integrador-fastQuiz/src/main/java/com/secure/fastquiz/service/CuestionarioService.java:103 | `parseInt` succeeds exactly on an optional sign followed by at least one digit and nothing else, with the value in the 32-bit `int` range. The value is that of the digits, negated after a minus sign. |
| Keys.ParseLeadingZero | proyecto-integrador-fastQuiz/src/main/java/com/secure/fastquiz/service/CuestionarioService.java:103 | A leading zero changes nothing: "07" parses as "7" does. |
| Keys.ParseNegative | proyecto-integrador-fastQuiz/src/main/java/com/secure/fastquiz/service/CuestionarioService.java:103 | A minus sign before the spelling of n gives -n, for every n down to the least `int`, -2^31. |
| Keys.ParsePlus | proyecto-integrador-fastQuiz/src/main/java/com/secure/fastquiz/service/CuestionarioService.java:103 | A plus sign before the spelling of n gives n, for every n up to 2^31 - 1. |
| Keys.ParseDecimal | proyecto-integrador-fastQuiz/src/main/java/com/secure/fastquiz/service/CuestionarioService.java:103 | Parsing the decimal spelling of any n up to 2^31 - 1 gives n back. |
| Keys.ParseOverflow | proyecto-integrador-fastQuiz/src/main/java/com/secure/fastquiz/service/CuestionarioService.java:103 | The decimal spelling of a number above 2^31 - 1 does not parse. |
| Keys.IndexOfBankKey | proyecto-integrador-fastQuiz/src/main/java/com/secure/fastquiz/service/CuestionarioService.java:103 | A key "label n", with no space in the label and with anything after a further space, has alternatives index n. |
| Keys.TokenIndex | proyecto-integrador-fastQuiz/src/main/java/com/secure/fastquiz/service/CuestionarioService.java:103 | A key "label token", with no space in the label or the token and anything after a further space, has as its index whatever `parseInt` makes of the token. So "Pregunta -1" gives -1 and "Pregunta 07" gives 7. |
| Keys.NoSpaceNoIndex | proyecto-integrador-fastQuiz/src/main/java/com/secure/fastquiz/service/CuestionarioService.java:103 | A key without a space has no index, so processing it throws. |
| Keys.WordTokenNoIndex | proyecto-integrador-fastQuiz/src/main/java/com/secure/fastquiz/service/CuestionarioService.java:103 | A key whose second token starts with neither a digit nor a sign has no index. |
| Assembly.Assembled | proyecto-integrador-fastQuiz/src/main/java/com/secure/fastquiz/service/CuestionarioService.java:92-138 | The selection loop saves at most one selection per key index. |
| Assembly.SkipStep | proyecto-integrador-fastQuiz/src/main/java/com/secure/fastquiz/service/CuestionarioService.java:132-134 | A key missing from the bank object is skipped: nothing is saved and the loop goes on. |
| Assembly.KeepStep | proyecto-integrador-fastQuiz/src/main/java/com/secure/fastquiz/service/CuestionarioService.java:95-130 | A usable key appends one selection. It holds the bank text, the serialized alternatives for the key's index, and times[i] and required[i]. |
| Assembly.FailStep | proyecto-integrador-fastQuiz/src/main/java/com/secure/fastquiz/service/CuestionarioService.java:103-138 | A present key without an index, or beyond either list, ends the loop with a failure. The selections saved before it remain. |
| Assembly.FailureIsFinal | proyecto-integrador-fastQuiz/src/main/java/com/secure/fastquiz/service/CuestionarioService.java:136-138 | After the throw, later keys change nothing. |
| Assembly.Kept | proyecto-integrador-fastQuiz/src/main/java/com/secure/fastquiz/service/CuestionarioService.java:92-95 | The present key indices below n: strictly increasing, each present, and every present index below n included. |
| Assembly.AssembledSpec | proyecto-integrador-fastQuiz/src/main/java/com/secure/fastquiz/service/CuestionarioService.java:92-138 | Without a failure, every present key was usable, and the selections are one per present key, in request order, each built from its own index. With a failure, there is a first present unusable key, and the selections are those of the present keys before it. |
| Assembly.EveryKeySelected | proyecto-integrador-fastQuiz/src/main/java/com/secure/fastquiz/service/CuestionarioService.java:92-134 | When every requested key is present and usable, there is no failure and selection i is built from key i. |
| Assembly.UnusableKeyFails | proyecto-integrador-fastQuiz/src/main/java/com/secure/fastquiz/service/CuestionarioService.java:103-138 | Any present key without an index, or at a position beyond the times or required list, makes creation fail. |
| Assembly.StoredAlternativesRoundTrip | proyecto-integrador-fastQuiz/src/main/java/com/secure/fastquiz/service/CuestionarioService.java:97-115 | Each saved selection comes from a usable requested key, with that key's text, time and required flag. Its stored alternatives decode and flatten to exactly what the lookup gave for that key's index. |
| Assembly.MissingKeySkipped | proyecto-integrador-fastQuiz/src/main/java/com/secure/fastquiz/service/CuestionarioService.java:92-134 | An entry with "Pregunta 1" and "Pregunta 2", and a request for "Pregunta 1" and "Pregunta 3", give exactly one selection (for "Pregunta 1", index 1) and no failure. |
| Service.Without | proyecto-integrador-fastQuiz/src/main/java/com/secure/fastquiz/service/CuestionarioService.java:256-260 | A quiz's list after one of its selections is deleted: exactly the others, each once, one fewer. |
| Service.WithoutSplice | proyecto-integrador-fastQuiz/src/main/java/com/secure/fastquiz/service/CuestionarioService.java:256-260 | In a list without repetitions, deleting the selection at position i leaves the selections before it followed by those after it, in their order. |
| Service.SaveSelections | proyecto-integrador-fastQuiz/src/main/java/com/secure/fastquiz/service/CuestionarioService.java:92-138 | The creation loop saves exactly the selections of `Assembled` under fresh consecutive identifiers and lists them in order. Old selections are untouched. It fails exactly when `Assembled` does. |
| Service.SaveQuiz | proyecto-integrador-fastQuiz/src/main/java/com/secure/fastquiz/service/CuestionarioService.java:64-139 | Quiz creation after the user lookup. The quiz is saved first. A missing bank entry fails with "Pregunta no encontrada", and an undecodable one fails with the wrapped error. Otherwise the assembled selections are saved. The stores stay consistent on every path. |
| Service.CreatedSelectionsProject | proyecto-integrador-fastQuiz/src/main/java/com/secure/fastquiz/service/CuestionarioService.java:97-115 | Every selection creation saves belongs to the new quiz and can be projected. Its alternatives decode and flatten to the lookup's entries for a requested key's index, and its text is that key's bank text. |
| Service.AddQuizKeepsConsistent | proyecto-integrador-fastQuiz/src/main/java/com/secure/fastquiz/service/CuestionarioService.java:64-76 | Saving a new quiz with no selections keeps the stores consistent. |
| Service.AddSelectionsKeepsConsistent | proyecto-integrador-fastQuiz/src/main/java/com/secure/fastquiz/service/CuestionarioService.java:96-130 | Saving new selections of a quiz and listing them in that quiz keeps the stores consistent. |
| Service.RetimeKeepsConsistent | proyecto-integrador-fastQuiz/src/main/java/com/secure/fastquiz/service/CuestionarioService.java:235-242 | Changing selections without changing their quiz keeps the stores consistent. |
| Service.RetimeKeepsQuiz | proyecto-integrador-fastQuiz/src/main/java/com/secure/fastquiz/service/CuestionarioService.java:235-242 | Retiming leaves every selection with the quiz it had. |
| Service.RenameKeepsConsistent | proyecto-integrador-fastQuiz/src/main/java/com/secure/fastquiz/service/CuestionarioService.java:230-231 | Changing a quiz's title and description keeps the stores consistent. |
| Service.DeleteQuizKeepsConsistent | proyecto-integrador-fastQuiz/src/main/java/com/secure/fastquiz/service/CuestionarioService.java:249-253 | Deleting a quiz together with the selections it owns keeps the stores consistent. |
| Service.DeleteSelectionKeepsConsistent | proyecto-integrador-fastQuiz/src/main/java/com/secure/fastquiz/service/CuestionarioService.java:256-260 | Deleting a selection and dropping it from its quiz's list keeps the stores consistent. |
| Service.QuizService.CreateQuiz | proyecto-integrador-fastQuiz/src/main/java/com/secure/fastquiz/service/CuestionarioService.java:51-151 | An unknown user fails with "Usuario no encontrado" and changes nothing. Otherwise a new quiz owned by the user is saved before the bank lookup. It lists exactly the selections of `Plan`, saved under fresh identifiers. The result is not-found for a missing entry, the wrapped JSON error for any failure in the loop, and otherwise the quiz. |
| Service.QuizService.GetQuizDetails | proyecto-integrador-fastQuiz/src/main/java/com/secure/fastquiz/service/CuestionarioService.java:155-219 | Not-found for a missing quiz. Otherwise it succeeds exactly when every selection's alternatives decode, and fails with the wrapped alternatives error. On success it gives one view per selection, in order, with id, text, time, required and the flattened alternatives. |
| Service.QuizService.SaveTimes | proyecto-integrador-fastQuiz/src/main/java/com/secure/fastquiz/service/CuestionarioService.java:234-242 | Retimes the listed selections by position up to the shortest of the three lists, stops there, and changes nothing else. |
| Service.QuizService.EditQuiz | proyecto-integrador-fastQuiz/src/main/java/com/secure/fastquiz/service/CuestionarioService.java:224-246 | Not-found for a missing quiz. Otherwise selection i gets times[i] and required[i], and the quiz's list is unchanged. The selection identifiers argument is ignored. With shorter time or required lists it fails at the first missing index, keeping the earlier saves but not the new title. Otherwise the title and description are saved. |
| Service.QuizService.DeleteQuiz | proyecto-integrador-fastQuiz/src/main/java/com/secure/fastquiz/service/CuestionarioService.java:249-254 | Not-found for a missing quiz, with nothing deleted. Otherwise the quiz and exactly its selections are removed. |
| Service.QuizService.DeleteSelection | proyecto-integrador-fastQuiz/src/main/java/com/secure/fastquiz/service/CuestionarioService.java:256-261 | Not-found for a missing selection, with nothing deleted. Otherwise that selection is removed and leaves its quiz's list, which shrinks by one. |
| Service.QuizService.PublishQuiz | proyecto-integrador-fastQuiz/src/main/java/com/secure/fastquiz/service/CuestionarioService.java:264-286 | The user is checked first, then the quiz; each missing one fails with not-found and creates nothing. Otherwise exactly one new publication holds the given quiz, user, window and URL, with no check of the window or the URL. |

## Left out

- The Spring Security context (lines 53 and 266) is not modelled. The authenticated user's identifier is a parameter, and the user table is the set `users`.
- `preguntaService.obtenerAlternativasDePregunta` is not part of this model. It is the function parameter `alternativesOf`, assumed total. Exceptions it might throw, and what it reads, are left out.
- The `catch` blocks that wrap failures of the repository `save` calls, with messages such as "Error al guardar el cuestionario", are left out. Persistence is modelled as map updates that always succeed.
- The `try` block around the loop also catches failures of `writeValueAsString`. Serialization is modelled as total.
- Jackson's textual parsing is not modelled. JSON texts are the three shapes of `Json.Json`. A bank text whose values are not strings, and a `null` text, count as `Bad`.
- A bank object with a non-string value is modelled as failing the whole creation before any selection is saved. The code reads it with a raw `Map` (line 88) and fails only when a requested key reaches that value (line 94). That failure is wrapped at line 136, and the selections saved before it stay saved. A requested key whose value is JSON `null` is skipped at line 95, like a missing key.
- Duplicate keys in a stored object are kept in the association list. The lookup takes the last one, as Jackson's map does. The projection's flattening of a decoded map with repeated keys would show only one entry per key, and this deduplication is not modelled.
- `Keys.ParseInt` accepts only ASCII digits. Java's `Integer.parseInt` also accepts digits of other Unicode scripts.
- `Keys.SecondToken` gives the empty token where Java's `split` drops trailing empty pieces and `[1]` then throws. Both end in a failed parse, so the outcome is the same.
- ORM details beyond "deleting a quiz removes its selections" are left out: cascades, flush timing, and the two saves of the quiz in creation.
  - A quiz's list is kept equal to the selections that point at it. So selections saved before a failure in creation stay listed.
  - Edit saves the new title and description only at the end. Under a shared persistence context they could be flushed earlier, and that is not modelled.
  - An in-memory change to a selection whose save is never reached is not modelled.
- Publications keep the identifier of their quiz. Deleting a quiz does not touch them, since the service's code does not.
- `LocalDateTime` timestamps are opaque integers. Logging and `printStackTrace` are not modelled.
- Null arguments and concurrent calls are out of scope.
- Two behaviours of the code worth noting, both modelled as the code has them:
  - creation fails with the wrapped JSON error, not with an index error, when a present key lies beyond the times or required list, because that `get(i)` (line 114) runs inside the `try` of lines 85-139;
  - edit's `get(i)` (lines 239-240) is not caught and comes after the earlier saves (line 241), so edit fails with an index error after the earlier selections were saved.
