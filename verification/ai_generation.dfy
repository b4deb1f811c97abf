/**
 * The two AI generation endpoints (`POST /generate-mcq/{chapter_id}` and
 * `POST /generate-flashcard/{chapter_id}`): they serve the stored items of a
 * chapter once it has five, otherwise ask the language model for new ones,
 * gated by a per-user, per-day request counter capped at five, and fall back
 * to whatever is stored when generation fails.
 *
 * The database is a value of type `Tables`; the chapter, subject and class
 * tables, which these endpoints only read, are a `Catalog`. The language
 * model's reply is an abstract `Generation`: the list of JSON objects it
 * parsed to, or the exception raised while calling it or parsing its text.
 */
module AiGeneration {
  import opened Wrappers
  import Text

  /** Both thresholds in the endpoints: stored items that short-circuit, and requests per user per day. */
  const RequestCap: nat := 5

  const KeyMissingDetail := "Gemini API Key is not configured"
  /**
   * The refusal once the day's counter is full. Its last four characters
   * are U+00F0 U+0178 U+0152 U+0178, as the source file spells them (the
   * UTF-8 bytes of U+1F31F read as Windows-1252).
   */
  const CounterLimitDetail := "You've exceeded today's " + "limit of 5 AI requests. " + "Please try again tomorrow! \U{F0}\U{178}\U{152}\U{178}"
  /** The refusal when the model itself reports its quota exhausted (kept in short pieces). */
  const QuotaDetail := "AI daily quota exceeded. " + "Try again tomorrow " + "or use existing questions."
  const McqFailureDetail := "Failed to generate MCQs from AI"
  const FlashcardFailureDetail := "Failed to generate Flashcards from AI"
  /** What the web framework answers for an exception the endpoint does not catch. */
  const InternalErrorDetail := "Internal Server Error"

  // ---------------------------------------------------------------------
  // Cleaning the model's reply
  // ---------------------------------------------------------------------

  /** The three conditional slices that remove a Markdown code fence around the reply. */
  function StripFences(t: string): (r: string)
    ensures |r| <= |t|
  {
    var a := if Text.StartsWith(t, "```json") then t[7..] else t;
    var b := if Text.StartsWith(a, "```") then a[3..] else a;
    if Text.EndsWith(b, "```") then b[..|b| - 3] else b
  }

  /** How many leading characters `StripFences` drops. */
  function FenceStart(t: string): nat {
    var j := if Text.StartsWith(t, "```json") then 7 else 0;
    j + if Text.StartsWith(t[j..], "```") then 3 else 0
  }

  /** The stripped text is a contiguous piece of the reply; at most 10 leading and 3 trailing characters go. */
  lemma StripFencesIsSlice(t: string)
    ensures var i, r := FenceStart(t), StripFences(t);
      i <= 10 && i + |r| <= |t| && |t| - 3 <= i + |r| && r == t[i..i + |r|]
  {
    var a := if Text.StartsWith(t, "```json") then t[7..] else t;
    var j := if Text.StartsWith(t, "```json") then 7 else 0;
    assert a == t[j..];
    var b := if Text.StartsWith(a, "```") then a[3..] else a;
    var i := j + if Text.StartsWith(a, "```") then 3 else 0;
    assert b == t[i..];
  }

  /** A reply with no fence at either end passes through unchanged. */
  lemma StripFencesUnfenced(t: string)
    requires !Text.StartsWith(t, "```") && !Text.EndsWith(t, "```")
    ensures StripFences(t) == t
  {
  }

  /** A body fenced as "```json ... ```" comes back as the body. */
  lemma StripJsonFence(body: string)
    requires !Text.StartsWith(body, "```")
    ensures StripFences("```json" + body + "```") == body
  {
    var t := "```json" + body + "```";
    assert t[..7] == "```json";
    var a := t[7..];
    assert a == body + "```";
    if Text.StartsWith(a, "```") {
      assert |body| < 3;
      assert a[3..] == body by {
        forall k | 0 <= k < |body| ensures a[3..][k] == body[k] {
          assert a[k] == body[k] && a[..3][k] == '`';
          assert a[k + 3] == "```"[k + 3 - |body|];
        }
      }
    } else {
      assert a[..|a| - 3] == body;
    }
  }

  /** A plain fence around a body that does not start with "json" is not a "```json" fence. */
  lemma PlainFenceNotJson(body: string)
    requires !Text.StartsWith(body, "json")
    ensures !Text.StartsWith("```" + body + "```", "```json")
  {
    var t := "```" + body + "```";
    if |body| >= 4 {
      assert t[3..7] == body[..4];
      assert "```json"[3..7] == "json";
    } else {
      assert t[3 + |body|] == '`';
      assert "```json"[3 + |body|] != '`';
    }
  }

  /** A body fenced as "``` ... ```" comes back as the body. */
  lemma StripPlainFence(body: string)
    requires !Text.StartsWith(body, "json")
    ensures StripFences("```" + body + "```") == body
  {
    var t := "```" + body + "```";
    PlainFenceNotJson(body);
    assert t[..3] == "```";
    var b := t[3..];
    assert b == body + "```";
    assert b[|b| - 3..] == "```";
    assert b[..|b| - 3] == body;
  }

  /**
   * The text handed to `json.loads`: stripped, unfenced, stripped again
   * (Python's white space). It is never longer than the reply and has no
   * white space at either end.
   */
  function CleanReply(text: string): (r: string)
    ensures |r| <= |text|
    ensures r != [] ==> !Text.IsPySpace(r[0]) && !Text.IsPySpace(r[|r| - 1])
  {
    var unfenced := StripFences(Text.Trim(text, Text.IsPySpace));
    Text.TrimEnds(unfenced, Text.IsPySpace);
    Text.Trim(unfenced, Text.IsPySpace)
  }

  // ---------------------------------------------------------------------
  // Records and tables
  // ---------------------------------------------------------------------

  /** One object of the parsed JSON array: each key's string value, or `None` for a JSON `null`. */
  type Item = map<string, Option<string>>

  /** `item.get(key)`: `None` for a missing key as for a `null` value. */
  function Get(item: Item, key: string): Option<string> {
    if key in item then item[key] else None
  }

  /** `item.get(key, default)`: the default only for a missing key; a `null` value stays `None`. */
  function GetOr(item: Item, key: string, default: string): Option<string> {
    if key in item then item[key] else Some(default)
  }

  /**
   * An MCQ row as the endpoint builds it from an item; a missing key leaves
   * `None` in a column the record declares NOT NULL.
   */
  datatype McqRecord = McqRecord(
    id: int, chapterId: int,
    question: Option<string>, optionA: Option<string>, optionB: Option<string>,
    optionC: Option<string>, optionD: Option<string>, correct: Option<string>)

  /** A flashcard row as the endpoint builds it; a `null` value leaves `None` in a NOT NULL column. */
  datatype FlashcardRecord = FlashcardRecord(id: int, chapterId: int, question: Option<string>, answer: Option<string>)

  /** An MCQ record the database accepts: each of its six NOT NULL columns holds a value. */
  predicate Storable(m: McqRecord) {
    m.question.Some? && m.optionA.Some? && m.optionB.Some?
    && m.optionC.Some? && m.optionD.Some? && m.correct.Some?
  }

  /** A flashcard record the database accepts: both NOT NULL columns hold a value. */
  predicate FlashcardStorable(f: FlashcardRecord) {
    f.question.Some? && f.answer.Some?
  }

  /** The keys `MCQ(...)` reads from an item. */
  const McqKeys: set<string> := {"question", "option_a", "option_b", "option_c", "option_d", "correct"}

  function MakeMcq(item: Item, chapterId: int, id: int): McqRecord {
    McqRecord(id, chapterId, Get(item, "question"), Get(item, "option_a"), Get(item, "option_b"),
              Get(item, "option_c"), Get(item, "option_d"), Get(item, "correct"))
  }

  /** `Flashcard(question=item.get("question", ""), answer=item.get("answer", ""))`. */
  function MakeFlashcard(item: Item, chapterId: int, id: int): FlashcardRecord {
    FlashcardRecord(id, chapterId, GetOr(item, "question", ""), GetOr(item, "answer", ""))
  }

  /** The MCQ rows built from the items, numbered from `firstId`. */
  function NewMcqs(items: seq<Item>, chapterId: int, firstId: int): (rows: seq<McqRecord>)
    ensures |rows| == |items|
    ensures forall k :: 0 <= k < |items| ==> rows[k] == MakeMcq(items[k], chapterId, firstId + k)
  {
    seq(|items|, k requires 0 <= k < |items| => MakeMcq(items[k], chapterId, firstId + k))
  }

  function NewFlashcards(items: seq<Item>, chapterId: int, firstId: int): (rows: seq<FlashcardRecord>)
    ensures |rows| == |items|
    ensures forall k :: 0 <= k < |items| ==> rows[k] == MakeFlashcard(items[k], chapterId, firstId + k)
  {
    seq(|items|, k requires 0 <= k < |items| => MakeFlashcard(items[k], chapterId, firstId + k))
  }

  /** The stored MCQs of one chapter, in table order (`select(MCQ).where(MCQ.chapter_id == chapter_id)`). */
  function ChapterMcqs(rows: seq<McqRecord>, chapterId: int): (r: seq<McqRecord>)
    ensures |r| <= |rows|
    ensures forall m :: m in r <==> m in rows && m.chapterId == chapterId
  {
    if rows == [] then []
    else (if rows[0].chapterId == chapterId then [rows[0]] else []) + ChapterMcqs(rows[1..], chapterId)
  }

  function ChapterFlashcards(rows: seq<FlashcardRecord>, chapterId: int): (r: seq<FlashcardRecord>)
    ensures |r| <= |rows|
    ensures forall f :: f in r <==> f in rows && f.chapterId == chapterId
  {
    if rows == [] then []
    else (if rows[0].chapterId == chapterId then [rows[0]] else []) + ChapterFlashcards(rows[1..], chapterId)
  }

  /** A chapter's stored items after rows are appended: the old ones, then the new ones of that chapter. */
  lemma {:induction false} ChapterMcqsAppend(rows: seq<McqRecord>, extra: seq<McqRecord>, chapterId: int)
    ensures ChapterMcqs(rows + extra, chapterId) == ChapterMcqs(rows, chapterId) + ChapterMcqs(extra, chapterId)
    decreases |rows|
  {
    if rows != [] {
      assert (rows + extra)[1..] == rows[1..] + extra;
      ChapterMcqsAppend(rows[1..], extra, chapterId);
    } else {
      assert rows + extra == extra;
    }
  }

  lemma {:induction false} ChapterFlashcardsAppend(rows: seq<FlashcardRecord>, extra: seq<FlashcardRecord>, chapterId: int)
    ensures ChapterFlashcards(rows + extra, chapterId) == ChapterFlashcards(rows, chapterId) + ChapterFlashcards(extra, chapterId)
    decreases |rows|
  {
    if rows != [] {
      assert (rows + extra)[1..] == rows[1..] + extra;
      ChapterFlashcardsAppend(rows[1..], extra, chapterId);
    } else {
      assert rows + extra == extra;
    }
  }

  /** Rows that all belong to the chapter are all selected, in order. */
  lemma {:induction false} ChapterMcqsOwn(rows: seq<McqRecord>, chapterId: int)
    requires forall k :: 0 <= k < |rows| ==> rows[k].chapterId == chapterId
    ensures ChapterMcqs(rows, chapterId) == rows
    decreases |rows|
  {
    if rows != [] {
      ChapterMcqsOwn(rows[1..], chapterId);
    }
  }

  lemma {:induction false} ChapterFlashcardsOwn(rows: seq<FlashcardRecord>, chapterId: int)
    requires forall k :: 0 <= k < |rows| ==> rows[k].chapterId == chapterId
    ensures ChapterFlashcards(rows, chapterId) == rows
    decreases |rows|
  {
    if rows != [] {
      ChapterFlashcardsOwn(rows[1..], chapterId);
    }
  }

  /** The `ApiUsage` table: `request_count` keyed by (user id, day). */
  type UsageKey = (int, int)

  /** Every counter is at most the cap. */
  ghost predicate Capped(usage: map<UsageKey, nat>) {
    forall k :: k in usage ==> usage[k] <= RequestCap
  }

  /** `usage and usage.request_count >= 5`. */
  predicate Exhausted(usage: map<UsageKey, nat>, key: UsageKey) {
    key in usage && usage[key] >= RequestCap
  }

  /** The counter after a successful generation: created at 1, or raised by 1. */
  function Counted(usage: map<UsageKey, nat>, key: UsageKey): (u: map<UsageKey, nat>)
    ensures key in u && u[key] == (if key in usage then usage[key] + 1 else 1)
    ensures forall k :: k != key ==> (k in u <==> k in usage) && (k in usage ==> u[k] == usage[k])
  {
    usage[key := if key in usage then usage[key] + 1 else 1]
  }

  /** A counter that was below the cap is still within it after being counted. */
  lemma CountedStaysCapped(usage: map<UsageKey, nat>, key: UsageKey)
    requires Capped(usage) && !Exhausted(usage, key)
    ensures Capped(Counted(usage, key))
  {
  }

  /** The mutable tables, with the id each table will hand out next. */
  datatype Tables = Tables(
    mcqs: seq<McqRecord>, flashcards: seq<FlashcardRecord>, usage: map<UsageKey, nat>,
    nextMcqId: int, nextFlashcardId: int)

  /** The read-only tables: chapter -> subject, subject -> class, and the class ids. */
  datatype Catalog = Catalog(chapterSubject: map<int, int>, subjectClass: map<int, int>, classes: set<int>)

  /** The chapter, its subject and that subject's class are all found. */
  predicate InCatalog(c: Catalog, chapterId: int) {
    chapterId in c.chapterSubject && c.chapterSubject[chapterId] in c.subjectClass
    && c.subjectClass[c.chapterSubject[chapterId]] in c.classes
  }

  /** What calling the language model and parsing its reply produced. */
  datatype Generation =
    | Generated(items: seq<Item>)
    /** `genai_errors.ClientError`, with its text. */
    | ClientFailure(message: string)
    /** Any other exception (network, JSON parsing, ...). */
    | OtherFailure(message: string)

  /** One request: the caller, the chapter, the server's date, whether the API key is set, and the model's outcome. */
  datatype Call = Call(userId: int, chapterId: int, today: int, keyConfigured: bool, generation: Generation)

  datatype Response<T> = Served(rows: seq<T>) | HttpError(status: int, detail: string)

  /** The three `except` branches of the MCQ endpoint, given the chapter's stored MCQs. */
  function McqFailure(existing: seq<McqRecord>, clientError: bool, message: string): (r: Response<McqRecord>)
    ensures r.Served? <==> existing != []
    ensures r.Served? ==> r.rows == existing
    ensures r.HttpError? ==> r.status == 429 || r.status == 500
    ensures r.HttpError? && r.status == 429 <==>
      existing == [] && clientError && (Text.Contains(message, "429") || Text.Contains(message, "RESOURCE_EXHAUSTED"))
  {
    if clientError && (Text.Contains(message, "429") || Text.Contains(message, "RESOURCE_EXHAUSTED")) then
      if existing != [] then Served(existing) else HttpError(429, QuotaDetail)
    else if existing != [] then Served(existing)
    else HttpError(500, McqFailureDetail)
  }

  /** The single `except` branch of the flashcard endpoint. */
  function FlashcardFailure(existing: seq<FlashcardRecord>): (r: Response<FlashcardRecord>)
    ensures r.Served? <==> existing != []
    ensures r.Served? ==> r.rows == existing
    ensures r.HttpError? ==> r == HttpError(500, FlashcardFailureDetail)
  {
    if existing != [] then Served(existing) else HttpError(500, FlashcardFailureDetail)
  }

  /** `generate_mcqs`: the response and the tables afterwards. */
  function McqEndpoint(t: Tables, c: Catalog, call: Call): (out: (Response<McqRecord>, Tables))
    ensures out.1.flashcards == t.flashcards && out.1.nextFlashcardId == t.nextFlashcardId
    ensures out.1 != t ==> out.0.Served? && out.1.mcqs == t.mcqs + out.0.rows
    ensures out.0.HttpError? ==> out.0.status in {404, 429, 500}
  {
    var existing := ChapterMcqs(t.mcqs, call.chapterId);
    var key := (call.userId, call.today);
    if !call.keyConfigured then (HttpError(500, KeyMissingDetail), t)
    else if |existing| >= RequestCap then (Served(existing), t)
    else if Exhausted(t.usage, key) then (HttpError(429, CounterLimitDetail), t)
    else if call.chapterId !in c.chapterSubject then (HttpError(404, "Chapter not found"), t)
    else if c.chapterSubject[call.chapterId] !in c.subjectClass then (HttpError(404, "Subject not found"), t)
    else if c.subjectClass[c.chapterSubject[call.chapterId]] !in c.classes then (HttpError(404, "Class not found"), t)
    else
      match call.generation
      case ClientFailure(msg) => (McqFailure(existing, true, msg), t)
      case OtherFailure(msg) => (McqFailure(existing, false, msg), t)
      case Generated(items) =>
        var rows := NewMcqs(items, call.chapterId, t.nextMcqId);
        if forall k :: 0 <= k < |rows| ==> Storable(rows[k]) then
          (Served(rows), t.(mcqs := t.mcqs + rows, usage := Counted(t.usage, key),
                            nextMcqId := t.nextMcqId + |rows|))
        else
          // the commit fails on a NOT NULL column; the session is rolled back
          (McqFailure(existing, false, "IntegrityError"), t)
  }

  /** `generate_flashcards`: the same gates, except that a missing subject or class is an uncaught error. */
  function FlashcardEndpoint(t: Tables, c: Catalog, call: Call): (out: (Response<FlashcardRecord>, Tables))
    ensures out.1.mcqs == t.mcqs && out.1.nextMcqId == t.nextMcqId
    ensures out.1 != t ==> out.0.Served? && out.1.flashcards == t.flashcards + out.0.rows
    ensures out.0.HttpError? ==> out.0.status in {404, 429, 500}
  {
    var existing := ChapterFlashcards(t.flashcards, call.chapterId);
    var key := (call.userId, call.today);
    if !call.keyConfigured then (HttpError(500, KeyMissingDetail), t)
    else if |existing| >= RequestCap then (Served(existing), t)
    else if Exhausted(t.usage, key) then (HttpError(429, CounterLimitDetail), t)
    else if call.chapterId !in c.chapterSubject then (HttpError(404, "Chapter not found"), t)
    else if c.chapterSubject[call.chapterId] !in c.subjectClass then (HttpError(500, InternalErrorDetail), t)
    else if c.subjectClass[c.chapterSubject[call.chapterId]] !in c.classes then (HttpError(500, InternalErrorDetail), t)
    else
      match call.generation
      case Generated(items) =>
        var rows := NewFlashcards(items, call.chapterId, t.nextFlashcardId);
        if forall k :: 0 <= k < |rows| ==> FlashcardStorable(rows[k]) then
          (Served(rows), t.(flashcards := t.flashcards + rows, usage := Counted(t.usage, key),
                            nextFlashcardId := t.nextFlashcardId + |rows|))
        else
          // the commit fails on a NOT NULL column and the `except Exception` branch rolls back
          (FlashcardFailure(existing), t)
      case _ => (FlashcardFailure(existing), t)
  }

  // ---------------------------------------------------------------------
  // Properties of the endpoints
  // ---------------------------------------------------------------------

  /** With five or more stored MCQs they are served as they are and no table, the counter included, changes. */
  lemma McqServesStored(t: Tables, c: Catalog, call: Call)
    requires call.keyConfigured && |ChapterMcqs(t.mcqs, call.chapterId)| >= RequestCap
    ensures McqEndpoint(t, c, call) == (Served(ChapterMcqs(t.mcqs, call.chapterId)), t)
  {
  }

  /** The flashcard endpoint short-circuits the same way. */
  lemma FlashcardServesStored(t: Tables, c: Catalog, call: Call)
    requires call.keyConfigured && |ChapterFlashcards(t.flashcards, call.chapterId)| >= RequestCap
    ensures FlashcardEndpoint(t, c, call) == (Served(ChapterFlashcards(t.flashcards, call.chapterId)), t)
  {
  }

  /** A full counter refuses with 429 and changes nothing, on both endpoints. */
  lemma ExhaustedRefuses(t: Tables, c: Catalog, call: Call)
    requires call.keyConfigured && Exhausted(t.usage, (call.userId, call.today))
    ensures |ChapterMcqs(t.mcqs, call.chapterId)| < RequestCap ==>
      McqEndpoint(t, c, call) == (HttpError(429, CounterLimitDetail), t)
    ensures |ChapterFlashcards(t.flashcards, call.chapterId)| < RequestCap ==>
      FlashcardEndpoint(t, c, call) == (HttpError(429, CounterLimitDetail), t)
  {
  }

  /**
   * The counter changes only for the caller's day, and only on a served
   * generation: then it is created at 1 or raised by exactly 1, and the new
   * rows are appended to the table and returned.
   */
  lemma McqCounting(t: Tables, c: Catalog, call: Call)
    ensures var (r, t') := McqEndpoint(t, c, call);
      var key := (call.userId, call.today);
      (t'.usage == t.usage && t'.mcqs == t.mcqs)
      || (call.generation.Generated? && r.Served? && t'.usage == Counted(t.usage, key)
          && t'.mcqs == t.mcqs + r.rows && |r.rows| == |call.generation.items|
          && !Exhausted(t.usage, key))
  {
  }

  lemma FlashcardCounting(t: Tables, c: Catalog, call: Call)
    ensures var (r, t') := FlashcardEndpoint(t, c, call);
      var key := (call.userId, call.today);
      (t'.usage == t.usage && t'.flashcards == t.flashcards)
      || (call.generation.Generated? && r.Served? && t'.usage == Counted(t.usage, key)
          && t'.flashcards == t.flashcards + r.rows && |r.rows| == |call.generation.items|
          && !Exhausted(t.usage, key))
  {
  }

  /** A failed generation is rolled back and not counted; the caller gets the stored items if any, else an error. */
  lemma McqFailureNotCounted(t: Tables, c: Catalog, call: Call)
    requires !call.generation.Generated?
    ensures McqEndpoint(t, c, call).1 == t
    ensures var r := McqEndpoint(t, c, call).0;
      var existing := ChapterMcqs(t.mcqs, call.chapterId);
      r.Served? ==> r.rows == existing
  {
  }

  /**
   * Past every gate (key set, fewer than five stored, counter below five,
   * chapter, subject and class found), a generation whose rows all fill
   * their NOT NULL columns is stored and served: the rows are appended,
   * numbered on from the next id, and the caller's counter is counted once.
   * The chapter's stored MCQs are then the old ones followed by the new.
   */
  lemma McqGenerationStored(t: Tables, c: Catalog, call: Call)
    requires call.keyConfigured && call.generation.Generated?
    requires |ChapterMcqs(t.mcqs, call.chapterId)| < RequestCap
    requires !Exhausted(t.usage, (call.userId, call.today)) && InCatalog(c, call.chapterId)
    requires forall k :: 0 <= k < |call.generation.items| ==>
      Storable(MakeMcq(call.generation.items[k], call.chapterId, t.nextMcqId + k))
    ensures var rows := NewMcqs(call.generation.items, call.chapterId, t.nextMcqId);
      McqEndpoint(t, c, call) == (Served(rows), t.(mcqs := t.mcqs + rows,
        usage := Counted(t.usage, (call.userId, call.today)), nextMcqId := t.nextMcqId + |rows|))
    ensures var (r, t') := McqEndpoint(t, c, call);
      r.Served? && ChapterMcqs(t'.mcqs, call.chapterId) == ChapterMcqs(t.mcqs, call.chapterId) + r.rows
  {
    var rows := NewMcqs(call.generation.items, call.chapterId, t.nextMcqId);
    var key := (call.userId, call.today);
    var t' := t.(mcqs := t.mcqs + rows, usage := Counted(t.usage, key), nextMcqId := t.nextMcqId + |rows|);
    assert McqEndpoint(t, c, call) == (Served(rows), t') by {
      assert forall k :: 0 <= k < |rows| ==> Storable(rows[k]);
      assert McqEndpoint(t, c, call).0 == Served(rows);
      assert McqEndpoint(t, c, call).1 == t';
    }
    assert ChapterMcqs(t'.mcqs, call.chapterId) == ChapterMcqs(t.mcqs, call.chapterId) + rows by {
      ChapterMcqsAppend(t.mcqs, rows, call.chapterId);
      ChapterMcqsOwn(rows, call.chapterId);
    }
  }

  /** Past the same gates, a generation with a row missing a NOT NULL value is rolled back, as a failure. */
  lemma McqGenerationRefused(t: Tables, c: Catalog, call: Call, k: nat)
    requires call.keyConfigured && call.generation.Generated?
    requires |ChapterMcqs(t.mcqs, call.chapterId)| < RequestCap
    requires !Exhausted(t.usage, (call.userId, call.today)) && InCatalog(c, call.chapterId)
    requires k < |call.generation.items| && !Storable(MakeMcq(call.generation.items[k], call.chapterId, t.nextMcqId + k))
    ensures McqEndpoint(t, c, call) == (McqFailure(ChapterMcqs(t.mcqs, call.chapterId), false, "IntegrityError"), t)
  {
    assert !Storable(NewMcqs(call.generation.items, call.chapterId, t.nextMcqId)[k]);
  }

  /** The flashcard endpoint stores and serves a generation whose rows all hold both fields. */
  lemma FlashcardGenerationStored(t: Tables, c: Catalog, call: Call)
    requires call.keyConfigured && call.generation.Generated?
    requires |ChapterFlashcards(t.flashcards, call.chapterId)| < RequestCap
    requires !Exhausted(t.usage, (call.userId, call.today)) && InCatalog(c, call.chapterId)
    requires forall k :: 0 <= k < |call.generation.items| ==>
      FlashcardStorable(MakeFlashcard(call.generation.items[k], call.chapterId, t.nextFlashcardId + k))
    ensures var rows := NewFlashcards(call.generation.items, call.chapterId, t.nextFlashcardId);
      FlashcardEndpoint(t, c, call) == (Served(rows), t.(flashcards := t.flashcards + rows,
        usage := Counted(t.usage, (call.userId, call.today)), nextFlashcardId := t.nextFlashcardId + |rows|))
    ensures var (r, t') := FlashcardEndpoint(t, c, call);
      r.Served? && ChapterFlashcards(t'.flashcards, call.chapterId) == ChapterFlashcards(t.flashcards, call.chapterId) + r.rows
  {
    var rows := NewFlashcards(call.generation.items, call.chapterId, t.nextFlashcardId);
    var key := (call.userId, call.today);
    var t' := t.(flashcards := t.flashcards + rows, usage := Counted(t.usage, key),
                 nextFlashcardId := t.nextFlashcardId + |rows|);
    assert FlashcardEndpoint(t, c, call) == (Served(rows), t') by {
      assert forall k :: 0 <= k < |rows| ==> FlashcardStorable(rows[k]);
      assert FlashcardEndpoint(t, c, call).0 == Served(rows);
      assert FlashcardEndpoint(t, c, call).1 == t';
    }
    assert ChapterFlashcards(t'.flashcards, call.chapterId) == ChapterFlashcards(t.flashcards, call.chapterId) + rows by {
      ChapterFlashcardsAppend(t.flashcards, rows, call.chapterId);
      ChapterFlashcardsOwn(rows, call.chapterId);
    }
  }

  /** A flashcard generation with a `null` field is rolled back, as a failure. */
  lemma FlashcardGenerationRefused(t: Tables, c: Catalog, call: Call, k: nat)
    requires call.keyConfigured && call.generation.Generated?
    requires |ChapterFlashcards(t.flashcards, call.chapterId)| < RequestCap
    requires !Exhausted(t.usage, (call.userId, call.today)) && InCatalog(c, call.chapterId)
    requires k < |call.generation.items|
    requires !FlashcardStorable(MakeFlashcard(call.generation.items[k], call.chapterId, t.nextFlashcardId + k))
    ensures FlashcardEndpoint(t, c, call) == (FlashcardFailure(ChapterFlashcards(t.flashcards, call.chapterId)), t)
  {
    assert !FlashcardStorable(NewFlashcards(call.generation.items, call.chapterId, t.nextFlashcardId)[k]);
  }

  /**
   * A generated flashcard item with a missing key is stored with "" in that
   * field; a present key gives its value, so a `null` is kept as `None`.
   */
  lemma FlashcardDefaults(item: Item, chapterId: int, id: int)
    ensures var f := MakeFlashcard(item, chapterId, id);
      ("question" !in item ==> f.question == Some("")) && ("answer" !in item ==> f.answer == Some(""))
      && ("question" in item ==> f.question == item["question"]) && ("answer" in item ==> f.answer == item["answer"])
  {
  }

  /** A flashcard item is stored exactly when neither of its fields is `null`. */
  lemma FlashcardStorableIff(item: Item, chapterId: int, id: int)
    ensures FlashcardStorable(MakeFlashcard(item, chapterId, id)) <==>
      ("question" in item ==> item["question"].Some?) && ("answer" in item ==> item["answer"].Some?)
  {
  }

  /** An MCQ item is stored exactly when each of its six keys is present with a non-`null` value. */
  lemma McqStorableIff(item: Item, chapterId: int, id: int)
    ensures Storable(MakeMcq(item, chapterId, id)) <==>
      forall key :: key in McqKeys ==> key in item && item[key].Some?
  {
    var m := MakeMcq(item, chapterId, id);
    if !Storable(m) {
      if m.question.None? { assert "question" in McqKeys; }
      else if m.optionA.None? { assert "option_a" in McqKeys; }
      else if m.optionB.None? { assert "option_b" in McqKeys; }
      else if m.optionC.None? { assert "option_c" in McqKeys; }
      else if m.optionD.None? { assert "option_d" in McqKeys; }
      else { assert "correct" in McqKeys; }
    }
  }

  /** One request to either endpoint. */
  datatype Request = McqRequest(mcqCall: Call) | FlashcardRequest(flashcardCall: Call)

  function Handle(t: Tables, c: Catalog, req: Request): Tables {
    match req
    case McqRequest(call) => McqEndpoint(t, c, call).1
    case FlashcardRequest(call) => FlashcardEndpoint(t, c, call).1
  }

  /** The tables after requests served one after the other. */
  function HandleAll(t: Tables, c: Catalog, reqs: seq<Request>): Tables
    decreases |reqs|
  {
    if reqs == [] then t else HandleAll(Handle(t, c, reqs[0]), c, reqs[1..])
  }

  /** One request keeps every counter within the cap. */
  lemma HandleCapped(t: Tables, c: Catalog, req: Request)
    requires Capped(t.usage)
    ensures Capped(Handle(t, c, req).usage)
  {
    var call := if req.McqRequest? then req.mcqCall else req.flashcardCall;
    var key := (call.userId, call.today);
    if !Exhausted(t.usage, key) {
      CountedStaysCapped(t.usage, key);
    }
  }

  /** Over any sequence of requests, to either endpoint, no (user, day) counter passes five. */
  lemma {:induction false} HandleAllCapped(t: Tables, c: Catalog, reqs: seq<Request>)
    requires Capped(t.usage)
    ensures Capped(HandleAll(t, c, reqs).usage)
    decreases |reqs|
  {
    if reqs != [] {
      HandleCapped(t, c, reqs[0]);
      HandleAllCapped(Handle(t, c, reqs[0]), c, reqs[1..]);
    }
  }

  // ---------------------------------------------------------------------
  // The endpoints as code that updates the tables in place
  // ---------------------------------------------------------------------

  /** The database session the endpoints write through. */
  class Database {
    var mcqs: seq<McqRecord>
    var flashcards: seq<FlashcardRecord>
    var usage: map<UsageKey, nat>
    var nextMcqId: int
    var nextFlashcardId: int
    const catalog: Catalog

    function State(): Tables
      reads this
    {
      Tables(mcqs, flashcards, usage, nextMcqId, nextFlashcardId)
    }

    ghost predicate Valid()
      reads this
    {
      Capped(usage) && (forall k :: 0 <= k < |mcqs| ==> Storable(mcqs[k]))
      && forall k :: 0 <= k < |flashcards| ==> FlashcardStorable(flashcards[k])
    }

    constructor (catalog: Catalog)
      ensures Valid() && this.catalog == catalog
      ensures State() == Tables([], [], map[], 1, 1)
    {
      this.catalog := catalog;
      mcqs, flashcards, usage := [], [], map[];
      nextMcqId, nextFlashcardId := 1, 1;
    }

    /** `usage.request_count += 1`, or a new row at 1. */
    method CountRequest(key: UsageKey)
      requires Valid() && !Exhausted(usage, key)
      modifies this
      ensures Valid() && usage == Counted(old(usage), key)
      ensures mcqs == old(mcqs) && flashcards == old(flashcards)
      ensures nextMcqId == old(nextMcqId) && nextFlashcardId == old(nextFlashcardId)
    {
      if key in usage {
        usage := usage[key := usage[key] + 1];
      } else {
        usage := usage[key := 1];
      }
      CountedStaysCapped(old(usage), key);
    }

    method GenerateMcqs(call: Call) returns (r: Response<McqRecord>)
      requires Valid()
      modifies this
      ensures Valid()
      ensures (r, State()) == McqEndpoint(old(State()), catalog, call)
    {
      var existing := ChapterMcqs(mcqs, call.chapterId);
      var key := (call.userId, call.today);
      if !call.keyConfigured {
        return HttpError(500, KeyMissingDetail);
      }
      if |existing| >= RequestCap {
        return Served(existing);
      }
      if Exhausted(usage, key) {
        return HttpError(429, CounterLimitDetail);
      }
      if call.chapterId !in catalog.chapterSubject {
        return HttpError(404, "Chapter not found");
      }
      var subjectId := catalog.chapterSubject[call.chapterId];
      if subjectId !in catalog.subjectClass {
        return HttpError(404, "Subject not found");
      }
      if catalog.subjectClass[subjectId] !in catalog.classes {
        return HttpError(404, "Class not found");
      }
      match call.generation {
        case ClientFailure(msg) =>
          return McqFailure(existing, true, msg);
        case OtherFailure(msg) =>
          return McqFailure(existing, false, msg);
        case Generated(items) =>
          var newMcqs: seq<McqRecord> := [];
          var storable := true;
          var i := 0;
          while i < |items|
            invariant 0 <= i <= |items|
            invariant |newMcqs| == i
            invariant forall k :: 0 <= k < i ==> newMcqs[k] == MakeMcq(items[k], call.chapterId, nextMcqId + k)
            invariant storable <==> forall k :: 0 <= k < i ==> Storable(newMcqs[k])
          {
            var mcq := MakeMcq(items[i], call.chapterId, nextMcqId + i);
            newMcqs := newMcqs + [mcq];
            storable := storable && Storable(mcq);
            i := i + 1;
          }
          assert newMcqs == NewMcqs(items, call.chapterId, nextMcqId);
          if !storable {
            return McqFailure(existing, false, "IntegrityError");
          }
          mcqs := mcqs + newMcqs;
          nextMcqId := nextMcqId + |newMcqs|;
          CountRequest(key);
          return Served(newMcqs);
      }
    }

    method GenerateFlashcards(call: Call) returns (r: Response<FlashcardRecord>)
      requires Valid()
      modifies this
      ensures Valid()
      ensures (r, State()) == FlashcardEndpoint(old(State()), catalog, call)
    {
      var existing := ChapterFlashcards(flashcards, call.chapterId);
      var key := (call.userId, call.today);
      if !call.keyConfigured {
        return HttpError(500, KeyMissingDetail);
      }
      if |existing| >= RequestCap {
        return Served(existing);
      }
      if Exhausted(usage, key) {
        return HttpError(429, CounterLimitDetail);
      }
      if call.chapterId !in catalog.chapterSubject {
        return HttpError(404, "Chapter not found");
      }
      var subjectId := catalog.chapterSubject[call.chapterId];
      if subjectId !in catalog.subjectClass || catalog.subjectClass[subjectId] !in catalog.classes {
        // `subject.class_id` or `school_class.name` on None, outside the try block
        return HttpError(500, InternalErrorDetail);
      }
      if !call.generation.Generated? {
        return FlashcardFailure(existing);
      }
      var items := call.generation.items;
      var newFcs: seq<FlashcardRecord> := [];
      var storable := true;
      var i := 0;
      while i < |items|
        invariant 0 <= i <= |items|
        invariant |newFcs| == i
        invariant forall k :: 0 <= k < i ==> newFcs[k] == MakeFlashcard(items[k], call.chapterId, nextFlashcardId + k)
        invariant storable <==> forall k :: 0 <= k < i ==> FlashcardStorable(newFcs[k])
      {
        var fc := MakeFlashcard(items[i], call.chapterId, nextFlashcardId + i);
        newFcs := newFcs + [fc];
        storable := storable && FlashcardStorable(fc);
        i := i + 1;
      }
      assert newFcs == NewFlashcards(items, call.chapterId, nextFlashcardId);
      if !storable {
        return FlashcardFailure(existing);
      }
      flashcards := flashcards + newFcs;
      nextFlashcardId := nextFlashcardId + |newFcs|;
      CountRequest(key);
      return Served(newFcs);
    }
  }
}
