/**
 * The persistence adapter (lib/quizStorage.ts). Quiz records live in a flat
 * string key-value store (browser local storage): one entry per quiz under
 * `quizbuilder.quiz.<id>`, an index of ids under `quizbuilder.index`, and a
 * first-run flag under `quizbuilder.initialized`.
 *
 * JSON text is abstract: a stored text is either the serialisation of a
 * document (`Json`) or text that `JSON.parse` rejects (`Malformed`). A quiz
 * document keeps, for each field, whether it is present with the expected
 * primitive type, which is all `isValidQuiz` looks at.
 */
module QuizStorageAdapter {
  import opened Wrappers
  import opened QuizTypes

  const QuizIndexKey: string := "quizbuilder.index"
  const QuizPrefix: string := "quizbuilder.quiz."
  const InitializedKey: string := "quizbuilder.initialized"

  /** `${QUIZ_PREFIX}${id}`. */
  function RecordKey(id: string): (k: string)
    ensures |k| == |QuizPrefix| + |id| && k[..|QuizPrefix|] == QuizPrefix && k[|QuizPrefix|..] == id
  {
    QuizPrefix + id
  }

  /** Record keys never collide with the index or the flag, nor with each other. */
  lemma RecordKeysAreDistinct(id: string, other: string)
    ensures RecordKey(id) != QuizIndexKey && RecordKey(id) != InitializedKey
    ensures QuizIndexKey != InitializedKey
    ensures RecordKey(id) == RecordKey(other) ==> id == other
  {
    assert RecordKey(id)[12] == 'q';
    assert QuizIndexKey[12] == 'i' && InitializedKey[12] == 'i';
    assert QuizIndexKey[13] == 'n' && InitializedKey[13] == 'n';
    assert QuizIndexKey[14] == 'd' && InitializedKey[14] == 'i';
  }

  /** One field of a parsed record: present with the expected type, absent, or of another type. */
  datatype Field<T> = Typed(value: T) | Missing | Mistyped

  /** The six fields `isValidQuiz` inspects, as found in a parsed object. */
  datatype Shape = Shape(
    id: Field<string>,
    title: Field<string>,
    blocks: Field<seq<Block>>,
    published: Field<bool>,
    createdAt: Field<int>,
    updatedAt: Field<int>)

  /** A parsed JSON document: an object, an array of strings, a boolean, or null. */
  datatype Doc = ObjectDoc(shape: Shape) | ListDoc(items: seq<string>) | BoolDoc(b: bool) | NullDoc

  /** A stored text: the serialisation of a document, or text `JSON.parse` throws on. */
  datatype Stored = Json(doc: Doc) | Malformed

  /** The failures the adapter surfaces or swallows. */
  datatype StorageError =
    | StorageReadError      // `STORAGE_READ_ERROR`, thrown by safeGetItem
    | StorageWriteError     // `STORAGE_WRITE_ERROR`, thrown by safeSetItem
    | InvalidQuizData       // saveQuiz's shape check failed
    | IndexNotArray         // the parsed index has no array methods (a TypeError)
    | IndexMalformed        // `JSON.parse` threw on the index text
    | StorageUnavailable    // a raw access to disabled storage threw

  /** `isValidQuiz`: an object whose six fields have the expected primitive types; blocks are not inspected. */
  predicate IsValidQuiz(d: Doc) {
    && d.ObjectDoc?
    && d.shape.id.Typed? && d.shape.title.Typed? && d.shape.blocks.Typed?
    && d.shape.published.Typed? && d.shape.createdAt.Typed? && d.shape.updatedAt.Typed?
  }

  /** The quiz a valid document denotes. */
  function AsQuiz(d: Doc): Quiz
    requires IsValidQuiz(d)
  {
    var s := d.shape;
    Quiz(s.id.value, s.title.value, s.blocks.value, s.published.value, s.createdAt.value, s.updatedAt.value)
  }

  /** `JSON.stringify(quiz)`: parsing it back yields the quiz itself. */
  function Serialize(q: Quiz): (d: Doc)
    ensures IsValidQuiz(d) && AsQuiz(d) == q
  {
    ObjectDoc(Shape(Typed(q.id), Typed(q.title), Typed(q.blocks), Typed(q.published),
                    Typed(q.createdAt), Typed(q.updatedAt)))
  }

  /** Every valid document is the serialisation of the quiz it denotes. */
  lemma ValidIsSerialized(d: Doc)
    requires IsValidQuiz(d)
    ensures Serialize(AsQuiz(d)) == d
  {
  }

  /** `localStorage.getItem(key)` on the entries: null when absent. */
  function Lookup(e: map<string, Stored>, key: string): (r: Option<Stored>)
    ensures r.Some? <==> key in e
    ensures r.Some? ==> r.value == e[key]
  {
    if key in e then Some(e[key]) else None
  }

  /**
   * `safeJSONParse(value, fallback)`: absent or malformed text gives the
   * fallback, never an exception; well-formed text gives its document.
   */
  function SafeJSONParse(text: Option<Stored>, fallback: Doc): (d: Doc)
    ensures text.Some? && text.value.Json? ==> d == text.value.doc
    ensures text.None? || text == Some(Malformed) ==> d == fallback
  {
    match text
    case Some(Json(doc)) => doc
    case _ => fallback
  }

  /**
   * The quiz under a record key, as `getQuiz` reads it: none when the key
   * is absent, the text malformed, or the document fails `isValidQuiz`.
   */
  function ReadRecord(e: map<string, Stored>, id: string): (r: Option<Quiz>)
    ensures r.Some? <==>
      RecordKey(id) in e && e[RecordKey(id)].Json? && IsValidQuiz(e[RecordKey(id)].doc)
    ensures r.Some? ==> e[RecordKey(id)] == Json(Serialize(r.value))
  {
    var d := SafeJSONParse(Lookup(e, RecordKey(id)), NullDoc);
    if IsValidQuiz(d) then Some(AsQuiz(d)) else None
  }

  /**
   * The index as `saveQuiz` and `getAllQuizzes` parse it: absent or
   * malformed text falls back to the empty list; any other document that is
   * not an array is None (its `includes`, or iterating it, throws).
   */
  function ReadIndex(e: map<string, Stored>): (r: Option<seq<string>>)
    ensures QuizIndexKey !in e || e[QuizIndexKey] == Malformed ==> r == Some([])
    ensures QuizIndexKey in e && e[QuizIndexKey].Json? ==>
      (r.Some? <==> e[QuizIndexKey].doc.ListDoc?)
    ensures QuizIndexKey in e && e[QuizIndexKey].Json? && e[QuizIndexKey].doc.ListDoc? ==>
      r == Some(e[QuizIndexKey].doc.items)
  {
    var d := SafeJSONParse(Lookup(e, QuizIndexKey), ListDoc([]));
    if d.ListDoc? then Some(d.items) else None
  }

  /** The first-run flag reads exactly "true". */
  predicate FlagSet(e: map<string, Stored>) {
    InitializedKey in e && e[InitializedKey] == Json(BoolDoc(true))
  }

  /* ----- Seeding ----- */

  /** `SAMPLE_QUIZZES`, with both timestamps taken at module load time `t`. */
  function SampleQuizzes(t: int): seq<Quiz> {
    [ Quiz("sample-1", "Sample Quiz 1",
        [ Block("1", Heading, "Welcome to the Quiz!", None),
          Block("2", Question, "What is your favorite color?",
                Some(Properties(Some(Single), Some(["Red", "Blue", "Green", "Yellow"])))),
          Block("3", Button, "Next", None) ],
        true, t, t),
      Quiz("sample-2", "Sample Quiz 2",
        [ Block("1", Heading, "Programming Quiz", None),
          Block("2", Question, "Which of these are programming languages?",
                Some(Properties(Some(Multi), Some(["JavaScript", "HTML", "CSS", "Python"])))),
          Block("3", Button, "Submit", None),
          Block("4", Footer, "\U{00C2}\U{00A9} 2025 Quiz Builder", None) ],
        false, t, t) ]
  }

  /** `quizzes.map(q => q.id)`. */
  function QuizIds(qs: seq<Quiz>): (ids: seq<string>)
    ensures |ids| == |qs| && forall k :: 0 <= k < |qs| ==> ids[k] == qs[k].id
  {
    seq(|qs|, k requires 0 <= k < |qs| => qs[k].id)
  }

  /** One `setItem(key, value)`. */
  datatype Write = Write(key: string, value: Stored)

  /** The record writes of `SAMPLE_QUIZZES.forEach(...)`, in order. */
  function SampleWrites(samples: seq<Quiz>): (ws: seq<Write>)
    ensures |ws| == |samples|
    ensures forall k :: 0 <= k < |samples| ==>
      ws[k] == Write(RecordKey(samples[k].id), Json(Serialize(samples[k])))
  {
    seq(|samples|, k requires 0 <= k < |samples| => Write(RecordKey(samples[k].id), Json(Serialize(samples[k]))))
  }

  /** The writes `initialize` issues, in order: both samples, the index, the flag. */
  function SeedWrites(t: int): (ws: seq<Write>)
    ensures |ws| == 4
  {
    var samples := SampleQuizzes(t);
    SampleWrites(samples)
    + [ Write(QuizIndexKey, Json(ListDoc(QuizIds(samples)))),
        Write(InitializedKey, Json(BoolDoc(true))) ]
  }

  /** The entries a run of writes leaves behind: the last write to a key wins. */
  function WrittenBy(ws: seq<Write>): (m: map<string, Stored>)
    ensures forall k :: 0 <= k < |ws| ==> ws[k].key in m
  {
    if ws == [] then map[]
    else var last := ws[|ws| - 1]; WrittenBy(ws[..|ws| - 1])[last.key := last.value]
  }

  /** Only keys that some write names are touched. */
  lemma {:induction false} WrittenByKeys(ws: seq<Write>, key: string)
    requires key in WrittenBy(ws)
    ensures exists k :: 0 <= k < |ws| && ws[k].key == key
  {
    var last := ws[|ws| - 1];
    if key != last.key {
      WrittenByKeys(ws[..|ws| - 1], key);
      var k :| 0 <= k < |ws| - 1 && ws[..|ws| - 1][k].key == key;
      assert ws[k].key == key;
    }
  }

  /** The last write to a key decides what the key holds. */
  lemma {:induction false} WrittenByLast(ws: seq<Write>, k: nat)
    requires k < |ws|
    requires forall j :: k < j < |ws| ==> ws[j].key != ws[k].key
    ensures WrittenBy(ws)[ws[k].key] == ws[k].value
  {
    if k < |ws| - 1 {
      WrittenByLast(ws[..|ws| - 1], k);
    }
  }

  /** One more accepted write on top of earlier ones. */
  lemma UnionStep(e: map<string, Stored>, ws: seq<Write>, i: nat)
    requires i < |ws|
    ensures (e + WrittenBy(ws[..i]))[ws[i].key := ws[i].value] == e + WrittenBy(ws[..i + 1])
  {
    assert ws[..i + 1][..i] == ws[..i];
  }

  /** How many leading writes the store accepts before the first one that throws. */
  function AcceptedPrefix(ws: seq<Write>, rejected: set<string>): (n: nat)
    ensures n <= |ws|
    ensures forall k :: 0 <= k < n ==> ws[k].key !in rejected
    ensures n < |ws| ==> ws[n].key in rejected
  {
    if ws == [] || ws[0].key in rejected then 0
    else 1 + AcceptedPrefix(ws[1..], rejected)
  }

  /**
   * The entries after `initialize`: nothing changes when the flag is set;
   * otherwise the seed writes land in order until one throws, and the
   * exception is swallowed.
   */
  function AfterInitialize(e: map<string, Stored>, rejected: set<string>, t: int): map<string, Stored> {
    if FlagSet(e) then e
    else var ws := SeedWrites(t); e + WrittenBy(ws[..AcceptedPrefix(ws, rejected)])
  }

  /** The accepted prefix is the run of writes before the first rejected one. */
  lemma {:induction false} AcceptedPrefixUntil(ws: seq<Write>, rejected: set<string>, i: nat)
    requires i <= |ws|
    requires forall k :: 0 <= k < i ==> ws[k].key !in rejected
    requires i < |ws| ==> ws[i].key in rejected
    ensures AcceptedPrefix(ws, rejected) == i
  {
    if i > 0 {
      AcceptedPrefixUntil(ws[1..], rejected, i - 1);
    }
  }

  /** Seeding that stops at write `i`, or runs to the end (`i` = 4), leaves the writes before it. */
  lemma SeedingStopsAt(e: map<string, Stored>, rejected: set<string>, t: int, i: nat)
    requires !FlagSet(e) && i <= 4
    requires forall k :: 0 <= k < i ==> SeedWrites(t)[k].key !in rejected
    requires i < 4 ==> SeedWrites(t)[i].key in rejected
    ensures AfterInitialize(e, rejected, t) == e + WrittenBy(SeedWrites(t)[..i])
  {
    AcceptedPrefixUntil(SeedWrites(t), rejected, i);
  }

  /** A second `initialize` changes nothing, whether or not the first was cut short. */
  lemma InitializeIdempotent(e: map<string, Stored>, rejected: set<string>, t: int)
    ensures AfterInitialize(AfterInitialize(e, rejected, t), rejected, t) == AfterInitialize(e, rejected, t)
  {
    var once := AfterInitialize(e, rejected, t);
    if !FlagSet(once) {
      var ws := SeedWrites(t);
      var w := WrittenBy(ws[..AcceptedPrefix(ws, rejected)]);
      assert !FlagSet(e);
      assert once == e + w;
      assert once + w == once;
    }
  }

  /** The keys of the four seed writes, in order. */
  lemma SeedWriteKeys(t: int)
    ensures SeedWrites(t)[0].key == RecordKey("sample-1") && SeedWrites(t)[1].key == RecordKey("sample-2")
    ensures SeedWrites(t)[2].key == QuizIndexKey && SeedWrites(t)[3].key == InitializedKey
  {
  }

  /** Seeding touches nothing but the two sample records, the index and the flag. */
  lemma InitializeTouchesOnlySeedKeys(e: map<string, Stored>, rejected: set<string>, t: int, key: string)
    requires key != RecordKey("sample-1") && key != RecordKey("sample-2")
    requires key != QuizIndexKey && key != InitializedKey
    ensures Lookup(AfterInitialize(e, rejected, t), key) == Lookup(e, key)
  {
    if !FlagSet(e) {
      var ws := SeedWrites(t);
      var n := AcceptedPrefix(ws, rejected);
      SeedWriteKeys(t);
      assert forall k :: 0 <= k < n ==> ws[..n][k].key != key;
      if key in WrittenBy(ws[..n]) {
        WrittenByKeys(ws[..n], key);
      }
    }
  }

  /** When every seed write is accepted, the two samples are stored, indexed and flagged. */
  lemma SeedingWritesSamples(e: map<string, Stored>, rejected: set<string>, t: int)
    requires !FlagSet(e)
    requires forall k :: 0 <= k < 4 ==> SeedWrites(t)[k].key !in rejected
    ensures var after := AfterInitialize(e, rejected, t);
      && FlagSet(after)
      && ReadIndex(after) == Some(["sample-1", "sample-2"])
      && ReadRecord(after, "sample-1") == Some(SampleQuizzes(t)[0])
      && ReadRecord(after, "sample-2") == Some(SampleQuizzes(t)[1])
  {
    var ws := SeedWrites(t);
    var samples := SampleQuizzes(t);
    AcceptedPrefixUntil(ws, rejected, 4);
    assert ws[..4] == ws;
    RecordKeysAreDistinct("sample-1", "sample-2");
    RecordKeysAreDistinct("sample-2", "sample-1");
    var w := WrittenBy(ws);
    WrittenByLast(ws, 0);
    WrittenByLast(ws, 1);
    WrittenByLast(ws, 2);
    WrittenByLast(ws, 3);
    assert QuizIds(samples) == ["sample-1", "sample-2"];
  }

  /* ----- Listing ----- */

  /** What one index entry contributes to `getAllQuizzes`: its record if valid, else nothing. */
  function RecordAt(e: map<string, Stored>, id: string): (r: seq<Quiz>)
    ensures |r| <= 1
    ensures r == [] <==> ReadRecord(e, id).None?
  {
    match ReadRecord(e, id)
    case Some(q) => [q]
    case None => []
  }

  /** The loop of `getAllQuizzes`: the valid records of the indexed ids, in index order. */
  function Collect(e: map<string, Stored>, ids: seq<string>): seq<Quiz>
    decreases |ids|
  {
    if ids == [] then []
    else Collect(e, ids[..|ids| - 1]) + RecordAt(e, ids[|ids| - 1])
  }

  /** A quiz is collected exactly when it is the valid record of some indexed id. */
  lemma {:induction false} CollectMembers(e: map<string, Stored>, ids: seq<string>, q: Quiz)
    ensures q in Collect(e, ids) <==> exists k :: 0 <= k < |ids| && ReadRecord(e, ids[k]) == Some(q)
  {
    if ids != [] {
      var init := ids[..|ids| - 1];
      CollectMembers(e, init, q);
      if ReadRecord(e, ids[|ids| - 1]) == Some(q) {
        assert q in Collect(e, ids);
      }
      if exists k :: 0 <= k < |ids| && ReadRecord(e, ids[k]) == Some(q) {
        var k :| 0 <= k < |ids| && ReadRecord(e, ids[k]) == Some(q);
        if k < |ids| - 1 {
          assert init[k] == ids[k];
        }
      }
      if q in Collect(e, init) {
        var k :| 0 <= k < |init| && ReadRecord(e, init[k]) == Some(q);
        assert ids[k] == init[k];
      }
    }
  }

  /** The sort comparator `(a, b) => b.updatedAt - a.updatedAt`. */
  function NewerFirst(a: Quiz, b: Quiz): (r: int)
    ensures r > 0 <==> a.updatedAt < b.updatedAt
    ensures r == 0 <==> a.updatedAt == b.updatedAt
  {
    b.updatedAt - a.updatedAt
  }

  /**
   * Inserts `q`, which came before every element of `sorted`, into its place:
   * it moves behind an element only when the comparator says that element
   * sorts first, as a stable sort does.
   */
  function InsertByRecency(q: Quiz, sorted: seq<Quiz>): seq<Quiz> {
    if sorted == [] then [q]
    else if NewerFirst(q, sorted[0]) > 0 then [sorted[0]] + InsertByRecency(q, sorted[1..])
    else [q] + sorted
  }

  /** `quizzes.sort(NewerFirst)`: a stable sort, modelled as insertion sort. */
  function SortByRecency(qs: seq<Quiz>): seq<Quiz> {
    if qs == [] then [] else InsertByRecency(qs[0], SortByRecency(qs[1..]))
  }

  /** Most recently updated first. */
  predicate NewestFirst(qs: seq<Quiz>) {
    forall i, j :: 0 <= i < j < |qs| ==> qs[i].updatedAt >= qs[j].updatedAt
  }

  /** Inserting adds exactly the one element. */
  lemma {:induction false} InsertByRecencyMultiset(q: Quiz, sorted: seq<Quiz>)
    ensures multiset(InsertByRecency(q, sorted)) == multiset(sorted) + multiset{q}
  {
    if sorted != [] && NewerFirst(q, sorted[0]) > 0 {
      var rest := InsertByRecency(q, sorted[1..]);
      InsertByRecencyMultiset(q, sorted[1..]);
      assert multiset(sorted) == multiset{sorted[0]} + multiset(sorted[1..]) by {
        assert sorted == [sorted[0]] + sorted[1..];
      }
      assert multiset([sorted[0]] + rest) == multiset{sorted[0]} + multiset(rest);
    } else {
      assert multiset([q] + sorted) == multiset{q} + multiset(sorted);
    }
  }

  /** Inserting an element no newer than `m` into elements no newer than `m` keeps them so. */
  lemma {:induction false} InsertByRecencyBounded(q: Quiz, sorted: seq<Quiz>, m: int)
    requires q.updatedAt <= m
    requires forall k :: 0 <= k < |sorted| ==> sorted[k].updatedAt <= m
    ensures forall k :: 0 <= k < |InsertByRecency(q, sorted)| ==> InsertByRecency(q, sorted)[k].updatedAt <= m
  {
    if sorted != [] && NewerFirst(q, sorted[0]) > 0 {
      InsertByRecencyBounded(q, sorted[1..], m);
    }
  }

  lemma {:induction false} InsertByRecencyCorrect(q: Quiz, sorted: seq<Quiz>)
    requires NewestFirst(sorted)
    ensures NewestFirst(InsertByRecency(q, sorted))
    ensures multiset(InsertByRecency(q, sorted)) == multiset(sorted) + multiset{q}
  {
    InsertByRecencyMultiset(q, sorted);
    if sorted != [] && NewerFirst(q, sorted[0]) > 0 {
      var rest := InsertByRecency(q, sorted[1..]);
      InsertByRecencyCorrect(q, sorted[1..]);
      InsertByRecencyBounded(q, sorted[1..], sorted[0].updatedAt);
      assert InsertByRecency(q, sorted) == [sorted[0]] + rest;
    }
  }

  /** The sort orders by `updatedAt`, newest first, and is a permutation. */
  lemma {:induction false} SortByRecencyCorrect(qs: seq<Quiz>)
    ensures NewestFirst(SortByRecency(qs))
    ensures multiset(SortByRecency(qs)) == multiset(qs)
  {
    if qs != [] {
      SortByRecencyCorrect(qs[1..]);
      InsertByRecencyCorrect(qs[0], SortByRecency(qs[1..]));
      assert qs == [qs[0]] + qs[1..];
    }
  }

  /** The ids `getAllQuizzes` walks: the parsed index, or none when it is not an array. */
  function ListedIds(e: map<string, Stored>): seq<string> {
    ReadIndex(e).GetOr([])
  }

  /** The list `getAllQuizzes` returns once initialisation is done. */
  function AllQuizzes(e: map<string, Stored>): seq<Quiz> {
    SortByRecency(Collect(e, ListedIds(e)))
  }

  /**
   * `getAllQuizzes` returns the valid records of indexed ids and nothing
   * else, newest first; missing or invalid records are skipped.
   */
  lemma AllQuizzesCorrect(e: map<string, Stored>, q: Quiz)
    ensures NewestFirst(AllQuizzes(e))
    ensures q in AllQuizzes(e) <==>
      exists k :: 0 <= k < |ListedIds(e)| && ReadRecord(e, ListedIds(e)[k]) == Some(q)
  {
    SortByRecencyCorrect(Collect(e, ListedIds(e)));
    CollectMembers(e, ListedIds(e), q);
    assert q in AllQuizzes(e) <==> q in multiset(AllQuizzes(e));
  }

  /** Without an index there is nothing to list. */
  lemma NoIndexNoQuizzes(e: map<string, Stored>)
    requires QuizIndexKey !in e
    ensures AllQuizzes(e) == []
  {
  }

  /** On a first run every seed write lands, and the listing is exactly the two samples. */
  lemma FirstRunListsSamples(e: map<string, Stored>, rejected: set<string>, t: int)
    requires !FlagSet(e)
    requires forall k :: 0 <= k < 4 ==> SeedWrites(t)[k].key !in rejected
    ensures AllQuizzes(AfterInitialize(e, rejected, t)) == SampleQuizzes(t)
  {
    var after := AfterInitialize(e, rejected, t);
    var samples := SampleQuizzes(t);
    SeedingWritesSamples(e, rejected, t);
    var ids := ListedIds(after);
    assert ids == ["sample-1", "sample-2"];
    assert RecordAt(after, ids[0]) == [samples[0]];
    assert RecordAt(after, ids[1]) == [samples[1]];
    assert ids[..1] == ["sample-1"] && ids[..1][..0] == [];
    assert Collect(after, ids[..1]) == [samples[0]];
    assert Collect(after, ids) == samples;
    assert NewerFirst(samples[0], samples[1]) == 0;
    assert SortByRecency(samples[1..]) == [samples[1]];
    assert SortByRecency(samples) == InsertByRecency(samples[0], [samples[1]]);
  }

  /* ----- Saving and deleting ----- */

  /** `if (!ids.includes(id)) ids.push(id)`. */
  function AppendIfMissing(ids: seq<string>, id: string): (r: seq<string>)
    ensures id in r && |ids| <= |r| && r[..|ids|] == ids
  {
    if id in ids then ids else ids + [id]
  }

  predicate NoDuplicates(ids: seq<string>) {
    forall i, j :: 0 <= i < j < |ids| ==> ids[i] != ids[j]
  }

  /** Saving never duplicates an index entry: a duplicate-free index stays so. */
  lemma AppendIfMissingNoDuplicates(ids: seq<string>, id: string)
    requires NoDuplicates(ids)
    ensures NoDuplicates(AppendIfMissing(ids, id))
    ensures |AppendIfMissing(ids, id)| == if id in ids then |ids| else |ids| + 1
  {
  }

  /** `ids.filter(x => x !== id)`. */
  function Without(ids: seq<string>, id: string): (r: seq<string>)
    ensures id !in r
    ensures forall x :: x in r <==> x in ids && x != id
  {
    if ids == [] then []
    else if ids[0] == id then Without(ids[1..], id)
    else [ids[0]] + Without(ids[1..], id)
  }

  /** Filtering an absent id leaves the index unchanged. */
  lemma {:induction false} WithoutAbsent(ids: seq<string>, id: string)
    requires id !in ids
    ensures Without(ids, id) == ids
  {
    if ids != [] {
      WithoutAbsent(ids[1..], id);
    }
  }

  /** Filtering keeps the other ids in their order: it distributes over concatenation. */
  lemma {:induction false} WithoutAppend(a: seq<string>, b: seq<string>, id: string)
    ensures Without(a + b, id) == Without(a, id) + Without(b, id)
  {
    if a == [] {
      assert a + b == b;
    } else {
      assert (a + b)[1..] == a[1..] + b;
      WithoutAppend(a[1..], b, id);
    }
  }

  /** A store operation's outcome (returned or thrown) and the entries it leaves. */
  datatype Effect = Effect(outcome: Outcome<StorageError>, entries: map<string, Stored>)

  /**
   * `saveQuiz(candidate)`: the shape check runs before any write; then the
   * record is written, and the id is appended to the index if absent. Every
   * failure is re-thrown; a failure after the record write leaves that
   * write in place.
   */
  function SaveQuizSpec(e: map<string, Stored>, disabled: bool, rejected: set<string>, candidate: Doc): (r: Effect)
    ensures !IsValidQuiz(candidate) ==> r == Effect(Fail(InvalidQuizData), e)
    ensures IsValidQuiz(candidate) && (disabled || RecordKey(AsQuiz(candidate).id) in rejected) ==>
      r == Effect(Fail(StorageWriteError), e)
    ensures IsValidQuiz(candidate) ==> forall key :: key != RecordKey(AsQuiz(candidate).id) && key != QuizIndexKey ==>
      Lookup(r.entries, key) == Lookup(e, key)
  {
    if !IsValidQuiz(candidate) then Effect(Fail(InvalidQuizData), e)
    else
      var id := AsQuiz(candidate).id;
      var key := RecordKey(id);
      if disabled || key in rejected then Effect(Fail(StorageWriteError), e)
      else
        var written := e[key := Json(candidate)];
        match ReadIndex(written)
        case None => Effect(Fail(IndexNotArray), written)
        case Some(ids) =>
          if id in ids then Effect(Pass, written)
          else if QuizIndexKey in rejected then Effect(Fail(StorageWriteError), written)
          else Effect(Pass, written[QuizIndexKey := Json(ListDoc(AppendIfMissing(ids, id)))])
  }

  /** Round trip: after a successful `saveQuiz(q)`, `getQuiz(q.id)` returns `q`. */
  lemma SaveThenRead(e: map<string, Stored>, rejected: set<string>, q: Quiz)
    requires SaveQuizSpec(e, false, rejected, Serialize(q)).outcome == Pass
    ensures ReadRecord(SaveQuizSpec(e, false, rejected, Serialize(q)).entries, q.id) == Some(q)
  {
    RecordKeysAreDistinct(q.id, q.id);
  }

  /**
   * After a successful save the index holds the id, keeps every earlier
   * entry in order (a missing or malformed index counting as empty), and
   * has no duplicates if it had none.
   */
  lemma SaveIndexesOnce(e: map<string, Stored>, rejected: set<string>, candidate: Doc)
    requires SaveQuizSpec(e, false, rejected, candidate).outcome == Pass
    ensures IsValidQuiz(candidate) && ReadIndex(e).Some?
    ensures var after := SaveQuizSpec(e, false, rejected, candidate).entries;
      var ids := ReadIndex(e).value;
      && ReadIndex(after) == Some(AppendIfMissing(ids, AsQuiz(candidate).id))
      && (NoDuplicates(ids) ==> NoDuplicates(ReadIndex(after).value))
  {
    var id := AsQuiz(candidate).id;
    var written := e[RecordKey(id) := Json(candidate)];
    RecordKeysAreDistinct(id, id);
    assert Lookup(written, QuizIndexKey) == Lookup(e, QuizIndexKey);
    assert ReadIndex(written) == ReadIndex(e);
    var ids := ReadIndex(e).value;
    if NoDuplicates(ids) {
      AppendIfMissingNoDuplicates(ids, id);
    }
  }

  /**
   * `deleteQuiz(id)`: remove the record, then rewrite the index without
   * `id`. Every failure is swallowed (and only notified), so a failure
   * after the removal leaves the removal in place.
   */
  function DeleteQuizSpec(e: map<string, Stored>, disabled: bool, rejected: set<string>, id: string): (r: Effect)
    ensures disabled ==> r == Effect(Fail(StorageUnavailable), e)
    ensures !disabled ==> RecordKey(id) !in r.entries
    ensures !disabled ==> forall key :: key != RecordKey(id) && key != QuizIndexKey ==>
      Lookup(r.entries, key) == Lookup(e, key)
  {
    if disabled then Effect(Fail(StorageUnavailable), e)
    else
      var removed := e - {RecordKey(id)};
      match Lookup(removed, QuizIndexKey)
      case None => Effect(Pass, removed)
      case Some(Malformed) => Effect(Fail(IndexMalformed), removed)
      case Some(Json(ListDoc(ids))) =>
        if QuizIndexKey in rejected then Effect(Fail(StorageWriteError), removed)
        else Effect(Pass, removed[QuizIndexKey := Json(ListDoc(Without(ids, id)))])
      case Some(Json(_)) => Effect(Fail(IndexNotArray), removed)
  }

  /**
   * After `deleteQuiz(id)` on available storage the record is gone; when
   * the index was a list and could be rewritten, it no longer holds `id`
   * and keeps the other ids in order.
   */
  lemma DeleteForgets(e: map<string, Stored>, rejected: set<string>, id: string)
    ensures var after := DeleteQuizSpec(e, false, rejected, id).entries;
      && ReadRecord(after, id).None?
      && (QuizIndexKey in e && e[QuizIndexKey].Json? && e[QuizIndexKey].doc.ListDoc?
          && QuizIndexKey !in rejected ==>
            ReadIndex(after) == Some(Without(e[QuizIndexKey].doc.items, id)))
  {
    RecordKeysAreDistinct(id, id);
  }

  /** Every valid record sits under the key of its own id. */
  ghost predicate WellKeyed(e: map<string, Stored>) {
    forall id :: ReadRecord(e, id).Some? ==> ReadRecord(e, id).value.id == id
  }

  /** Saving keeps every record under its own id. */
  lemma SaveKeepsWellKeyed(e: map<string, Stored>, disabled: bool, rejected: set<string>, candidate: Doc)
    requires WellKeyed(e)
    ensures WellKeyed(SaveQuizSpec(e, disabled, rejected, candidate).entries)
  {
    var saved := SaveQuizSpec(e, disabled, rejected, candidate).entries;
    forall x | ReadRecord(saved, x).Some? ensures ReadRecord(saved, x).value.id == x {
      RecordKeysAreDistinct(x, x);
      if IsValidQuiz(candidate) && RecordKey(x) != RecordKey(AsQuiz(candidate).id) {
        assert Lookup(saved, RecordKey(x)) == Lookup(e, RecordKey(x));
        assert ReadRecord(saved, x) == ReadRecord(e, x);
      } else if IsValidQuiz(candidate) {
        RecordKeysAreDistinct(x, AsQuiz(candidate).id);
      }
    }
  }

  /** Deleting keeps every record under its own id. */
  lemma DeleteKeepsWellKeyed(e: map<string, Stored>, disabled: bool, rejected: set<string>, id: string)
    requires WellKeyed(e)
    ensures WellKeyed(DeleteQuizSpec(e, disabled, rejected, id).entries)
  {
    var deleted := DeleteQuizSpec(e, disabled, rejected, id).entries;
    forall x | ReadRecord(deleted, x).Some? ensures ReadRecord(deleted, x).value.id == x {
      RecordKeysAreDistinct(x, id);
      assert Lookup(deleted, RecordKey(x)) == Lookup(e, RecordKey(x));
      assert ReadRecord(deleted, x) == ReadRecord(e, x);
    }
  }

  /** Seeding keeps every record under its own id. */
  lemma InitializeKeepsWellKeyed(e: map<string, Stored>, rejected: set<string>, t: int)
    requires WellKeyed(e)
    ensures WellKeyed(AfterInitialize(e, rejected, t))
  {
    var seeded := AfterInitialize(e, rejected, t);
    if !FlagSet(e) {
      var ws := SeedWrites(t);
      var n := AcceptedPrefix(ws, rejected);
      var w := WrittenBy(ws[..n]);
      assert seeded == e + w;
      forall x | ReadRecord(seeded, x).Some? ensures ReadRecord(seeded, x).value.id == x {
        if RecordKey(x) in w {
          SeedRecordsAreOwnIds(t, n, x);
        } else {
          assert Lookup(seeded, RecordKey(x)) == Lookup(e, RecordKey(x));
          assert ReadRecord(seeded, x) == ReadRecord(e, x);
        }
      }
    }
  }

  /** A seed write to a record key stores the sample with that id. */
  lemma {:induction false} SeedRecordsAreOwnIds(t: int, n: nat, x: string)
    requires n <= 4
    requires RecordKey(x) in WrittenBy(SeedWrites(t)[..n])
    ensures WrittenBy(SeedWrites(t)[..n])[RecordKey(x)] == Json(Serialize(SampleQuizzes(t)[if x == "sample-1" then 0 else 1]))
    ensures x == "sample-1" || x == "sample-2"
  {
    var ws := SeedWrites(t);
    RecordKeysAreDistinct(x, "sample-1");
    RecordKeysAreDistinct(x, "sample-2");
    RecordKeysAreDistinct("sample-1", "sample-2");
    if n > 0 {
      var prefix := ws[..n];
      assert prefix[..n - 1] == ws[..n - 1];
      if ws[n - 1].key != RecordKey(x) {
        SeedRecordsAreOwnIds(t, n - 1, x);
      }
    }
  }

  /**
   * `QuizStorage` over one browser store. `disabled` stands for storage
   * that throws on every access; `rejected` for keys whose `setItem` throws
   * (a full quota). `loadedAt` is the time the sample quizzes were built.
   */
  class QuizStorage {
    var entries: map<string, Stored>
    const disabled: bool
    const rejected: set<string>
    const loadedAt: int

    constructor (entries: map<string, Stored>, disabled: bool, rejected: set<string>, loadedAt: int)
      ensures this.entries == entries && this.disabled == disabled
      ensures this.rejected == rejected && this.loadedAt == loadedAt
    {
      this.entries := entries;
      this.disabled := disabled;
      this.rejected := rejected;
      this.loadedAt := loadedAt;
    }

    /** `isInitialized`: a raw read of the flag, which throws on disabled storage. */
    function IsInitialized(): (r: Result<bool, StorageError>)
      reads this
      ensures r.Err? <==> disabled
      ensures r.Ok? ==> (r.value <==> FlagSet(entries))
    {
      if disabled then Err(StorageUnavailable)
      else Ok(Lookup(entries, InitializedKey) == Some(Json(BoolDoc(true))))
    }

    /** `safeGetItem`: a failing read surfaces as `STORAGE_READ_ERROR`. */
    function SafeGetItem(key: string): (r: Result<Option<Stored>, StorageError>)
      reads this
      ensures disabled ==> r == Err(StorageReadError)
      ensures !disabled ==> r == Ok(Lookup(entries, key))
    {
      if disabled then Err(StorageReadError) else Ok(Lookup(entries, key))
    }

    /** A raw `localStorage.setItem`; `ok` is false when it throws. */
    method SetItem(key: string, value: Stored) returns (ok: bool)
      modifies this
      ensures ok == (!disabled && key !in rejected)
      ensures entries == if ok then old(entries)[key := value] else old(entries)
    {
      ok := !disabled && key !in rejected;
      if ok {
        entries := entries[key := value];
      }
    }

    /** `safeSetItem`: a failing write surfaces as `STORAGE_WRITE_ERROR`. */
    method SafeSetItem(key: string, value: Stored) returns (r: Outcome<StorageError>)
      modifies this
      ensures r == if !disabled && key !in rejected then Pass else Fail(StorageWriteError)
      ensures entries == if r.Pass? then old(entries)[key := value] else old(entries)
    {
      var ok := SetItem(key, value);
      r := if ok then Pass else Fail(StorageWriteError);
    }

    /**
     * `initialize`: seed the samples, the index and the flag unless the flag
     * is set. The flag check itself throws on disabled storage. The seed
     * writes share one `try`, so the first write that throws ends the run
     * and is swallowed.
     */
    method Initialize() returns (r: Outcome<StorageError>)
      modifies this
      ensures disabled ==> r == Fail(StorageUnavailable) && entries == old(entries)
      ensures !disabled ==> r == Pass && entries == AfterInitialize(old(entries), rejected, loadedAt)
    {
      var initialized := IsInitialized();
      if initialized.Err? {
        return Fail(initialized.error);
      }
      if initialized.value {
        return Pass;
      }
      ghost var start := entries;
      var stored := WriteInOrder(SeedWrites(loadedAt));
      SeedingStopsAt(start, rejected, loadedAt, stored);
      r := Pass;
    }

    /**
     * The body of `initialize`'s `try`: issue `ws` in order (the sample
     * records, then the index, then the flag) and stop at the first write
     * that throws; `stored` counts the writes that landed.
     */
    method WriteInOrder(ws: seq<Write>) returns (stored: nat)
      modifies this
      ensures stored <= |ws|
      ensures forall k :: 0 <= k < stored ==> !disabled && ws[k].key !in rejected
      ensures stored < |ws| ==> disabled || ws[stored].key in rejected
      ensures entries == old(entries) + WrittenBy(ws[..stored])
    {
      assert ws[..0] == [];
      var i := 0;
      while i < |ws|
        invariant 0 <= i <= |ws|
        invariant forall k :: 0 <= k < i ==> !disabled && ws[k].key !in rejected
        invariant entries == old(entries) + WrittenBy(ws[..i])
      {
        var ok := SetItem(ws[i].key, ws[i].value);
        if !ok {
          return i;
        }
        UnionStep(old(entries), ws, i);
        i := i + 1;
      }
      stored := i;
    }

    /** `getQuiz`: a read error is caught and reads as null. */
    function GetQuiz(id: string): (r: Option<Quiz>)
      reads this
      ensures disabled ==> r.None?
      ensures !disabled ==> r == ReadRecord(entries, id)
    {
      match SafeGetItem(RecordKey(id))
      case Err(_) => None
      case Ok(text) =>
        var d := SafeJSONParse(text, NullDoc);
        if IsValidQuiz(d) then Some(AsQuiz(d)) else None
    }

    /**
     * `getAllQuizzes`: initialise, then collect the valid records of the
     * indexed ids and sort them newest first. On disabled storage the
     * initialisation throws, outside the method's own `try`.
     */
    method GetAllQuizzes() returns (r: Result<seq<Quiz>, StorageError>)
      modifies this
      ensures disabled ==> r == Err(StorageUnavailable) && entries == old(entries)
      ensures !disabled ==> entries == AfterInitialize(old(entries), rejected, loadedAt)
      ensures !disabled ==> r == Ok(AllQuizzes(entries))
    {
      var init := Initialize();
      if init.Fail? {
        return Err(init.error);
      }
      var ids: seq<string> := [];
      var indexText := SafeGetItem(QuizIndexKey);
      if indexText.Ok? && indexText.value.Some? {
        var parsed := SafeJSONParse(indexText.value, ListDoc([]));
        if parsed.ListDoc? {
          ids := parsed.items;
        }
      }
      assert ids == ListedIds(entries);
      var quizzes: seq<Quiz> := [];
      var i := 0;
      while i < |ids|
        invariant 0 <= i <= |ids|
        invariant quizzes == Collect(entries, ids[..i])
      {
        var text := SafeGetItem(RecordKey(ids[i]));
        if text.Ok? && text.value.Some? {
          var quiz := SafeJSONParse(text.value, NullDoc);
          if IsValidQuiz(quiz) {
            quizzes := quizzes + [AsQuiz(quiz)];
          }
        }
        assert ids[..i + 1][..i] == ids[..i];
        i := i + 1;
      }
      assert ids[..i] == ids;
      r := Ok(SortByRecency(quizzes));
    }

    /** `saveQuiz`: see `SaveQuizSpec`. */
    method SaveQuiz(candidate: Doc) returns (r: Outcome<StorageError>)
      modifies this
      ensures Effect(r, entries) == SaveQuizSpec(old(entries), disabled, rejected, candidate)
    {
      if !IsValidQuiz(candidate) {
        return Fail(InvalidQuizData);
      }
      var id := AsQuiz(candidate).id;
      r := SafeSetItem(RecordKey(id), Json(candidate));
      if r.Fail? {
        return;
      }
      var indexText := SafeGetItem(QuizIndexKey);
      if indexText.Err? {
        return Fail(StorageReadError);
      }
      var parsed := SafeJSONParse(indexText.value, ListDoc([]));
      if !parsed.ListDoc? {
        return Fail(IndexNotArray);
      }
      var quizIds := parsed.items;
      if id !in quizIds {
        quizIds := quizIds + [id];
        r := SafeSetItem(QuizIndexKey, Json(ListDoc(quizIds)));
      }
    }

    /** `deleteQuiz`: see `DeleteQuizSpec`; `ok` tells which notification is shown. */
    method DeleteQuiz(id: string) returns (ok: bool)
      modifies this
      ensures var spec := DeleteQuizSpec(old(entries), disabled, rejected, id);
        entries == spec.entries && ok == spec.outcome.Pass?
    {
      if disabled {
        return false;
      }
      entries := entries - {RecordKey(id)};
      var indexText := Lookup(entries, QuizIndexKey);
      if indexText.None? {
        return true;
      }
      match indexText.value
      case Malformed =>
        ok := false;
      case Json(ListDoc(ids)) =>
        ok := SetItem(QuizIndexKey, Json(ListDoc(Without(ids, id))));
      case Json(_) =>
        ok := false;
    }
  }
}
