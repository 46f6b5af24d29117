/**
 * The quiz list hook (hooks/useQuizManager.ts): a cached, sorted copy of
 * the stored quizzes plus a loading flag, and the create, update, publish
 * and delete actions, each of which writes through the storage adapter and
 * then reloads the cache. An exception thrown by the adapter propagates out
 * of the action; here it is the `Fail`/`Err` result, and the steps after it
 * do not run.
 */
module QuizManagerHook {
  import opened Wrappers
  import opened QuizTypes
  import opened QuizStorageAdapter

  /** `createQuiz`'s new record: the given title or "New Quiz", no blocks, unpublished. */
  function NewQuiz(title: Option<string>, id: string, now: int): (q: Quiz)
    ensures q.id == id && q.blocks == [] && !q.published
    ensures q.title == (if title.Some? then title.value else "New Quiz")
    ensures q.createdAt == now && q.updatedAt == now
  {
    Quiz(id, title.GetOr("New Quiz"), [], false, now, now)
  }

  /**
   * A `Partial<Quiz>`: the fields an update sets. `updatedAt` is left out
   * because `updateQuiz` overwrites it whatever the update says.
   */
  datatype QuizUpdate = QuizUpdate(
    id: Option<string>,
    title: Option<string>,
    blocks: Option<seq<Block>>,
    published: Option<bool>,
    createdAt: Option<int>)

  /** `{ blocks }`, `{ published: true }` and `{ published: false }`. */
  function BlocksUpdate(blocks: seq<Block>): QuizUpdate {
    QuizUpdate(None, None, Some(blocks), None, None)
  }

  function PublishedUpdate(published: bool): QuizUpdate {
    QuizUpdate(None, None, None, Some(published), None)
  }

  /** `{ ...existing, ...updates, updatedAt: now }`. */
  function ApplyQuizUpdate(q: Quiz, u: QuizUpdate, now: int): (r: Quiz)
    ensures r.updatedAt == now
    ensures u.id.None? ==> r.id == q.id
    ensures u.title.None? ==> r.title == q.title
    ensures u.blocks.None? ==> r.blocks == q.blocks
    ensures u.published.None? ==> r.published == q.published
    ensures u.createdAt.None? ==> r.createdAt == q.createdAt
    ensures u.id.Some? ==> r.id == u.id.value
    ensures u.title.Some? ==> r.title == u.title.value
    ensures u.blocks.Some? ==> r.blocks == u.blocks.value
    ensures u.published.Some? ==> r.published == u.published.value
    ensures u.createdAt.Some? ==> r.createdAt == u.createdAt.value
  {
    Quiz(u.id.GetOr(q.id), u.title.GetOr(q.title), u.blocks.GetOr(q.blocks),
         u.published.GetOr(q.published), u.createdAt.GetOr(q.createdAt), now)
  }

  /** Applying the same update twice is applying it once, at the later time. */
  lemma ApplyQuizUpdateIdempotent(q: Quiz, u: QuizUpdate, first: int, second: int)
    ensures ApplyQuizUpdate(ApplyQuizUpdate(q, u, first), u, second) == ApplyQuizUpdate(q, u, second)
  {
  }

  /** `saveQuizBlocks` replaces the blocks and touches `updatedAt`, nothing else. */
  lemma BlocksUpdateOnlyBlocks(q: Quiz, blocks: seq<Block>, now: int)
    ensures ApplyQuizUpdate(q, BlocksUpdate(blocks), now) == q.(blocks := blocks, updatedAt := now)
  {
  }

  /** Publishing and unpublishing set the flag and touch `updatedAt`, nothing else. */
  lemma PublishedUpdateOnlyPublished(q: Quiz, published: bool, now: int)
    ensures ApplyQuizUpdate(q, PublishedUpdate(published), now) == q.(published := published, updatedAt := now)
  {
  }

  /** Unpublishing right after publishing restores everything but `updatedAt`. */
  lemma PublishThenUnpublish(q: Quiz, first: int, second: int)
    requires !q.published
    ensures ApplyQuizUpdate(ApplyQuizUpdate(q, PublishedUpdate(true), first), PublishedUpdate(false), second)
      == q.(updatedAt := second)
  {
  }

  /* ----- What the actions leave in storage ----- */

  /** Saving touches neither the flag nor any record but the saved one. */
  lemma SaveKeepsFlag(e: map<string, Stored>, rejected: set<string>, candidate: Doc)
    ensures FlagSet(SaveQuizSpec(e, false, rejected, candidate).entries) == FlagSet(e)
  {
    if IsValidQuiz(candidate) {
      RecordKeysAreDistinct(AsQuiz(candidate).id, AsQuiz(candidate).id);
      assert Lookup(SaveQuizSpec(e, false, rejected, candidate).entries, InitializedKey) == Lookup(e, InitializedKey);
    }
  }

  /** Deleting touches neither the flag nor any record but the deleted one. */
  lemma DeleteKeepsFlag(e: map<string, Stored>, rejected: set<string>, id: string)
    ensures FlagSet(DeleteQuizSpec(e, false, rejected, id).entries) == FlagSet(e)
  {
    RecordKeysAreDistinct(id, id);
    assert Lookup(DeleteQuizSpec(e, false, rejected, id).entries, InitializedKey) == Lookup(e, InitializedKey);
  }

  /** Once the flag is set, the reload's `initialize` writes nothing. */
  lemma InitializedStoreIsLeftAlone(e: map<string, Stored>, rejected: set<string>, t: int)
    requires FlagSet(e)
    ensures AfterInitialize(e, rejected, t) == e
  {
  }

  /** A successfully saved quiz is in the list the reload reads. */
  lemma SavedQuizIsListed(e: map<string, Stored>, rejected: set<string>, q: Quiz)
    requires SaveQuizSpec(e, false, rejected, Serialize(q)).outcome == Pass
    ensures q in AllQuizzes(SaveQuizSpec(e, false, rejected, Serialize(q)).entries)
  {
    var after := SaveQuizSpec(e, false, rejected, Serialize(q)).entries;
    SaveThenRead(e, rejected, q);
    SaveIndexesOnce(e, rejected, Serialize(q));
    var ids := ListedIds(after);
    var k :| 0 <= k < |ids| && ids[k] == q.id;
    AllQuizzesCorrect(after, q);
  }

  /**
   * With every record under its own id, no quiz with the deleted id is
   * listed after `deleteQuiz`, whichever step of it failed.
   */
  lemma DeletedQuizIsNotListed(e: map<string, Stored>, rejected: set<string>, id: string, q: Quiz)
    requires WellKeyed(e)
    ensures q in AllQuizzes(DeleteQuizSpec(e, false, rejected, id).entries) ==> q.id != id
  {
    var after := DeleteQuizSpec(e, false, rejected, id).entries;
    DeleteKeepsWellKeyed(e, false, rejected, id);
    DeleteForgets(e, rejected, id);
    AllQuizzesCorrect(after, q);
    if q in AllQuizzes(after) {
      var ids := ListedIds(after);
      var k :| 0 <= k < |ids| && ReadRecord(after, ids[k]) == Some(q);
      assert q.id == ids[k];
    }
  }

  /**
   * What `updateQuiz(quizId, updates)` does to storage before its reload:
   * nothing when `getQuiz` finds no valid record (disabled storage reads as
   * none), otherwise `saveQuiz` of the merged record.
   */
  function UpdateQuizSpec(e: map<string, Stored>, disabled: bool, rejected: set<string>,
                          quizId: string, u: QuizUpdate, now: int): (r: Effect)
    ensures (disabled || ReadRecord(e, quizId).None?) ==> r == Effect(Pass, e)
    ensures !disabled && ReadRecord(e, quizId).Some? ==>
      r == SaveQuizSpec(e, false, rejected, Serialize(ApplyQuizUpdate(ReadRecord(e, quizId).value, u, now)))
  {
    if disabled then Effect(Pass, e)
    else match ReadRecord(e, quizId)
      case None => Effect(Pass, e)
      case Some(existing) => SaveQuizSpec(e, false, rejected, Serialize(ApplyQuizUpdate(existing, u, now)))
  }

  /**
   * A successful update that keeps the id stores the merged record under the
   * same key, where `getQuiz(quizId)` reads it back, and lists it.
   */
  lemma UpdateIsReadBack(e: map<string, Stored>, rejected: set<string>, quizId: string, u: QuizUpdate, now: int)
    requires WellKeyed(e)
    requires ReadRecord(e, quizId).Some? && u.id.None?
    requires UpdateQuizSpec(e, false, rejected, quizId, u, now).outcome == Pass
    ensures var after := UpdateQuizSpec(e, false, rejected, quizId, u, now).entries;
      var updated := ApplyQuizUpdate(ReadRecord(e, quizId).value, u, now);
      && ReadRecord(after, quizId) == Some(updated)
      && updated in AllQuizzes(after)
  {
    var updated := ApplyQuizUpdate(ReadRecord(e, quizId).value, u, now);
    assert updated.id == quizId;
    SaveThenRead(e, rejected, updated);
    SavedQuizIsListed(e, rejected, updated);
  }

  /** The list page's state: the cached quizzes and whether a load is in flight. */
  class QuizManager {
    var quizzes: seq<Quiz>
    var loading: bool
    const storage: QuizStorage

    /** The initial state, before the mount effect's first load. */
    constructor (storage: QuizStorage)
      ensures quizzes == [] && loading && this.storage == storage
    {
      quizzes := [];
      loading := true;
      this.storage := storage;
    }

    /**
     * `loadQuizzes`: raise the loading flag, read every quiz, cache them and
     * lower the flag. When the read throws, the flag stays raised and the
     * cache keeps its old contents.
     */
    method LoadQuizzes() returns (r: Outcome<StorageError>)
      modifies this, storage
      ensures storage.disabled ==>
        r == Fail(StorageUnavailable) && loading && quizzes == old(quizzes)
        && storage.entries == old(storage.entries)
      ensures !storage.disabled ==>
        r == Pass && !loading && quizzes == AllQuizzes(storage.entries)
        && storage.entries == AfterInitialize(old(storage.entries), storage.rejected, storage.loadedAt)
      ensures NewestFirst(quizzes) || quizzes == old(quizzes)
    {
      loading := true;
      var all := storage.GetAllQuizzes();
      if all.Err? {
        return Fail(all.error);
      }
      SortByRecencyCorrect(Collect(storage.entries, ListedIds(storage.entries)));
      quizzes := all.value;
      loading := false;
      r := Pass;
    }

    /**
     * `createQuiz(title)`: save a fresh, empty, unpublished quiz and reload.
     * `freshId` and `now` stand for `crypto.randomUUID()` and the clock.
     */
    method CreateQuiz(title: Option<string>, freshId: string, now: int) returns (r: Result<Quiz, StorageError>)
      modifies this, storage
      ensures var saved := SaveQuizSpec(old(storage.entries), storage.disabled, storage.rejected,
                                        Serialize(NewQuiz(title, freshId, now)));
        && (r.Err? ==> Fail(r.error) == saved.outcome && storage.entries == saved.entries
                       && quizzes == old(quizzes) && loading == old(loading))
        && (r.Ok? ==> saved.outcome == Pass && r.value == NewQuiz(title, freshId, now)
                      && storage.entries == AfterInitialize(saved.entries, storage.rejected, storage.loadedAt)
                      && quizzes == AllQuizzes(storage.entries) && !loading)
      ensures r.Ok? && FlagSet(old(storage.entries)) ==> r.value in quizzes
    {
      var quiz := NewQuiz(title, freshId, now);
      var saved := storage.SaveQuiz(Serialize(quiz));
      if saved.Fail? {
        return Err(saved.error);
      }
      ghost var stored := storage.entries;
      var loaded := LoadQuizzes();
      if FlagSet(old(storage.entries)) {
        SaveKeepsFlag(old(storage.entries), storage.rejected, Serialize(quiz));
        SavedQuizIsListed(old(storage.entries), storage.rejected, quiz);
      }
      r := Ok(quiz);
    }

    /**
     * `updateQuiz(quizId, updates)`: merge the updates into the stored
     * record, stamp it with `now`, save it and reload; no stored record
     * means no write and no reload.
     */
    method UpdateQuiz(quizId: string, u: QuizUpdate, now: int) returns (r: Outcome<StorageError>)
      modifies this, storage
      ensures var spec := UpdateQuizSpec(old(storage.entries), storage.disabled, storage.rejected, quizId, u, now);
        && r == spec.outcome
        && (r.Fail? || storage.disabled || ReadRecord(old(storage.entries), quizId).None? ==>
              storage.entries == spec.entries && quizzes == old(quizzes) && loading == old(loading))
        && (r.Pass? && !storage.disabled && ReadRecord(old(storage.entries), quizId).Some? ==>
              storage.entries == AfterInitialize(spec.entries, storage.rejected, storage.loadedAt)
              && quizzes == AllQuizzes(storage.entries) && !loading)
    {
      var existing := storage.GetQuiz(quizId);
      if existing.None? {
        return Pass;
      }
      var updated := ApplyQuizUpdate(existing.value, u, now);
      r := storage.SaveQuiz(Serialize(updated));
      if r.Fail? {
        return;
      }
      var loaded := LoadQuizzes();
    }

    /** `saveQuizBlocks(quizId, blocks)`: `updateQuiz(quizId, { blocks })`. */
    method SaveQuizBlocks(quizId: string, blocks: seq<Block>, now: int) returns (r: Outcome<StorageError>)
      modifies this, storage
      ensures var spec := UpdateQuizSpec(old(storage.entries), storage.disabled, storage.rejected,
                                         quizId, BlocksUpdate(blocks), now);
        && r == spec.outcome
        && (r.Fail? || storage.disabled || ReadRecord(old(storage.entries), quizId).None? ==>
              storage.entries == spec.entries && quizzes == old(quizzes) && loading == old(loading))
        && (r.Pass? && !storage.disabled && ReadRecord(old(storage.entries), quizId).Some? ==>
              storage.entries == AfterInitialize(spec.entries, storage.rejected, storage.loadedAt)
              && quizzes == AllQuizzes(storage.entries) && !loading)
    {
      r := UpdateQuiz(quizId, BlocksUpdate(blocks), now);
    }

    /** `publishQuiz(quizId)`: `updateQuiz(quizId, { published: true })`. */
    method PublishQuiz(quizId: string, now: int) returns (r: Outcome<StorageError>)
      modifies this, storage
      ensures var spec := UpdateQuizSpec(old(storage.entries), storage.disabled, storage.rejected,
                                         quizId, PublishedUpdate(true), now);
        && r == spec.outcome
        && (r.Fail? || storage.disabled || ReadRecord(old(storage.entries), quizId).None? ==>
              storage.entries == spec.entries && quizzes == old(quizzes) && loading == old(loading))
        && (r.Pass? && !storage.disabled && ReadRecord(old(storage.entries), quizId).Some? ==>
              storage.entries == AfterInitialize(spec.entries, storage.rejected, storage.loadedAt)
              && quizzes == AllQuizzes(storage.entries) && !loading)
    {
      r := UpdateQuiz(quizId, PublishedUpdate(true), now);
    }

    /** `unpublishQuiz(quizId)`: `updateQuiz(quizId, { published: false })`. */
    method UnpublishQuiz(quizId: string, now: int) returns (r: Outcome<StorageError>)
      modifies this, storage
      ensures var spec := UpdateQuizSpec(old(storage.entries), storage.disabled, storage.rejected,
                                         quizId, PublishedUpdate(false), now);
        && r == spec.outcome
        && (r.Fail? || storage.disabled || ReadRecord(old(storage.entries), quizId).None? ==>
              storage.entries == spec.entries && quizzes == old(quizzes) && loading == old(loading))
        && (r.Pass? && !storage.disabled && ReadRecord(old(storage.entries), quizId).Some? ==>
              storage.entries == AfterInitialize(spec.entries, storage.rejected, storage.loadedAt)
              && quizzes == AllQuizzes(storage.entries) && !loading)
    {
      r := UpdateQuiz(quizId, PublishedUpdate(false), now);
    }

    /**
     * `deleteQuiz(quizId)`: delete (failures are swallowed there) and
     * reload. With every record under its own id and the store initialised,
     * the reloaded cache holds no quiz with that id.
     */
    method DeleteQuiz(quizId: string) returns (r: Outcome<StorageError>)
      modifies this, storage
      ensures var deleted := DeleteQuizSpec(old(storage.entries), storage.disabled, storage.rejected, quizId).entries;
        && (storage.disabled ==>
              r == Fail(StorageUnavailable) && storage.entries == old(storage.entries)
              && quizzes == old(quizzes) && loading)
        && (!storage.disabled ==>
              r == Pass && storage.entries == AfterInitialize(deleted, storage.rejected, storage.loadedAt)
              && quizzes == AllQuizzes(storage.entries) && !loading)
      ensures !storage.disabled && WellKeyed(old(storage.entries)) && FlagSet(old(storage.entries)) ==>
        forall q :: q in quizzes ==> q.id != quizId
    {
      var notified := storage.DeleteQuiz(quizId);
      ghost var deleted := storage.entries;
      r := LoadQuizzes();
      if !storage.disabled && WellKeyed(old(storage.entries)) && FlagSet(old(storage.entries)) {
        DeleteKeepsFlag(old(storage.entries), storage.rejected, quizId);
        forall q | q in quizzes ensures q.id != quizId {
          DeletedQuizIsNotListed(old(storage.entries), storage.rejected, quizId, q);
        }
      }
    }
  }
}
