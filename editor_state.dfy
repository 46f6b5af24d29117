/**
 * The block-list editor (hooks/useQuizEditor.ts): one `EditorState` record
 * that every handler replaces, and the list operations those handlers use
 * (splice an element in, shallow-merge an update, filter by id, move).
 */
module QuizEditorHook {
  import opened Wrappers
  import opened QuizTypes

  /** `Partial<QuizBlock>`: each present field overrides the block's own. */
  datatype BlockUpdate = BlockUpdate(
    id: Option<string>,
    kind: Option<BlockType>,
    content: Option<string>,
    properties: Option<Option<Properties>>)

  /** The block `handleAddBlock` builds: empty content, default properties for a question. */
  function NewBlock(kind: BlockType, id: string): (b: Block)
    ensures b.id == id && b.kind == kind && b.content == ""
    ensures b.kind == Question ==> b.properties == Some(DefaultQuestionProperties)
    ensures b.kind != Question ==> b.properties == None
  {
    Block(id, kind, "", if kind == Question then Some(DefaultQuestionProperties) else None)
  }

  /** `splice(i, 0, x)` on a copy of `s`, with `i` in range. */
  function InsertAt<T>(s: seq<T>, i: nat, x: T): (r: seq<T>)
    requires i <= |s|
    ensures |r| == |s| + 1 && r[i] == x
    ensures forall k :: 0 <= k < i ==> r[k] == s[k]
    ensures forall k :: i < k < |r| ==> r[k] == s[k - 1]
  {
    s[..i] + [x] + s[i..]
  }

  /** `splice(i, 1)` on a copy of `s`: the list without position `i`. */
  function RemoveAt<T>(s: seq<T>, i: nat): (r: seq<T>)
    requires i < |s|
    ensures |r| == |s| - 1
    ensures forall k :: 0 <= k < i ==> r[k] == s[k]
    ensures forall k :: i <= k < |r| ==> r[k] == s[k + 1]
  {
    s[..i] + s[i + 1..]
  }

  /** `{ ...block, ...updates }`: a shallow merge of an update into a block. */
  function Merge(b: Block, u: BlockUpdate): (r: Block)
    ensures r.id == u.id.GetOr(b.id) && r.kind == u.kind.GetOr(b.kind)
    ensures r.content == u.content.GetOr(b.content)
    ensures r.properties == u.properties.GetOr(b.properties)
  {
    Block(u.id.GetOr(b.id), u.kind.GetOr(b.kind), u.content.GetOr(b.content),
          u.properties.GetOr(b.properties))
  }

  /** `blocks.map(b => b.id === id ? { ...b, ...u } : b)`. */
  function UpdateMatching(blocks: seq<Block>, id: string, u: BlockUpdate): (r: seq<Block>)
    ensures |r| == |blocks|
    ensures forall k :: 0 <= k < |blocks| ==>
      r[k] == if blocks[k].id == id then Merge(blocks[k], u) else blocks[k]
  {
    if blocks == [] then []
    else [if blocks[0].id == id then Merge(blocks[0], u) else blocks[0]]
         + UpdateMatching(blocks[1..], id, u)
  }

  /** `blocks.filter(b => b.id !== id)`. */
  function RemoveMatching(blocks: seq<Block>, id: string): (r: seq<Block>)
    ensures |r| <= |blocks|
    ensures forall b :: b in r ==> b in blocks && b.id != id
    ensures forall b :: b in blocks && b.id != id ==> b in r
  {
    if blocks == [] then []
    else if blocks[0].id == id then RemoveMatching(blocks[1..], id)
    else [blocks[0]] + RemoveMatching(blocks[1..], id)
  }

  /** `handleMoveBlock`'s two splices: take the element at `from` out, put it back at `to`. */
  function Moved<T>(s: seq<T>, from: nat, to: nat): (r: seq<T>)
    requires from < |s| && to < |s|
    ensures |r| == |s| && r[to] == s[from]
    ensures RemoveAt(r, to) == RemoveAt(s, from)
  {
    InsertAt(RemoveAt(s, from), to, s[from])
  }

  /** Shallow merging the same update twice is merging it once. */
  lemma MergeIdempotent(b: Block, u: BlockUpdate)
    ensures Merge(Merge(b, u), u) == Merge(b, u)
  {
  }

  /** Re-applying `updateBlock(id, u)` changes nothing more. */
  lemma {:induction false} UpdateMatchingIdempotent(blocks: seq<Block>, id: string, u: BlockUpdate)
    ensures UpdateMatching(UpdateMatching(blocks, id, u), id, u) == UpdateMatching(blocks, id, u)
  {
    var once := UpdateMatching(blocks, id, u);
    var twice := UpdateMatching(once, id, u);
    forall k | 0 <= k < |blocks| ensures twice[k] == once[k] {
      if blocks[k].id == id {
        MergeIdempotent(blocks[k], u);
      }
    }
  }

  /** With no block carrying `id`, `updateBlock` leaves the list as it was. */
  lemma UpdateMatchingNoMatch(blocks: seq<Block>, id: string, u: BlockUpdate)
    requires forall k :: 0 <= k < |blocks| ==> blocks[k].id != id
    ensures UpdateMatching(blocks, id, u) == blocks
  {
  }

  /** Deleting an id no block carries leaves the list as it was. */
  lemma {:induction false} RemoveMatchingNoMatch(blocks: seq<Block>, id: string)
    requires forall k :: 0 <= k < |blocks| ==> blocks[k].id != id
    ensures RemoveMatching(blocks, id) == blocks
  {
    if blocks != [] {
      RemoveMatchingNoMatch(blocks[1..], id);
    }
  }

  /** Filtering keeps the survivors in their order: it distributes over concatenation. */
  lemma {:induction false} RemoveMatchingAppend(a: seq<Block>, b: seq<Block>, id: string)
    ensures RemoveMatching(a + b, id) == RemoveMatching(a, id) + RemoveMatching(b, id)
  {
    if a == [] {
      assert a + b == b;
    } else {
      assert (a + b)[1..] == a[1..] + b;
      RemoveMatchingAppend(a[1..], b, id);
    }
  }

  /** Exactly the blocks carrying `id` go: every other block keeps its count. */
  lemma {:induction false} RemoveMatchingCounts(blocks: seq<Block>, id: string, b: Block)
    ensures multiset(RemoveMatching(blocks, id))[b] == if b.id == id then 0 else multiset(blocks)[b]
  {
    if blocks != [] {
      RemoveMatchingCounts(blocks[1..], id, b);
      assert blocks == [blocks[0]] + blocks[1..];
    }
  }

  /** Splicing an element in adds exactly that element. */
  lemma InsertAtMultiset<T>(s: seq<T>, i: nat, x: T)
    requires i <= |s|
    ensures multiset(InsertAt(s, i, x)) == multiset(s) + multiset{x}
  {
    assert s == s[..i] + s[i..];
    assert InsertAt(s, i, x) == s[..i] + ([x] + s[i..]);
  }

  /** Splicing position `i` out removes exactly the element there. */
  lemma RemoveAtMultiset<T>(s: seq<T>, i: nat)
    requires i < |s|
    ensures multiset(RemoveAt(s, i)) + multiset{s[i]} == multiset(s)
  {
    assert s == s[..i] + ([s[i]] + s[i + 1..]);
  }

  /** Moving is a permutation of the list. */
  lemma MovedIsPermutation<T>(s: seq<T>, from: nat, to: nat)
    requires from < |s| && to < |s|
    ensures multiset(Moved(s, from, to)) == multiset(s)
  {
    RemoveAtMultiset(s, from);
    InsertAtMultiset(RemoveAt(s, from), to, s[from]);
  }

  /** Moving back undoes a move. */
  lemma MovedBack<T>(s: seq<T>, from: nat, to: nat)
    requires from < |s| && to < |s|
    ensures Moved(Moved(s, from, to), to, from) == s
  {
    var m := Moved(s, from, to);
    assert RemoveAt(m, to) == RemoveAt(s, from);
    var back := Moved(m, to, from);
    assert back == InsertAt(RemoveAt(s, from), from, s[from]);
    assert back == s;
  }

  /**
   * The editor hook. Its one state record is replaced by each handler; fresh
   * block ids (`crypto.randomUUID()`) are passed in by the caller.
   */
  class Editor {
    var state: EditorState

    constructor (initialBlocks: seq<Block>)
      ensures state == EditorState(initialBlocks, None)
    {
      state := EditorState(initialBlocks, None);
    }

    /** `handleSetBlocks`: replace the blocks, keep the selection. */
    method SetBlocks(newBlocks: seq<Block>)
      modifies this
      ensures state == old(state).(blocks := newBlocks)
    {
      state := state.(blocks := newBlocks);
    }

    /**
     * `handleAddBlock`: build a new block with id `freshId` and splice it in
     * at `index` (at the end when no index is given); select it.
     */
    method AddBlock(kind: BlockType, index: Option<nat>, freshId: string)
      requires index.Some? ==> index.value <= |state.blocks|
      requires forall k :: 0 <= k < |state.blocks| ==> state.blocks[k].id != freshId
      modifies this
      ensures var at := index.GetOr(|old(state.blocks)|);
        state == EditorState(InsertAt(old(state.blocks), at, NewBlock(kind, freshId)), Some(freshId))
      ensures forall k :: 0 <= k < |state.blocks| ==>
        (state.blocks[k].id == freshId <==> k == index.GetOr(|old(state.blocks)|))
    {
      var newBlock := NewBlock(kind, freshId);
      var at := if index.Some? then index.value else |state.blocks|;
      state := EditorState(InsertAt(state.blocks, at, newBlock), Some(newBlock.id));
    }

    /** `handleInsertBlock`: `handleAddBlock` with a mandatory index. */
    method InsertBlock(kind: BlockType, index: nat, freshId: string)
      requires index <= |state.blocks|
      requires forall k :: 0 <= k < |state.blocks| ==> state.blocks[k].id != freshId
      modifies this
      ensures state == EditorState(InsertAt(old(state.blocks), index, NewBlock(kind, freshId)), Some(freshId))
    {
      AddBlock(kind, Some(index), freshId);
    }

    /** `handleUpdateBlock`: merge `u` into every block with id `id`; keep the selection. */
    method UpdateBlock(id: string, u: BlockUpdate)
      modifies this
      ensures state == old(state).(blocks := UpdateMatching(old(state.blocks), id, u))
    {
      state := state.(blocks := UpdateMatching(state.blocks, id, u));
    }

    /** `handleDeleteBlock`: drop the blocks with id `id`; clear the selection only if it was `id`. */
    method DeleteBlock(id: string)
      modifies this
      ensures state.blocks == RemoveMatching(old(state.blocks), id)
      ensures state.selectedBlockId ==
        if old(state.selectedBlockId) == Some(id) then None else old(state.selectedBlockId)
    {
      var selection := if state.selectedBlockId == Some(id) then None else state.selectedBlockId;
      state := EditorState(RemoveMatching(state.blocks, id), selection);
    }

    /** `handleMoveBlock` with both indices in range; the selection is kept. */
    method MoveBlock(from: nat, to: nat)
      requires from < |state.blocks| && to < |state.blocks|
      modifies this
      ensures state == old(state).(blocks := Moved(old(state.blocks), from, to))
      ensures multiset(state.blocks) == multiset(old(state.blocks))
    {
      MovedIsPermutation(state.blocks, from, to);
      state := state.(blocks := Moved(state.blocks, from, to));
    }

    /** `handleSelectBlock`: any id, or none, may be selected. */
    method SelectBlock(id: Option<string>)
      modifies this
      ensures state == old(state).(selectedBlockId := id)
    {
      state := state.(selectedBlockId := id);
    }
  }
}
