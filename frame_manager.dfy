/**
 * Frame and sprite-set list operations of the frame manager: creating a set,
 * appending, removing and reordering frames, converting a set to numbered
 * frames, choosing the generation prompt, and the order in which frames are
 * written to and read back from the database.
 */
module FrameManager {
  import opened Wrappers
  import opened Text
  import opened Sorting
  import opened FrameTypes
  import opened Seqs
  import AnimationUtils

  // ---------------------------------------------------------------------------
  // generateFrames

  /** The prompt built from the four text parameters when no custom prompt is given. */
  function TemplatePrompt(style: string, obj: string, action: string, background: string): string {
    "Create a " + style + " pixel art of a " + obj + " " + action + " " + background
    + ". The image should be a square format with dimensions of 32x32 pixels. Use clear outlines and limited color palette appropriate for pixel art."
  }

  /** `customPrompt || template`: an absent or empty custom prompt falls back to the template. */
  function PromptFor(style: string, obj: string, action: string, background: string, customPrompt: string): (p: string)
    ensures customPrompt != "" ==> p == customPrompt
    ensures customPrompt == "" ==> p == TemplatePrompt(style, obj, action, background)
  {
    if customPrompt != "" then customPrompt else TemplatePrompt(style, obj, action, background)
  }

  /**
   * `generateFrames`. With an API key the image service (`api`, taking the
   * prompt and the count) supplies the sources, which are numbered 1..n;
   * without one the placeholder generator runs (`render` stands for drawing
   * placeholder frame `index` in a colour and encoding the canvas).
   */
  function GenerateFrames(
    style: string, obj: string, action: string, background: string, count: nat,
    customPrompt: string, apiKey: string,
    api: (string, nat) -> seq<string>, render: AnimationUtils.PlaceholderSpec -> string): (r: seq<Frame>)
    ensures forall i :: 0 <= i < |r| ==> r[i].id == i + 1 && r[i].filename == PngName(i + 1)
    ensures apiKey != "" ==> Sources(r) == api(PromptFor(style, obj, action, background, customPrompt), count)
    ensures apiKey == "" ==> |r| == count
    ensures apiKey == "" ==> r == AnimationUtils.GeneratePlaceholderFrames(style, obj, action, count, render)
  {
    if apiKey != "" then
      var urls := api(PromptFor(style, obj, action, background, customPrompt), count);
      NumberedFramesFacts(urls);
      NumberedFrames(urls)
    else
      AnimationUtils.GeneratePlaceholderFrames(style, obj, action, count, render)
  }

  // ---------------------------------------------------------------------------
  // Building and editing one sprite set

  /** `createSpriteSet`; the random id and the creation time are inputs. */
  function CreateSpriteSet(
    frames: seq<Frame>, style: string, obj: string, action: string, background: string,
    customPrompt: Option<string>, id: string, createdAt: string): (r: SpriteSet)
    ensures r.id == id && r.name == None
    ensures |r.frames| == |frames| && |r.thumbnails| == |frames|
    ensures forall i :: 0 <= i < |frames| ==> r.frames[i] == frames[i].src && r.thumbnails[i] == frames[i].src
    ensures r.metadata == Some(Metadata(style, obj, action, background, customPrompt, createdAt))
  {
    SpriteSet(id, None, Sources(frames), Sources(frames),
              Some(Metadata(style, obj, action, background, customPrompt, createdAt)))
  }

  /** `addFrameToSpriteSet`: the frame's source goes to the end of both lists. */
  function AddFrameToSpriteSet(spriteSet: SpriteSet, frame: Frame): (r: SpriteSet)
    ensures r.id == spriteSet.id && r.name == spriteSet.name && r.metadata == spriteSet.metadata
    ensures |r.frames| == |spriteSet.frames| + 1 && r.frames[..|spriteSet.frames|] == spriteSet.frames
    ensures r.frames[|spriteSet.frames|] == frame.src
    ensures |r.thumbnails| == |spriteSet.thumbnails| + 1 && r.thumbnails[..|spriteSet.thumbnails|] == spriteSet.thumbnails
    ensures r.thumbnails[|spriteSet.thumbnails|] == frame.src
  {
    spriteSet.(frames := spriteSet.frames + [frame.src], thumbnails := spriteSet.thumbnails + [frame.src])
  }

  /**
   * `removeFrameFromSpriteSet`: splices `index` out of copies of both lists
   * (the inputs are values here, so they cannot be mutated).
   */
  method RemoveFrameFromSpriteSet(spriteSet: SpriteSet, index: int) returns (r: SpriteSet)
    ensures r.id == spriteSet.id && r.name == spriteSet.name && r.metadata == spriteSet.metadata
    ensures 0 <= index < |spriteSet.frames| ==> r.frames == spriteSet.frames[..index] + spriteSet.frames[index + 1..]
    ensures 0 <= index < |spriteSet.thumbnails| ==>
      r.thumbnails == spriteSet.thumbnails[..index] + spriteSet.thumbnails[index + 1..]
    ensures -|spriteSet.frames| <= index < 0 ==>
      r.frames == Without(spriteSet.frames, |spriteSet.frames| + index)
    ensures -|spriteSet.thumbnails| <= index < 0 ==>
      r.thumbnails == Without(spriteSet.thumbnails, |spriteSet.thumbnails| + index)
    ensures index < -|spriteSet.frames| && spriteSet.frames != [] ==> r.frames == spriteSet.frames[1..]
    ensures index < -|spriteSet.thumbnails| && spriteSet.thumbnails != [] ==> r.thumbnails == spriteSet.thumbnails[1..]
    ensures index >= |spriteSet.frames| ==> r.frames == spriteSet.frames
    ensures index >= |spriteSet.thumbnails| ==> r.thumbnails == spriteSet.thumbnails
  {
    var newFrames := spriteSet.frames;
    var newThumbnails := spriteSet.thumbnails;
    newFrames := SpliceOut(newFrames, index);
    newThumbnails := SpliceOut(newThumbnails, index);
    r := spriteSet.(frames := newFrames, thumbnails := newThumbnails);
  }

  /**
   * What `reorderFramesInSpriteSet` promises of one list: the moved element
   * lands at `to`, and removing it from there gives the list with it removed
   * from `from`, so every other element keeps its relative order.
   */
  ghost predicate MovedTo<T>(before: seq<T>, after: seq<T>, from: nat, to: nat) {
    from < |before| && |after| == |before| && to < |after|
    && after[to] == before[from]
    && Without(after, to) == Without(before, from)
  }

  /** A move is a permutation: the list holds the same elements as before. */
  lemma MovedToPermutes<T>(before: seq<T>, after: seq<T>, from: nat, to: nat)
    requires MovedTo(before, after, from, to)
    ensures multiset(after) == multiset(before)
  {
    WithoutMultiset(before, from);
    WithoutMultiset(after, to);
  }

  /** Splicing the element at `from` out and back in at `to` is a move. */
  lemma MoveOne<T>(s: seq<T>, from: int, to: int, removed: seq<T>, moved: seq<T>)
    requires SpliceStart(from, |s|) < |s|
    requires removed == SpliceOut(s, from) && moved == SpliceIn(removed, to, s[SpliceStart(from, |s|)])
    ensures MovedTo(s, moved, SpliceStart(from, |s|), SpliceStart(to, |s| - 1))
  {
    var k := SpliceStart(from, |s|);
    assert removed == Without(s, k);
    assert |removed| == |s| - 1;
    var j := SpliceStart(to, |removed|);
    assert moved[j] == s[k] && Without(moved, j) == removed;
  }

  /**
   * `reorderFramesInSpriteSet`. The frame taken out must exist: with an index
   * outside the list the source inserts `undefined`, which a list of image
   * sources cannot hold (see README).
   */
  method ReorderFramesInSpriteSet(spriteSet: SpriteSet, fromIndex: int, toIndex: int) returns (r: SpriteSet)
    requires fromIndex != toIndex ==>
      SpliceStart(fromIndex, |spriteSet.frames|) < |spriteSet.frames|
      && SpliceStart(fromIndex, |spriteSet.thumbnails|) < |spriteSet.thumbnails|
    ensures fromIndex == toIndex ==> r == spriteSet
    ensures r.id == spriteSet.id && r.name == spriteSet.name && r.metadata == spriteSet.metadata
    ensures fromIndex != toIndex ==>
      MovedTo(spriteSet.frames, r.frames, SpliceStart(fromIndex, |spriteSet.frames|),
              SpliceStart(toIndex, |spriteSet.frames| - 1))
      && MovedTo(spriteSet.thumbnails, r.thumbnails, SpliceStart(fromIndex, |spriteSet.thumbnails|),
                 SpliceStart(toIndex, |spriteSet.thumbnails| - 1))
  {
    if fromIndex == toIndex {
      return spriteSet;
    }
    var newFrames := spriteSet.frames;
    var newThumbnails := spriteSet.thumbnails;
    var frameToMove := newFrames[SpliceStart(fromIndex, |newFrames|)];
    newFrames := SpliceOut(newFrames, fromIndex);
    ghost var framesOut := newFrames;
    var thumbnailToMove := newThumbnails[SpliceStart(fromIndex, |newThumbnails|)];
    newThumbnails := SpliceOut(newThumbnails, fromIndex);
    ghost var thumbnailsOut := newThumbnails;
    newFrames := SpliceIn(newFrames, toIndex, frameToMove);
    newThumbnails := SpliceIn(newThumbnails, toIndex, thumbnailToMove);
    MoveOne(spriteSet.frames, fromIndex, toIndex, framesOut, newFrames);
    MoveOne(spriteSet.thumbnails, fromIndex, toIndex, thumbnailsOut, newThumbnails);
    r := spriteSet.(frames := newFrames, thumbnails := newThumbnails);
  }

  /** `spriteSetToFrames` */
  function SpriteSetToFrames(spriteSet: SpriteSet): (r: seq<Frame>)
    ensures Sources(r) == spriteSet.frames
    ensures forall i :: 0 <= i < |r| ==> r[i].id == i + 1 && r[i].filename == PngName(i + 1)
  {
    NumberedFramesFacts(spriteSet.frames);
    NumberedFrames(spriteSet.frames)
  }

  /** A set created from frames converts back to frames with the same images in the same order. */
  lemma CreateThenConvert(
    frames: seq<Frame>, style: string, obj: string, action: string, background: string,
    customPrompt: Option<string>, id: string, createdAt: string)
    ensures Sources(SpriteSetToFrames(CreateSpriteSet(frames, style, obj, action, background,
                                                       customPrompt, id, createdAt))) == Sources(frames)
  {
  }

  // ---------------------------------------------------------------------------
  // Persistence: the database path and the localStorage fallback

  /** A row of the sprite store, as `spriteToDatabaseFormat` builds it. */
  datatype SetRecord = SetRecord(
    id: string, name: string, style: string, obj: string, action: string,
    background: string, prompt: string, createdAt: string)

  /** A row of the frame store, as `frameToDatabaseFormat` builds it. */
  datatype FrameRow = FrameRow(spriteId: string, frameIndex: int, filename: string, imageData: string)

  /**
   * The two stores. Sprite rows are keyed by id (a save replaces the row);
   * frame rows are reached through their `sprite_id` index.
   */
  datatype Database = Database(sets: map<string, SetRecord>, frames: map<string, seq<FrameRow>>)

  function FrameIndexKey(row: FrameRow): real {
    row.frameIndex as real
  }

  function RowsFor(db: Database, id: string): seq<FrameRow> {
    if id in db.frames then db.frames[id] else []
  }

  /** `set.metadata?.field || ''` */
  function FieldOr(m: Option<Metadata>, field: Metadata -> string): string {
    if m.Some? then field(m.value) else ""
  }

  function ToSetRecord(s: SpriteSet, createdAt: string): SetRecord {
    SetRecord(s.id, s.name.GetOr(""),
              FieldOr(s.metadata, (m: Metadata) => m.style), FieldOr(s.metadata, (m: Metadata) => m.obj),
              FieldOr(s.metadata, (m: Metadata) => m.action), FieldOr(s.metadata, (m: Metadata) => m.background),
              if s.metadata.Some? then s.metadata.value.prompt.GetOr("") else "",
              createdAt)
  }

  /** The frame rows one save writes for a set: row i carries index i and the i-th source. */
  function FrameRows(s: SpriteSet): (rows: seq<FrameRow>)
    ensures |rows| == |s.frames|
    ensures StrictlySortedBy(rows, FrameIndexKey)
    ensures forall i :: 0 <= i < |rows| ==> rows[i].frameIndex == i && rows[i].imageData == s.frames[i]
  {
    seq(|s.frames|, i requires 0 <= i < |s.frames| =>
      FrameRow(s.id, i, "frame_" + Decimal(i) + ".png", s.frames[i]))
  }

  function ImageData(rows: seq<FrameRow>): (r: seq<string>)
    ensures |r| == |rows|
  {
    seq(|rows|, i requires 0 <= i < |rows| => rows[i].imageData)
  }

  /** The frames of a loaded set: its rows sorted by `frame_index`, then their image data. */
  function LoadedFrames(rows: seq<FrameRow>): seq<string> {
    ImageData(SortBy(rows, FrameIndexKey))
  }

  /**
   * Whatever order the store hands the rows back in (the saves are not
   * awaited, so they may land in any order), loading restores the saved order.
   */
  lemma {:induction false} FrameOrderRoundTrip(s: SpriteSet, rows: seq<FrameRow>)
    requires multiset(rows) == multiset(FrameRows(s))
    ensures LoadedFrames(rows) == s.frames
  {
    var saved := FrameRows(s);
    StrictlySortedIsKeyInjective(saved, FrameIndexKey);
    SortedPermutationUnique(saved, SortBy(rows, FrameIndexKey), FrameIndexKey);
  }

  /**
   * Saving one set as the source does: its sprite row is replaced, its frame
   * rows are added to those already stored for that id (the frame store
   * assigns a fresh auto-increment key to every row it is given).
   */
  function SaveSetAppending(db: Database, s: SpriteSet, createdAt: string): Database {
    db.(sets := db.sets[s.id := ToSetRecord(s, createdAt)],
        frames := db.frames[s.id := RowsFor(db, s.id) + FrameRows(s)])
  }

  /** A set saved a second time loads back with twice as many frames. */
  lemma SaveTwiceDuplicatesFrames(db: Database, s: SpriteSet, t1: string, t2: string)
    requires RowsFor(db, s.id) == [] && |s.frames| > 0
    ensures |LoadedFrames(RowsFor(SaveSetAppending(SaveSetAppending(db, s, t1), s, t2), s.id))| == 2 * |s.frames|
    ensures LoadedFrames(RowsFor(SaveSetAppending(SaveSetAppending(db, s, t1), s, t2), s.id)) != s.frames
  {
  }

  /**
   * The store after saving every set of `spriteSets` in list order, as the
   * source does: each save adds its frame rows to the ones already there.
   */
  function SaveAllAppending(db: Database, spriteSets: seq<SpriteSet>, createdAt: string): Database
    decreases |spriteSets|
  {
    if spriteSets == [] then db
    else SaveSetAppending(SaveAllAppending(db, spriteSets[..|spriteSets| - 1], createdAt), spriteSets[|spriteSets| - 1], createdAt)
  }

  /** The frame rows the sets of `spriteSets` with id `id` write, in list order. */
  function AccumulatedRows(spriteSets: seq<SpriteSet>, id: string): seq<FrameRow>
    decreases |spriteSets|
  {
    if spriteSets == [] then []
    else
      var last := spriteSets[|spriteSets| - 1];
      AccumulatedRows(spriteSets[..|spriteSets| - 1], id) + (if last.id == id then FrameRows(last) else [])
  }

  /**
   * The database path of `saveSpriteSetsToStorage`: one save per set, in list
   * order. Every id ends up with the rows it had before followed by the frame
   * rows of each set in the list that carries it.
   */
  method SaveSpriteSetsToDatabase(db: Database, spriteSets: seq<SpriteSet>, createdAt: string)
    returns (saved: Database)
    ensures saved == SaveAllAppending(db, spriteSets, createdAt)
    ensures forall id :: RowsFor(saved, id) == RowsFor(db, id) + AccumulatedRows(spriteSets, id)
  {
    saved := db;
    for k := 0 to |spriteSets|
      invariant saved == SaveAllAppending(db, spriteSets[..k], createdAt)
    {
      assert spriteSets[..k + 1][..k] == spriteSets[..k];
      saved := SaveSetAppending(saved, spriteSets[k], createdAt);
    }
    assert spriteSets[..|spriteSets|] == spriteSets;
    forall id ensures RowsFor(saved, id) == RowsFor(db, id) + AccumulatedRows(spriteSets, id) {
      SaveAllAppendingRows(db, spriteSets, createdAt, id);
    }
  }

  /** Each id's stored rows after the appending saves: its old rows, then every save's rows for it. */
  lemma {:induction false} SaveAllAppendingRows(db: Database, spriteSets: seq<SpriteSet>, createdAt: string, id: string)
    ensures RowsFor(SaveAllAppending(db, spriteSets, createdAt), id) == RowsFor(db, id) + AccumulatedRows(spriteSets, id)
    decreases |spriteSets|
  {
    if spriteSets == [] {
      assert RowsFor(db, id) + [] == RowsFor(db, id);
    } else {
      var n := |spriteSets|;
      var prefix, last := spriteSets[..n - 1], spriteSets[n - 1];
      var before := SaveAllAppending(db, prefix, createdAt);
      assert SaveAllAppending(db, spriteSets, createdAt) == SaveSetAppending(before, last, createdAt);
      var added := if last.id == id then FrameRows(last) else [];
      assert AccumulatedRows(spriteSets, id) == AccumulatedRows(prefix, id) + added;
      SaveAllAppendingRows(db, prefix, createdAt, id);
      RowsAfterAppend(before, last, createdAt, id);
      AppendAssoc(RowsFor(db, id), AccumulatedRows(prefix, id), added);
    }
  }

  /** One appending save adds its rows under its own id and leaves every other id alone. */
  lemma RowsAfterAppend(db: Database, s: SpriteSet, createdAt: string, id: string)
    ensures RowsFor(SaveSetAppending(db, s, createdAt), id) == RowsFor(db, id) + (if s.id == id then FrameRows(s) else [])
  {
    if s.id != id {
      assert RowsFor(db, id) + [] == RowsFor(db, id);
    }
  }

  /** No set in the list carries `id`, so the list writes no rows for it. */
  lemma {:induction false} AccumulatedRowsAbsent(spriteSets: seq<SpriteSet>, id: string)
    requires forall j :: 0 <= j < |spriteSets| ==> spriteSets[j].id != id
    ensures AccumulatedRows(spriteSets, id) == []
    decreases |spriteSets|
  {
    if spriteSets != [] {
      var prefix := spriteSets[..|spriteSets| - 1];
      forall j | 0 <= j < |prefix| ensures prefix[j].id != id {
        assert prefix[j] == spriteSets[j];
      }
      AccumulatedRowsAbsent(prefix, id);
    }
  }

  /** A set whose id no other set in the list carries writes exactly its own rows for it. */
  lemma {:induction false} AccumulatedRowsSingle(spriteSets: seq<SpriteSet>, i: int)
    requires 0 <= i < |spriteSets|
    requires forall j :: 0 <= j < |spriteSets| && j != i ==> spriteSets[j].id != spriteSets[i].id
    ensures AccumulatedRows(spriteSets, spriteSets[i].id) == FrameRows(spriteSets[i])
    decreases |spriteSets|
  {
    var n := |spriteSets|;
    var prefix, id := spriteSets[..n - 1], spriteSets[i].id;
    if i == n - 1 {
      forall j | 0 <= j < |prefix| ensures prefix[j].id != id {
        assert prefix[j] == spriteSets[j];
      }
      AccumulatedRowsAbsent(prefix, id);
    } else {
      assert prefix[i] == spriteSets[i];
      forall j | 0 <= j < |prefix| && j != i ensures prefix[j].id != id {
        assert prefix[j] == spriteSets[j];
      }
      AccumulatedRowsSingle(prefix, i);
    }
  }

  /**
   * As written, re-saving a set the store already holds (every set loaded at
   * start-up is one) doubles it: its rows are then the stored ones followed
   * by the new ones, and it loads back with twice its frames.
   */
  lemma ResavedSetLoadsTwice(db: Database, spriteSets: seq<SpriteSet>, createdAt: string, i: int, rows: seq<FrameRow>)
    requires 0 <= i < |spriteSets| && |spriteSets[i].frames| > 0
    requires forall j :: 0 <= j < |spriteSets| && j != i ==> spriteSets[j].id != spriteSets[i].id
    requires RowsFor(db, spriteSets[i].id) == FrameRows(spriteSets[i])
    requires multiset(rows) == multiset(RowsFor(SaveAllAppending(db, spriteSets, createdAt), spriteSets[i].id))
    ensures |LoadedFrames(rows)| == 2 * |spriteSets[i].frames|
    ensures LoadedFrames(rows) != spriteSets[i].frames
  {
    SaveAllAppendingRows(db, spriteSets, createdAt, spriteSets[i].id);
    AccumulatedRowsSingle(spriteSets, i);
    assert |rows| == |multiset(rows)|;
  }

  /**
   * As written, a set whose id the store did not hold yet and that appears
   * once in the list loads back with its frames in order.
   */
  lemma FirstSaveLoadsBack(db: Database, spriteSets: seq<SpriteSet>, createdAt: string, i: int, rows: seq<FrameRow>)
    requires 0 <= i < |spriteSets|
    requires forall j :: 0 <= j < |spriteSets| && j != i ==> spriteSets[j].id != spriteSets[i].id
    requires RowsFor(db, spriteSets[i].id) == []
    requires multiset(rows) == multiset(RowsFor(SaveAllAppending(db, spriteSets, createdAt), spriteSets[i].id))
    ensures LoadedFrames(rows) == spriteSets[i].frames
  {
    SaveAllAppendingRows(db, spriteSets, createdAt, spriteSets[i].id);
    AccumulatedRowsSingle(spriteSets, i);
    assert [] + FrameRows(spriteSets[i]) == FrameRows(spriteSets[i]);
    FrameOrderRoundTrip(spriteSets[i], rows);
  }

  /** The appending saves write the same sprite rows as the corrected ones. */
  lemma {:induction false} SaveAllSameRecords(db: Database, spriteSets: seq<SpriteSet>, createdAt: string)
    ensures SaveAllAppending(db, spriteSets, createdAt).sets == SaveAll(db, spriteSets, createdAt).sets
    decreases |spriteSets|
  {
    if spriteSets != [] {
      SaveAllSameRecords(db, spriteSets[..|spriteSets| - 1], createdAt);
    }
  }

  /** As written, the last set saved under an id decides that id's sprite row. */
  lemma AppendingRecordLastWins(db: Database, spriteSets: seq<SpriteSet>, createdAt: string, i: int)
    requires 0 <= i < |spriteSets|
    requires forall j :: i < j < |spriteSets| ==> spriteSets[j].id != spriteSets[i].id
    ensures spriteSets[i].id in SaveAllAppending(db, spriteSets, createdAt).sets
    ensures SaveAllAppending(db, spriteSets, createdAt).sets[spriteSets[i].id] == ToSetRecord(spriteSets[i], createdAt)
  {
    SaveAllSameRecords(db, spriteSets, createdAt);
    SaveAllLastWins(db, spriteSets, createdAt, i);
  }

  // The corrected save: the set's frame rows are replaced, not added to.

  /** Saving one set so that its stored frame rows are exactly the ones just written. */
  function SaveSet(db: Database, s: SpriteSet, createdAt: string): (r: Database)
    ensures RowsFor(r, s.id) == FrameRows(s)
    ensures forall id :: id != s.id ==> RowsFor(r, id) == RowsFor(db, id)
  {
    db.(sets := db.sets[s.id := ToSetRecord(s, createdAt)],
        frames := db.frames[s.id := FrameRows(s)])
  }

  /** After the corrected save, a set's frames load back in order whatever was stored before. */
  lemma SaveThenLoad(db: Database, s: SpriteSet, createdAt: string, rows: seq<FrameRow>)
    requires multiset(rows) == multiset(RowsFor(SaveSet(db, s, createdAt), s.id))
    ensures LoadedFrames(rows) == s.frames
  {
    FrameOrderRoundTrip(s, rows);
  }

  /** The store after the corrected save of every set of `spriteSets`, in list order. */
  function SaveAll(db: Database, spriteSets: seq<SpriteSet>, createdAt: string): Database
    decreases |spriteSets|
  {
    if spriteSets == [] then db
    else SaveSet(SaveAll(db, spriteSets[..|spriteSets| - 1], createdAt), spriteSets[|spriteSets| - 1], createdAt)
  }

  /** With the corrected saves, sets whose id is not in the list keep their stored frame rows. */
  lemma {:induction false} SaveAllKeepsOthers(db: Database, spriteSets: seq<SpriteSet>, createdAt: string, id: string)
    requires forall s :: s in spriteSets ==> s.id != id
    ensures RowsFor(SaveAll(db, spriteSets, createdAt), id) == RowsFor(db, id)
    decreases |spriteSets|
  {
    if spriteSets != [] {
      var n := |spriteSets|;
      var prefix := spriteSets[..n - 1];
      assert spriteSets[n - 1] in spriteSets;
      assert forall s :: s in prefix ==> s in spriteSets;
      SaveAllKeepsOthers(db, prefix, createdAt, id);
      assert SaveAll(db, spriteSets, createdAt) == SaveSet(SaveAll(db, prefix, createdAt), spriteSets[n - 1], createdAt);
    }
  }

  /** With the corrected saves, the last set saved under an id decides its sprite row and frame rows. */
  lemma {:induction false} SaveAllLastWins(db: Database, spriteSets: seq<SpriteSet>, createdAt: string, i: int)
    requires 0 <= i < |spriteSets|
    requires forall j :: i < j < |spriteSets| ==> spriteSets[j].id != spriteSets[i].id
    ensures spriteSets[i].id in SaveAll(db, spriteSets, createdAt).sets
    ensures SaveAll(db, spriteSets, createdAt).sets[spriteSets[i].id] == ToSetRecord(spriteSets[i], createdAt)
    ensures RowsFor(SaveAll(db, spriteSets, createdAt), spriteSets[i].id) == FrameRows(spriteSets[i])
    decreases |spriteSets|
  {
    var n := |spriteSets|;
    var prefix, last := spriteSets[..n - 1], spriteSets[n - 1];
    var before := SaveAll(db, prefix, createdAt);
    assert SaveAll(db, spriteSets, createdAt) == SaveSet(before, last, createdAt);
    if i < n - 1 {
      assert prefix[i] == spriteSets[i];
      forall j | i < j < |prefix| ensures prefix[j].id != prefix[i].id {
        assert prefix[j] == spriteSets[j];
      }
      SaveAllLastWins(db, prefix, createdAt, i);
      assert last.id != spriteSets[i].id;
    }
  }

  /** The set `loadSpriteSetsFromStorage` builds from a sprite row and that sprite's frame rows. */
  function LoadedSet(record: SetRecord, rows: seq<FrameRow>): (r: SpriteSet)
    ensures r.id == record.id && r.name == Some(record.name)
    ensures r.frames == r.thumbnails == LoadedFrames(rows)
  {
    var frames := LoadedFrames(rows);
    SpriteSet(record.id, Some(record.name), frames, frames,
              Some(Metadata(record.style, record.obj, record.action, record.background,
                            Some(record.prompt), record.createdAt)))
  }

  /**
   * The database path of `loadSpriteSetsFromStorage`: for every sprite row, in
   * the order the store lists them, fetch its frame rows, sort them by
   * `frame_index` and push the rebuilt set.
   */
  method LoadSpriteSetsFromDatabase(records: seq<SetRecord>, db: Database) returns (result: seq<SpriteSet>)
    ensures |result| == |records|
    ensures forall i :: 0 <= i < |records| ==>
      result[i].id == records[i].id && result[i].frames == result[i].thumbnails
      && result[i].frames == LoadedFrames(RowsFor(db, records[i].id))
    ensures forall i :: 0 <= i < |records| ==> result[i] == LoadedSet(records[i], RowsFor(db, records[i].id))
  {
    ghost var expected := seq(|records|, i requires 0 <= i < |records| => LoadedSet(records[i], RowsFor(db, records[i].id)));
    result := [];
    for k := 0 to |records|
      invariant result == expected[..k]
    {
      assert expected[..k + 1] == expected[..k] + [expected[k]];
      result := result + [LoadedSet(records[k], RowsFor(db, records[k].id))];
    }
    assert result == expected;
  }

  /**
   * With the corrected saves, a set not saved again later in the list loads
   * back with its id and its frames in order, whatever order the
   * store returns its rows in.
   */
  lemma SavedSetsLoadBack(db: Database, spriteSets: seq<SpriteSet>, createdAt: string, i: int, rows: seq<FrameRow>)
    requires 0 <= i < |spriteSets|
    requires forall j :: i < j < |spriteSets| ==> spriteSets[j].id != spriteSets[i].id
    requires multiset(rows) == multiset(RowsFor(SaveAll(db, spriteSets, createdAt), spriteSets[i].id))
    ensures spriteSets[i].id in SaveAll(db, spriteSets, createdAt).sets
    ensures LoadedSet(SaveAll(db, spriteSets, createdAt).sets[spriteSets[i].id], rows).id == spriteSets[i].id
    ensures LoadedSet(SaveAll(db, spriteSets, createdAt).sets[spriteSets[i].id], rows).frames == spriteSets[i].frames
  {
    SaveAllLastWins(db, spriteSets, createdAt, i);
    FrameOrderRoundTrip(spriteSets[i], rows);
  }

  /**
   * The localStorage fallback of `saveSpriteSetsToStorage`: every set is kept
   * with no frames and at most its first thumbnail.
   */
  function LocalStorageSnapshot(spriteSets: seq<SpriteSet>): (r: seq<SpriteSet>)
    ensures |r| == |spriteSets|
    ensures forall i :: 0 <= i < |r| ==>
      r[i].frames == [] && |r[i].thumbnails| <= 1 && |r[i].thumbnails| <= |spriteSets[i].thumbnails|
      && r[i].thumbnails == spriteSets[i].thumbnails[..|r[i].thumbnails|]
      && (|spriteSets[i].thumbnails| > 0 <==> |r[i].thumbnails| == 1)
      && r[i].id == spriteSets[i].id && r[i].name == spriteSets[i].name
      && r[i].metadata == spriteSets[i].metadata
  {
    seq(|spriteSets|, i requires 0 <= i < |spriteSets| =>
      var t := spriteSets[i].thumbnails;
      spriteSets[i].(frames := [], thumbnails := if |t| < 1 then t else t[..1]))
  }
}
