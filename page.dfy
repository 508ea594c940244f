/**
 * The handlers of the main page that edit the frame list of the active
 * sprite set and the list of sprite sets. Each handler is one atomic state
 * transition of the page. The effect that re-derives the frames whenever
 * the active id or the list of sets changes is a transition of its own,
 * `Home.ActiveSetEffect`, which React runs after every handler that writes
 * either of them.
 */
module Page {
  import opened Wrappers
  import opened Text
  import opened Seqs
  import opened FrameTypes
  import FrameManager

  datatype MoveDirection = Up | Down

  /** `s` with the elements at `i` and `j` exchanged. */
  function Swap<T>(s: seq<T>, i: nat, j: nat): (r: seq<T>)
    requires i < |s| && j < |s|
    ensures |r| == |s| && r[i] == s[j] && r[j] == s[i]
    ensures forall k :: 0 <= k < |s| && k != i && k != j ==> r[k] == s[k]
    ensures multiset(r) == multiset(s)
  {
    s[i := s[j]][j := s[i]]
  }

  /** The frame order `handleMoveFrame` produces. */
  function MovedFrames(frames: seq<Frame>, index: nat, direction: MoveDirection): seq<Frame>
    requires index < |frames|
  {
    if direction == Up && index > 0 then Swap(frames, index, index - 1)
    else if direction == Down && index < |frames| - 1 then Swap(frames, index, index + 1)
    else frames
  }

  /**
   * A move swaps the frame with its neighbour in the chosen direction when
   * there is one and otherwise changes nothing; the frames are always the
   * same frames.
   */
  lemma MovedFramesFacts(frames: seq<Frame>, index: nat, direction: MoveDirection)
    requires index < |frames|
    ensures var r := MovedFrames(frames, index, direction);
      |r| == |frames| && multiset(r) == multiset(frames)
      && (direction == Up && index > 0 ==> r[index - 1] == frames[index] && r[index] == frames[index - 1])
      && (direction == Down && index < |frames| - 1 ==> r[index + 1] == frames[index] && r[index] == frames[index + 1])
      && (forall k :: (0 <= k < |frames| && k != index && (direction == Up ==> k != index - 1)
                        && (direction == Down ==> k != index + 1)) ==> r[k] == frames[k])
      && ((direction == Up && index == 0) || (direction == Down && index == |frames| - 1) ==> r == frames)
  {
  }

  /** Moving a frame up and then moving it back down restores the order. */
  lemma MoveUpThenDown(frames: seq<Frame>, index: nat)
    requires 0 < index < |frames|
    ensures MovedFrames(MovedFrames(frames, index, Up), index - 1, Down) == frames
  {
    var once := MovedFrames(frames, index, Up);
    assert |once| == |frames|;
    var twice := MovedFrames(once, index - 1, Down);
    assert forall k :: 0 <= k < |frames| ==> twice[k] == frames[k];
  }

  /**
   * The sprite-set update shared by the frame handlers: when a set is active
   * (a non-empty id), the set with that id gets the new frames' sources as
   * both `frames` and `thumbnails`.
   */
  function SyncActive(spriteSets: seq<SpriteSet>, activeId: Option<string>, newFrames: seq<Frame>): (r: seq<SpriteSet>)
    ensures |r| == |spriteSets|
    ensures forall i :: 0 <= i < |r| ==>
      (r[i].id == spriteSets[i].id && r[i].name == spriteSets[i].name && r[i].metadata == spriteSets[i].metadata)
  {
    if activeId.Some? && activeId.value != "" then
      seq(|spriteSets|, i requires 0 <= i < |spriteSets| =>
        if spriteSets[i].id == activeId.value
        then spriteSets[i].(frames := Sources(newFrames), thumbnails := Sources(newFrames))
        else spriteSets[i])
    else spriteSets
  }

  /** After a sync the active set shows exactly the new frames and every other set is unchanged. */
  lemma SyncActiveFacts(spriteSets: seq<SpriteSet>, activeId: Option<string>, newFrames: seq<Frame>, i: nat)
    requires i < |spriteSets|
    ensures var r := SyncActive(spriteSets, activeId, newFrames);
      (activeId.Some? && activeId.value != "" && spriteSets[i].id == activeId.value ==>
        r[i].frames == Sources(newFrames) && r[i].thumbnails == Sources(newFrames))
      && (activeId.None? || activeId.value == "" || spriteSets[i].id != activeId.value ==> r[i] == spriteSets[i])
  {
  }

  /** `frames.filter((_, i) => i !== index)` */
  function RemoveAt(frames: seq<Frame>, index: int): (r: seq<Frame>)
    ensures 0 <= index < |frames| ==> r == frames[..index] + frames[index + 1..]
    ensures !(0 <= index < |frames|) ==> r == frames
  {
    if 0 <= index < |frames| then frames[..index] + frames[index + 1..] else frames
  }

  /** The position the player stays on after a delete. */
  function ClampedFrameIndex(current: int, newLength: nat): (r: int)
    ensures current < newLength ==> r == current
    ensures current >= newLength ==> r == if newLength > 0 then newLength - 1 else 0
    ensures 0 <= current ==> 0 <= r && (newLength > 0 ==> r < newLength)
  {
    if current >= newLength then (if newLength - 1 > 0 then newLength - 1 else 0) else current
  }

  /** The image a new frame gets from `handleAddFrame`: a fixed 32 by 32 PNG as a data URL. */
  const AddedFrameSrc: string := "data:image/png;base64,iVBORw0KGgoAAAANSUhEUgAAACAAAAAgCAYAAABzenr0AAAAAXNSR0IArs4c6QAAAERlWElmTU0AKgAAAAgAAYdpAAQAAAABAAAAGgAAAAAAA6ABAAMAAAABAAEAAKACAAQAAAABAAAAIKADAAQAAAABAAAAIAAAAACshmLzAAAAsUlEQVRYCWP8DwQMAwiYBtBusNWjDhgNgQEPARZ8ueDAgQMMBw8exKeEoJy9vT2Dg4MDTnV4HQCyHOQIZAOOPlyK0zB0iXsX3jGA1J9hUYVLldhshbNBDLwOACkAWV5fXw9igkHPkVMwJkF617zbBNUMeBoYdcBoCIyGwGgIjIbAaAgQrA1B1TEyOPqQcA0HUw+qjpUMhGBcrDQjvn4BPRokeB2A1clUFhxNhKMhMBoCANr9NVRkDEQTAAAAAElFTkSuQmCC"

  /** The metadata `handleImportFrames` gives an imported set. */
  function ImportedMetadata(createdAt: string): Metadata {
    Metadata("imported", "custom", "animation", "custom", Some("Imported from Special Mode"), createdAt)
  }

  /** The position `spriteSets.find(set => set.id === id)` stops at: the first set with the id, or the length. */
  function FindSetIndex(spriteSets: seq<SpriteSet>, id: string): (k: nat)
    ensures k <= |spriteSets|
    ensures forall j :: 0 <= j < k ==> spriteSets[j].id != id
    ensures k < |spriteSets| ==> spriteSets[k].id == id
  {
    if spriteSets == [] || spriteSets[0].id == id then 0
    else 1 + FindSetIndex(spriteSets[1..], id)
  }

  /**
   * What the effect makes of a handler's sync. The synced active set is
   * found at the same place, and the frames re-derived from it have the
   * sources the handler wrote, numbered 1..n. Frames the handler left
   * numbered are given back unchanged; a delete, which leaves a gap in the
   * numbering, has its frames renumbered.
   */
  lemma EffectAfterSync(spriteSets: seq<SpriteSet>, id: string, newFrames: seq<Frame>)
    requires id != "" && FindSetIndex(spriteSets, id) < |spriteSets|
    ensures var r := SyncActive(spriteSets, Some(id), newFrames);
      var k := FindSetIndex(r, id);
      k == FindSetIndex(spriteSets, id)
      && Sources(FrameManager.SpriteSetToFrames(r[k])) == Sources(newFrames)
      && ((forall i :: 0 <= i < |newFrames| ==> newFrames[i].id == i + 1 && newFrames[i].filename == PngName(i + 1))
          ==> FrameManager.SpriteSetToFrames(r[k]) == newFrames)
  {
    var r := SyncActive(spriteSets, Some(id), newFrames);
    var k := FindSetIndex(spriteSets, id);
    SyncActiveFacts(spriteSets, Some(id), newFrames, k);
    NumberedBySources(FrameManager.SpriteSetToFrames(r[k]), newFrames);
  }

  /** Two lists with the same sources are equal once both are numbered 1..n. */
  lemma NumberedBySources(a: seq<Frame>, b: seq<Frame>)
    requires Sources(a) == Sources(b)
    requires forall i :: 0 <= i < |a| ==> a[i].id == i + 1 && a[i].filename == PngName(i + 1)
    ensures (forall i :: 0 <= i < |b| ==> b[i].id == i + 1 && b[i].filename == PngName(i + 1)) ==> a == b
  {
    forall i | 0 <= i < |a|
      ensures a[i].src == b[i].src
    {
      assert Sources(a)[i] == Sources(b)[i];
    }
  }

  /** The page state these handlers read and write. */
  class Home {
    var spriteSets: seq<SpriteSet>
    var activeSpriteSetId: Option<string>
    var frames: seq<Frame>
    var currentFrameIndex: int
    var specialModeActive: bool
    var specialModeDialogOpen: bool
    /** The sprite and frame stores of the database, which some handlers write to. */
    var db: FrameManager.Database

    /** The initial state: no sets, the preset active id, no frames; `db` is the store as the page finds it. */
    constructor (db: FrameManager.Database)
      ensures spriteSets == [] && activeSpriteSetId == Some("093abc") && frames == []
      ensures currentFrameIndex == 0 && !specialModeActive && !specialModeDialogOpen
      ensures this.db == db
    {
      this.db := db;
      spriteSets := [];
      activeSpriteSetId := Some("093abc");
      frames := [];
      currentFrameIndex := 0;
      specialModeActive := false;
      specialModeDialogOpen := false;
    }

    /**
     * `handleMoveFrame`: swaps on a copy of the frame list, then syncs the
     * active set. `index` is the position of a listed frame.
     */
    method MoveFrame(index: nat, direction: MoveDirection)
      requires index < |frames|
      modifies this
      ensures frames == MovedFrames(old(frames), index, direction)
      ensures spriteSets == SyncActive(old(spriteSets), activeSpriteSetId, frames)
      ensures activeSpriteSetId == old(activeSpriteSetId) && currentFrameIndex == old(currentFrameIndex)
      ensures specialModeActive == old(specialModeActive) && specialModeDialogOpen == old(specialModeDialogOpen)
      ensures db == old(db)
    {
      var newFrames := new Frame[|frames|](i requires 0 <= i < |frames| reads this => frames[i]);
      if direction == Up && index > 0 {
        newFrames[index], newFrames[index - 1] := newFrames[index - 1], newFrames[index];
      } else if direction == Down && index < |frames| - 1 {
        newFrames[index], newFrames[index + 1] := newFrames[index + 1], newFrames[index];
      }
      frames := newFrames[..];
      spriteSets := SyncActive(spriteSets, activeSpriteSetId, frames);
    }

    /** `handleDeleteFrame` */
    method DeleteFrame(index: int)
      modifies this
      ensures frames == RemoveAt(old(frames), index)
      ensures currentFrameIndex == ClampedFrameIndex(old(currentFrameIndex), |frames|)
      ensures spriteSets == SyncActive(old(spriteSets), activeSpriteSetId, frames)
      ensures activeSpriteSetId == old(activeSpriteSetId)
      ensures specialModeActive == old(specialModeActive) && specialModeDialogOpen == old(specialModeDialogOpen)
      ensures db == old(db)
    {
      var newFrames := RemoveAt(frames, index);
      frames := newFrames;
      if currentFrameIndex >= |newFrames| {
        currentFrameIndex := if |newFrames| - 1 > 0 then |newFrames| - 1 else 0;
      }
      spriteSets := SyncActive(spriteSets, activeSpriteSetId, newFrames);
    }

    /** `handleAddFrame`: one placeholder frame at the end, numbered after the others. */
    method AddFrame()
      modifies this
      ensures frames == old(frames) + [Frame(|old(frames)| + 1, PngName(|old(frames)| + 1), AddedFrameSrc)]
      ensures spriteSets == SyncActive(old(spriteSets), activeSpriteSetId, frames)
      ensures activeSpriteSetId == old(activeSpriteSetId) && currentFrameIndex == old(currentFrameIndex)
      ensures specialModeActive == old(specialModeActive) && specialModeDialogOpen == old(specialModeDialogOpen)
      ensures db == old(db)
    {
      var newFrame := Frame(|frames| + 1, Decimal(|frames| + 1) + ".png", AddedFrameSrc);
      var newFrames := frames + [newFrame];
      frames := newFrames;
      spriteSets := SyncActive(spriteSets, activeSpriteSetId, newFrames);
    }

    /**
     * `handleDeleteSpriteSet`: every set with the id goes; if it was the
     * active one, the first remaining set becomes active, or none.
     */
    method DeleteSpriteSet(id: string)
      modifies this
      ensures spriteSets == Filter(old(spriteSets), (s: SpriteSet) => s.id != id)
      ensures old(activeSpriteSetId) == Some(id) ==>
        activeSpriteSetId == if |spriteSets| > 0 then Some(spriteSets[0].id) else None
      ensures old(activeSpriteSetId) != Some(id) ==> activeSpriteSetId == old(activeSpriteSetId)
      ensures frames == old(frames) && currentFrameIndex == old(currentFrameIndex)
      ensures specialModeActive == old(specialModeActive) && specialModeDialogOpen == old(specialModeDialogOpen)
      ensures db == old(db)
    {
      var newSpriteSets := Filter(spriteSets, (s: SpriteSet) => s.id != id);
      spriteSets := newSpriteSets;
      if activeSpriteSetId == Some(id) {
        activeSpriteSetId := if |newSpriteSets| > 0 then Some(newSpriteSets[0].id) else None;
      }
    }

    /**
     * `handleImportFrames`: nothing for an empty import; otherwise a new set
     * holding the imported images is appended and made active, and the whole
     * list is saved to the database. `newId`, `createdAt` and `savedAt` stand
     * for the random id and the two clock readings.
     */
    method ImportFrames(importedFrames: seq<Frame>, newId: string, createdAt: string, savedAt: string)
      modifies this
      ensures importedFrames == [] ==>
        spriteSets == old(spriteSets) && activeSpriteSetId == old(activeSpriteSetId) && frames == old(frames)
        && db == old(db)
      ensures importedFrames != [] ==>
        spriteSets == old(spriteSets) + [SpriteSet(newId, None, Sources(importedFrames), Sources(importedFrames),
                                                   Some(ImportedMetadata(createdAt)))]
        && activeSpriteSetId == Some(newId) && frames == importedFrames
        && db == FrameManager.SaveAllAppending(old(db), spriteSets, savedAt)
        && forall id :: FrameManager.RowsFor(db, id)
                        == FrameManager.RowsFor(old(db), id) + FrameManager.AccumulatedRows(spriteSets, id)
      ensures currentFrameIndex == old(currentFrameIndex)
      ensures specialModeActive == old(specialModeActive) && specialModeDialogOpen == old(specialModeDialogOpen)
    {
      if |importedFrames| == 0 {
        return;
      }
      var newSet := SpriteSet(newId, None, Sources(importedFrames), Sources(importedFrames),
                              Some(ImportedMetadata(createdAt)));
      var updatedSpriteSets := spriteSets + [newSet];
      spriteSets := updatedSpriteSets;
      activeSpriteSetId := Some(newSet.id);
      frames := importedFrames;
      db := FrameManager.SaveSpriteSetsToDatabase(db, updatedSpriteSets, savedAt);
    }

    /**
     * The effect on `[activeSpriteSetId, spriteSets]`. With a truthy active
     * id the frames become those of the first set with that id, renumbered,
     * and stay as they were when no set has it; without one they are
     * emptied. Either way the position goes back to 0.
     */
    method ActiveSetEffect()
      modifies this
      ensures activeSpriteSetId.Some? && activeSpriteSetId.value != "" ==>
        var k := FindSetIndex(spriteSets, activeSpriteSetId.value);
        frames == if k < |spriteSets| then FrameManager.SpriteSetToFrames(spriteSets[k]) else old(frames)
      ensures activeSpriteSetId.None? || activeSpriteSetId.value == "" ==> frames == []
      ensures currentFrameIndex == 0
      ensures spriteSets == old(spriteSets) && activeSpriteSetId == old(activeSpriteSetId)
      ensures specialModeActive == old(specialModeActive) && specialModeDialogOpen == old(specialModeDialogOpen)
      ensures db == old(db)
    {
      if activeSpriteSetId.Some? && activeSpriteSetId.value != "" {
        var k := FindSetIndex(spriteSets, activeSpriteSetId.value);
        if k < |spriteSets| {
          frames := FrameManager.SpriteSetToFrames(spriteSets[k]);
        }
      } else {
        frames := [];
      }
      currentFrameIndex := 0;
    }

    /** `handleSpecialModeToggle`: turning on also opens the dialog; turning off leaves it as it is. */
    method SpecialModeToggle()
      modifies this
      ensures specialModeActive == !old(specialModeActive)
      ensures specialModeDialogOpen == (old(specialModeDialogOpen) || !old(specialModeActive))
      ensures spriteSets == old(spriteSets) && activeSpriteSetId == old(activeSpriteSetId)
      ensures frames == old(frames) && currentFrameIndex == old(currentFrameIndex)
      ensures db == old(db)
    {
      if specialModeActive {
        specialModeActive := false;
      } else {
        specialModeActive := true;
        specialModeDialogOpen := true;
      }
    }
  }

  /** After deleting a set no set with that id is left, every other set is kept in order, and nothing else is lost. */
  lemma DeleteSpriteSetFacts(spriteSets: seq<SpriteSet>, id: string)
    ensures var r := Filter(spriteSets, (s: SpriteSet) => s.id != id);
      (forall i :: 0 <= i < |r| ==> r[i].id != id && r[i] in spriteSets)
      && (forall s :: s in spriteSets && s.id != id ==> s in r)
      && SubsequenceOf(r, spriteSets)
      && ((forall i :: 0 <= i < |spriteSets| ==> spriteSets[i].id != id) ==> r == spriteSets)
  {
    FilterIsSubsequence(spriteSets, (s: SpriteSet) => s.id != id);
    if forall i :: 0 <= i < |spriteSets| ==> spriteSets[i].id != id {
      FilterKeepsAll(spriteSets, (s: SpriteSet) => s.id != id);
    }
  }

  /** After a delete the player's position is inside the remaining frames (or 0 when there are none). */
  lemma DeleteKeepsIndexInRange(frames: seq<Frame>, index: int, current: int)
    requires 0 <= current < |frames|
    ensures var n := |RemoveAt(frames, index)|;
      0 <= ClampedFrameIndex(current, n) && (n > 0 ==> ClampedFrameIndex(current, n) < n)
      && (0 <= index < |frames| ==> n == |frames| - 1)
  {
  }

  /** An added frame continues the numbering of a numbered list. */
  lemma AddFrameContinuesNumbering(frames: seq<Frame>)
    requires forall i :: 0 <= i < |frames| ==> frames[i].id == i + 1 && frames[i].filename == PngName(i + 1)
    ensures var r := frames + [Frame(|frames| + 1, PngName(|frames| + 1), AddedFrameSrc)];
      forall i :: 0 <= i < |r| ==> r[i].id == i + 1 && r[i].filename == PngName(i + 1)
  {
  }
}
